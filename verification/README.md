# gwcpp verification

A Dafny model of the stateful core of gwcpp, a small C++ reactor library, with proofs of what its parts promise:

* the byte buffer `ByteBuf` (a read and a write index over a string that only grows), its integer codecs and its hex text;
* the reactor: events, the epoll poller, the loop with its task queue, TCP connections, and the server that owns them;
* the thread pool and its queue, as interleaved atomic steps;
* the command-line and separator splitters, number printing, and the bounded log stream that prints into a fixed array;
* the reference-counted descriptor handle `Fd`.

What the source updates in place is a class whose methods are proved equal to functions on values; the theorems are about
those functions, over every input, every run, or every interleaving.

| file | holds |
|---|---|
| IntCodec, ByteData, ByteBuf, HexCodec | integer codecs; the buffer as a value with its theorems; the class; hex text |
| Text, Split, CommandLine | `std::string` searches; the separator splitter; the command-line scanner and its automaton |
| NumberText, LogStream | digits in an array, reversed in place; the log buffer and stream |
| PollerModel, Events | the poller and its events on values, with the rules of `epoll_ctl`; the two classes |
| ConnectionModel, TcpConnection | one connection on values, with its two streams; the class |
| ReactorModel, ReactorInvariant, LoopTrace, Teardown, Scenarios, ServerLoop | the loop with servers and connections over an explicit heap; its invariant, step by step; what a run makes happen, read off its steps; the theorems over runs; runs from the start that go well or wrong; the loop as a class |
| SafeQueue, ThreadPool | the queue; the pool as a step machine |
| Prelude | `Option`, and associativity of concatenation |
| FdModel, Fds | handles and their shared details on values; the classes |

## Results that correct the code's apparent promises

Each is stated as an exact condition, proved for all inputs.

* `readerIndex(int)` accepts a negative index, and this is the one operation that takes the indexes out of bounds
  (`ByteData.StepInBounds`).
* All connections of a server get the same name, since the connection number is never advanced. Accepting while the server
  has a connection breaks the loop's invariant, whatever the connect callback does (`Teardown.AcceptExact`): the earlier
  connection is up without an owner, or released while the poller still maps it. In the second case the next connection to
  get its descriptor fails an assert (`Teardown.ReuseFaults`); `Scenarios.ReuseRun` is such a run from the start.
* A hang-up reported together with urgent data but no ordinary data, when the read then finds the end of the stream,
  closes a connection twice in one dispatch and fails the assert on the state (`Scenarios.DoubleCloseRun`); nothing else can
  go wrong in a dispatch to a connection (`Teardown.CloseExact`).
* Copying a non-empty `Fd` over another non-empty handle leaks a count, and nothing else does (`FdModel.StepExact`).
* `SplitCmdline` never returns for a command with an unclosed quote inside a word, and returns for all others
  (`CommandLine.ReturnsIffClosed`).
* Disabling an event that is already unwatched registers it again, for nothing (`PollerModel.EmptyInterest`).
* `readChar` outside the stored bytes moves the read index although it throws (`ByteData.ReadCharExact`).
* `Split` returns exactly for a separator that is not empty (`Split.ReturnsIffSeparator`).
* Splitting a join gives back other pieces exactly when a separator occurs too early (`Split.SplitJoin`), and text that is
  not hexadecimal does not survive `fromHex` (`HexCodec.TextRoundTrip`).

## Terms

A step of the loop is *troubled* when a server accepts while it has a connection, or when a dispatch closes a connection
twice; a run is *calm* when none of its steps is troubled. A *fault* is a failed assert of the source or a use of a
released object. What *happens* in a run is read off its steps alone: connections open and shut, and user code acts, in
callbacks and in tasks. A run is given by what the environment does in it: reports, received data, accepted descriptors, the
number of turns before the loop is told to stop, and what user code does in its callbacks and tasks.

## Model

| member | source | states |
|---|---|---|
| IntCodec.LittleEndianEncodes | gwcpp/base/ByteBuf.h:152-160 | the bytes `toBinaryLE` writes are the value modulo its width, least significant first |
| IntCodec.BigEndianEncodes | gwcpp/base/ByteBuf.h:142-150 | the bytes `toBinary` writes are the value modulo its width, most significant first |
| IntCodec.TruncationExact | gwcpp/base/ByteBuf.h:142-160 | truncating a value that fits its type loses nothing |
| IntCodec.DecodeEncode | gwcpp/base/ByteBuf.h:77-102 | every 8, 16 or 32-bit value, signed or not, in either byte order, is read back from its own bytes |
| ByteData.FetchInBounds | gwcpp/base/ByteBuf.h:51-63 | with the index in bounds, a fixed-width read takes exactly the bytes there, or none when too few are left |
| ByteData.FetchThrows | gwcpp/base/ByteBuf.h:51-63 | at any index, a fixed-width read throws if and only if the index lies past the stored bytes, or so far before them that the wrapped length test passes |
| ByteData.ReadTypedInBounds | gwcpp/base/ByteBuf.cpp:319-335 | in bounds no typed read throws, and `readChar`, which moves the index first, does what the others do |
| ByteData.StepInBounds | gwcpp/base/ByteBuf.cpp:103-181 | one operation keeps all four indexes in bounds if and only if it is not a reader setter with a negative index; no read throws, and a get throws exactly at an index outside |
| ByteData.ReadBytesDelivers | gwcpp/base/ByteBuf.cpp:342-346 | in bounds, `readBytes` never throws: it takes as many bytes as asked for, or all that are left if there are fewer or the length is negative |
| ByteData.ReadBytesThrows | gwcpp/base/ByteBuf.cpp:342-346 | anywhere, it throws if and only if the read index lies outside the stored bytes |
| ByteData.ReadCharExact | gwcpp/base/ByteBuf.cpp:319-324 | `readChar` does what the other typed reads do if and only if the read index lies within the stored bytes |
| ByteData.RunInBounds | gwcpp/base/ByteBuf.cpp:13-181 | over every run with non-negative setter arguments all indexes stay in bounds and no read throws |
| ByteData.WriteAppends | gwcpp/base/ByteBuf.h:132-140 | a write inserts before any stale bytes, so it appends to the readable bytes |
| ByteData.WriteInserts | gwcpp/base/ByteBuf.h:132-140 | wherever the write index is, a write puts its bytes right before the new index, and taking them out again gives the old bytes |
| ByteData.SetDataExact | gwcpp/base/ByteBuf.h:114-120 | what is set at an index stands there, between the bytes before it and those behind it, or at the end if the index lies outside |
| ByteData.SetThenGet | gwcpp/base/ByteBuf.h:51-120 | a value set at an index in bounds is what a typed get finds there |
| ByteData.ReadFixedTakes | gwcpp/base/ByteBuf.h:77-89 | a fixed-width read takes the front of the readable bytes and leaves the rest |
| ByteData.ReadBytesTakes | gwcpp/base/ByteBuf.cpp:342-346 | `readBytes` within the readable bytes takes the front and leaves the rest |
| ByteData.QueueRefinement | gwcpp/base/ByteBuf.h:77-140 | any interleaving of writes, reads within the readable bytes and `clear` returns what a first-in first-out queue returns, stale bytes or not |
| ByteData.MarkReset | gwcpp/base/ByteBuf.cpp:151-170 | mark, then reads and writes without `clear`, then reset gives back what was readable at the mark and all later writes |
| ByteData.SinceMark | gwcpp/base/ByteBuf.cpp:167-170 | at every point of such a run, resetting would give back the content at the mark and what was written since |
| ByteData.MarksStay | gwcpp/base/ByteBuf.cpp:151-181 | after any run without a new mark or an assignment, resetting an index goes back to the last mark |
| ByteData.SetIndexExact | gwcpp/base/ByteBuf.cpp:131-144 | `setIndex` takes over what points into the data, and the nearest end otherwise; an empty buffer stays as it is |
| ByteData.SettersExact | gwcpp/base/ByteBuf.cpp:161-177 | each index setter sets its own index if the code lets the argument through, and changes nothing else |
| ByteData.SkipIsRead | gwcpp/base/ByteBuf.cpp:369-375 | skipping forward moves the read index as reading as many bytes does |
| ByteData.AssignExact | gwcpp/base/ByteBuf.cpp:38-47 | assignment copies into an empty buffer; otherwise the other content stands behind the old one, and the indexes do not point at it |
| ByteData.SerializationRoundTrip | gwcpp/base/ByteBuf.cpp:319-335 | any list of tagged values written to an empty buffer is read back by the same tags, and the two indexes meet |
| ByteBuf.ByteBuf.ToBinary | gwcpp/base/ByteBuf.h:142-160 | the loop over the bytes yields the value's encoding |
| ByteBuf.ByteBuf.AddBytes | gwcpp/base/ByteBuf.h:57-61 | the loop that adds shifted bytes in the narrow type yields the two's-complement value of the bytes |
| ByteBuf.ByteBuf.GetT | gwcpp/base/ByteBuf.h:51-75 | at any index: the value there, 0 when too few bytes are left, or none where the source throws |
| ByteBuf.ByteBuf.ReadT | gwcpp/base/ByteBuf.h:77-102 | the same at the reader index, wherever that is; it advances by the width exactly when the bytes are there |
| ByteBuf.ByteBuf.ReadChar | gwcpp/base/ByteBuf.cpp:319-324 | one byte as a signed character; the reader index moves on even when the source throws |
| ByteBuf.ByteBuf.Read | gwcpp/base/ByteBuf.cpp:319-335 | the unsigned wrappers, which convert a signed read, read the unsigned value; in bounds it is the one written |
| ByteBuf.ByteBuf.WriteData | gwcpp/base/ByteBuf.h:132-140 | the new state after inserting at the writer index, or appending past the end |
| ByteBuf.ByteBuf.SetData | gwcpp/base/ByteBuf.h:114-120 | the new state after inserting at an index; the indexes do not move |
| ByteBuf.ByteBuf.Write | gwcpp/base/ByteBuf.cpp:446-485 | the typed writes |
| ByteBuf.ByteBuf.ReadBytes | gwcpp/base/ByteBuf.cpp:342-346 | a new buffer holding exactly the bytes taken, and the reader index past them |
| ByteBuf.ByteBuf.SetIndexes | gwcpp/base/ByteBuf.cpp:131-144 | `setIndex`, with its clamping and its empty case |
| ByteBuf.ByteBuf.Skip | gwcpp/base/ByteBuf.cpp:369-375 | `skipBytes`, with its clamping |
| ByteBuf.ByteBuf.Assign | gwcpp/base/ByteBuf.cpp:38-47 | assignment appends the other content to its own |
| ByteBuf.ByteBuf.ToHexString | gwcpp/base/ByteBuf.cpp:49-62 | the loop over signed characters yields the hex text of all bytes |
| ByteBuf.ByteBuf.FromHex | gwcpp/base/ByteBuf.cpp:528-538 | the loop over pairs yields the bytes of the text without its odd last character; empty text is the case it does not survive |
| HexCodec.BytesRoundTrip | gwcpp/base/ByteBuf.cpp:514-538 | any bytes, written in either case without fill, are read back |
| HexCodec.PairRoundTrip | gwcpp/base/ByteBuf.cpp:520-527 | a pair of characters survives, in lower case, if and only if both are hex digits |
| HexCodec.TextRoundTrip | gwcpp/base/ByteBuf.cpp:528-538 | even-length text comes back in lower case if and only if all of it is hex digits |
| HexCodec.PairNibbles | gwcpp/base/ByteBuf.cpp:528-538 | each hex digit of a pair is its half of the byte; a character that is none sets all bits from the low one of its half up |
| HexCodec.HexTextConcat | gwcpp/base/ByteBuf.cpp:49-62 | the hex text of bytes in a row is their texts in a row, fill included |
| HexCodec.HexTextOne | gwcpp/base/ByteBuf.cpp:49-62 | one byte is its high digit, its low digit and the fill |
| HexCodec.HexTextCase | gwcpp/base/ByteBuf.cpp:514-519 | the digits are all of the case asked for |
| Split.Split | gwcpp/base/Utils.cpp:63-77 | the loop ends; joining the pieces restores the source; no piece contains the separator |
| Split.PiecesJoin | gwcpp/base/Utils.cpp:67-75 | from any position, the pieces joined are the rest of the source |
| Split.PiecesSeparable | gwcpp/base/Utils.cpp:67-75 | each piece ends at the first separator, and the last lacks it |
| Split.SeparableSplits | gwcpp/base/Utils.cpp:67-75 | pieces with that property are what the splitter finds |
| Split.SplitJoin | gwcpp/base/Utils.cpp:63-77 | splitting a join gives the pieces back if and only if they have that property |
| Split.ReturnsIffSeparator | gwcpp/base/Utils.cpp:68-75 | the loop ends after finitely many rounds if and only if the separator is not empty |
| CommandLine.SplitCmdline | gwcpp/base/Utils.cpp:10-48 | the index scanner computes what the character automaton reads, and returns false exactly at an unclosed leading quote; what the automaton reads is fixed by the round trips below |
| CommandLine.ScanWord | gwcpp/base/Utils.cpp:29-43 | the inner loop finds the end of a word with its quoted parts |
| CommandLine.SplitBySpace | gwcpp/base/Utils.cpp:79-94 | the same automaton without quotes |
| CommandLine.SplittersAgree | gwcpp/base/Utils.cpp:10-94 | on text without quotes both splitters agree |
| CommandLine.ArgumentsRoundTrip | gwcpp/base/Utils.cpp:10-48 | any list of arguments, typed as bare words with quoted stretches or in quotes they lack, with any blanks and tabs around, parses back to that list |
| CommandLine.UnclosedFails | gwcpp/base/Utils.cpp:22-27 | an argument whose opening quote is not closed makes the parse fail, after the arguments before it |
| CommandLine.WordsRoundTrip | gwcpp/base/Utils.cpp:10-94 | words with any blanks and tabs in front of, between and behind them parse to exactly those words, with `SplitBySpace` even if they have quotes |
| CommandLine.QuotingRoundTrip | gwcpp/base/Utils.cpp:22-27 | arguments each quoted with a mark they lack, with any blanks and tabs around or none, parse back to the same list |
| CommandLine.OpenQuoteHangs | gwcpp/base/Utils.cpp:35-41 | with an unclosed quote inside a word, the scanner has not returned after any number of rounds |
| CommandLine.ReturnsFrom | gwcpp/base/Utils.cpp:17-46 | otherwise, from any round on the scanner's way, it returns after finitely many more |
| CommandLine.ReturnsIffClosed | gwcpp/base/Utils.cpp:10-48 | the scanner returns if and only if no quote inside a word is left open |
| NumberText.NatTextParses | gwcpp/base/Utils.h:57-61 | the digits in order parse to the number, with no superfluous zero |
| NumberText.CanonicalUnique | gwcpp/base/Utils.h:57-61 | every canonical numeral is the text of the number it parses to |
| NumberText.IntTextCorrect | gwcpp/base/Utils.h:53-69 | every value of 64 bits, signed or not, even the most negative: its text parses back, is canonical, and has at most 20 characters |
| NumberText.IntTextUnique | gwcpp/base/Utils.h:53-69 | it is the only canonical text with that value |
| NumberText.HexTextCorrect | gwcpp/base/Utils.cpp:50-61 | likewise in hexadecimal, with at most 16 digits |
| NumberText.ReverseRange | gwcpp/base/Utils.h:67-67 | the range is reversed in place, the rest of the array untouched |
| NumberText.DecimalDigit | gwcpp/base/Utils.cpp:6-7 | the table read from its middle maps a remainder of either sign to its digit |
| NumberText.PutDecimalDigits | gwcpp/base/Utils.h:57-61 | the do-while with truncating division leaves the digits backward, for negative values too |
| NumberText.Convert | gwcpp/base/Utils.h:53-69 | the array holds the text and a NUL, nothing else changes, and the length is returned |
| NumberText.ConvertHex | gwcpp/base/Utils.cpp:50-61 | the same for hexadecimal |
| LogStream.LoggedIsStored | gwcpp/base/LogStream.h:30-35 | the stored text is the accepted pieces, whole and in order, and one byte stays free |
| LogStream.OneStored | gwcpp/base/LogStream.h:30-35 | a string is stored if and only if it leaves one of 4000 bytes free, a formatted number if and only if 48 are free before it; else the text stays as it was |
| LogStream.AllStored | gwcpp/base/LogStream.cpp:7-111 | pieces that together leave 48 of 4000 bytes free are all stored |
| LogStream.CStringReads | gwcpp/base/LogStream.h:36-36 | data that is zero from a point on reads as a C string as the text before it, if and only if that has no NUL |
| LogStream.StreamBuffer.Append | gwcpp/base/LogStream.h:30-35 | a piece is stored whole or dropped whole, and all bytes after the text stay zero |
| LogStream.StreamBuffer.Bzero | gwcpp/base/LogStream.h:42-42 | all bytes become zero, the position stays |
| LogStream.LogStream.FormatInteger | gwcpp/base/LogStream.cpp:7-13 | an integer is stored whole, or dropped when fewer bytes are free than the largest numeral needs |
| LogStream.LogStream.PutPointer | gwcpp/base/LogStream.cpp:66-76 | likewise a pointer with its `0x` |
| LogStream.LogStream.PutDouble | gwcpp/base/LogStream.cpp:97-103 | likewise a rendered floating-point number |
| LogStream.KeptNul | gwcpp/base/LogStream.h:30-35 | the stored text has a NUL if and only if a piece that was stored has one |
| LogStream.LogStream.Log | gwcpp/base/LogStream.cpp:15-111 | after any sequence of `<<` on a fresh, zeroed stream the buffer holds what was accepted; read as a C string it is that text if and only if no piece that was stored has a NUL |
| LogStream.LogLine | gwcpp/base/LogStream.cpp:15-111 | and that is a subsequence of the pieces, each whole, and never the full buffer |
| LogStream.LineComplete | gwcpp/base/LogStream.cpp:15-111 | a line whose texts together leave 48 of 4000 bytes free is logged entirely |
| LogStream.PlainPieces | gwcpp/base/LogStream.cpp:15-111 | a truth value prints as the number 1 or 0, a null C string as `(null)` |
| PollerModel.ApplyConsistent | gwcpp/event/Poller.cpp:65-131 | a call that meets the asserts keeps map, index, mask and kernel in agreement, and the kernel accepts what it is asked |
| PollerModel.ApplyShape | gwcpp/event/EpollFdEvent.h:45-80 | a call changes one event, in index and mask alone, and only its descriptor's records |
| PollerModel.AssertsExact | gwcpp/event/Poller.cpp:65-116 | in agreement, the asserts fail if and only if a new event's descriptor is taken or a removal is out of turn |
| PollerModel.RunConsistent | gwcpp/event/Poller.cpp:65-131 | the same over any run of calls, with no refused `epoll_ctl` |
| PollerModel.FreshRunConsistent | gwcpp/event/Poller.cpp:26-131 | from an empty poller, every `ADD`, `MOD` and `DEL` ever issued is legal |
| PollerModel.EmptyInterest | gwcpp/event/Poller.cpp:68-97 | an update leaves a descriptor watched for nothing if and only if the event was unwatched and its mask ends up empty |
| PollerModel.ReportsArrive | gwcpp/event/Poller.cpp:56-63 | each report arrives at its own event and changes nothing else |
| PollerModel.CallbacksExact | gwcpp/event/EpollFdEvent.cpp:56-76 | a dispatch makes each callback if and only if its flags are reported, once, in the order close, error, read, write |
| PollerModel.NewMaskExact | gwcpp/event/EpollFdEvent.h:45-80 | what each of the five calls does to every flag of the mask |
| PollerModel.OneShotFiresOnce | gwcpp/event/EpollFdEvent.cpp:43-76 | in any run the callbacks of a one-shot event fire in at most one dispatch, none once it is locked, however often it is enabled or reported |
| PollerModel.OneShotLocks | gwcpp/event/EpollFdEvent.cpp:43-76 | the dispatch that fires makes the calls of its callbacks and, for a one-shot event, then locks it and empties its mask |
| PollerModel.LockedIsSilent | gwcpp/event/EpollFdEvent.cpp:51-55 | leaving out all later dispatches of a locked event from any run gives the same poller |
| Events.EpollFdEvent.HandleEvent | gwcpp/event/EpollFdEvent.cpp:51-55 | the latch, the callbacks made and their order, and the final `disableAll` of a one-shot event |
| Events.EpollFdEvent.HandleLockEvent | gwcpp/event/EpollFdEvent.cpp:56-76 | the same for an event not yet locked |
| Events.EpollFdEvent.EnableWriting | gwcpp/event/EpollFdEvent.h:53-56 | the mask and the registration after the call; its four siblings likewise |
| Events.EpollFdEvent.Remove | gwcpp/event/EpollFdEvent.cpp:37-41 | the registration after the removal |
| Events.Poller.UpdateEvent | gwcpp/event/Poller.cpp:65-99 | the poller's whole new state |
| Events.Poller.RemoveEvent | gwcpp/event/Poller.cpp:101-116 | the poller's whole new state |
| Events.Poller.FillActiveEvents | gwcpp/event/Poller.cpp:56-63 | the reported events become active, in order, each with its report |
| Events.Poller.Poll | gwcpp/event/Poller.cpp:36-54 | the same for a poll, and the array of results is never left full |
| ConnectionModel.ConnectFlows | gwcpp/net/TcpConnection.cpp:77-89 | a connection that comes up is watched for reading and has nothing pending |
| ConnectionModel.NotStranded | gwcpp/net/TcpConnection.cpp:40-47 | pending bytes imply that the kernel watches for writability |
| ConnectionModel.TrafficStepFlows | gwcpp/net/TcpConnection.cpp:91-111 | a send adds its message to what is pending; a writable callback hands over all of it |
| ConnectionModel.OutgoingStream | gwcpp/net/TcpConnection.cpp:40-111 | over any interleaving of sends and writable callbacks, the bytes handed to the socket and those pending are the messages, in order |
| ConnectionModel.SendStreams | gwcpp/net/TcpConnection.cpp:40-47 | the buffer holds the pending bytes of the loop's stream before a send, and so it does after |
| ConnectionModel.WriteStreams | gwcpp/net/TcpConnection.cpp:91-111 | likewise for a writable callback, which hands over all that is pending and so always drains the buffer |
| ConnectionModel.WriteDrains | gwcpp/net/TcpConnection.cpp:91-111 | a writable callback hands over all pending bytes if the connection is up and asked for it, drops them if it is not up, and otherwise leaves them |
| ConnectionModel.ConnectExact | gwcpp/net/TcpConnection.cpp:77-89 | `connectFinished` has the kernel watch for reading, and changes anything, only for a connection that is connecting |
| ConnectionModel.CloseUnwatches | gwcpp/net/TcpConnection.cpp:113-121 | the asserts of `handleClose` hold for a watched event if and only if the connection is up or going down; the kernel watches it no more |
| ConnectionModel.DisconnectUnregisters | gwcpp/net/TcpConnection.cpp:58-64 | exactly when the asserts of `disconnect` hold, and that it then leaves no record of the event, whatever the state |
| ConnectionModel.ReceiveSees | gwcpp/net/TcpConnection.cpp:123-139 | a receive callback sees exactly the bytes received, although earlier ones remain in the buffer |
| ConnectionModel.IncomingStream | gwcpp/net/TcpConnection.cpp:123-148 | over any run of receives, with sends from the callback, each callback sees its own chunk |
| TcpConnection.TcpConnection.Send | gwcpp/net/TcpConnection.cpp:40-47 | state, buffer and registration after a send |
| TcpConnection.TcpConnection.HandleWrite | gwcpp/net/TcpConnection.cpp:91-111 | the bytes handed over, and the state after; a connection that is not up drops its buffer |
| TcpConnection.TcpConnection.HandleRead | gwcpp/net/TcpConnection.cpp:123-139 | what the callback is handed, and the state after its sends and the `clear` |
| TcpConnection.TcpConnection.ConnectFinished | gwcpp/net/TcpConnection.cpp:77-89 | state and registration once connected, and what the connected callback then sends |
| TcpConnection.TcpConnection.HandleClose | gwcpp/net/TcpConnection.cpp:113-121 | state and registration once closed; what the close callback tries to send is dropped |
| TcpConnection.TcpConnection.Disconnect | gwcpp/net/TcpConnection.cpp:58-64 | state and registration after `disconnect`, from any state |
| ReactorInvariant.ActInv | gwcpp/event/Loop.cpp:51-57 | sending, keeping or dropping a pointer, or posting a task never breaks the loop's invariant |
| ReactorInvariant.CollectInv | gwcpp/net/TcpServer.cpp:53-60 | releasing a connection nothing refers to any more restores the invariant, and is a release in no other case |
| ReactorInvariant.HandleCloseInv | gwcpp/net/TcpConnection.cpp:113-121 | a connection that is up closes without fault, keeps the invariant, and has its `disconnect` queued |
| ReactorInvariant.SecondCloseFaults | gwcpp/net/TcpConnection.cpp:113-115 | closing a closed connection fails the assert on the state |
| ReactorInvariant.HandleReadInv | gwcpp/net/TcpConnection.cpp:123-148 | a read faults if and only if it finds the end of a stream already closed, and otherwise keeps the invariant |
| ReactorInvariant.SendInv | gwcpp/net/TcpConnection.cpp:40-47 | a send from user code meets the poller's asserts and keeps the invariant; if the connection is up the message is pending behind what was, and writability is asked for |
| ReactorInvariant.HandleWriteInv | gwcpp/net/TcpConnection.cpp:91-111 | a writable callback meets the asserts and keeps the invariant, even right after a close |
| ReactorInvariant.DispatchConnInv | gwcpp/event/EpollFdEvent.cpp:56-76 | the dispatch of a connection's event keeps the invariant unless it closes twice |
| ReactorInvariant.DispatchIsCallbacks | gwcpp/event/EpollFdEvent.cpp:56-76 | for every report, the loop's dispatch to a connection is the callbacks of the event, one by one, up to the first fault |
| ReactorInvariant.AcceptorIsCallback | gwcpp/net/Acceptor.cpp:79-91 | an acceptor accepts when its read callback is made, and in no other case |
| ReactorInvariant.NewConnectionInv | gwcpp/net/TcpServer.cpp:40-51 | a server without a connection accepts one without fault, whatever the descriptor was used for before |
| ReactorInvariant.RetireInv | gwcpp/net/TcpConnection.cpp:58-64 | the queued `disconnect` meets its asserts, unmaps the event, and only then may the connection be released |
| ReactorInvariant.RunFrontInv | gwcpp/event/Loop.cpp:59-66 | a task runs and is popped: it and only it, with what it posted behind |
| ReactorInvariant.PollInv | gwcpp/event/Poller.cpp:36-63 | whatever the kernel reports is alive and up, and within what the code asked for |
| ReactorInvariant.StepSafe | gwcpp/event/Loop.cpp:68-85 | every untroubled step of the loop is free of faults and keeps the invariant |
| LoopTrace.ActedFollows | gwcpp/net/TcpConnection.cpp:40-47 | after user code has acted, every connection that is up has accepted exactly what that sent on it, in order, and its tasks are queued behind |
| LoopTrace.HandleCloseFollows | gwcpp/net/TcpConnection.cpp:113-121 | a close takes the connection down, queues its `disconnect`, and then runs the close callback, all of it |
| LoopTrace.NewConnectionFollows | gwcpp/net/TcpServer.cpp:40-51 | accepting brings up a connection that was not there before, and then runs the connect callback, all of it |
| LoopTrace.HandleReadFollows | gwcpp/net/TcpConnection.cpp:123-148 | a read runs the receive callback on data, closes at the end of the stream, and does nothing on an error |
| LoopTrace.StepFollows | gwcpp/event/Loop.cpp:68-85 | after every untroubled step, which connections are up, what each has accepted, what was queued and what user code keeps follow from what happened in it |
| LoopTrace.StepFlushes | gwcpp/net/TcpConnection.cpp:91-111 | a dispatch that reports writability leaves a connection that is up with all it accepted handed over, and no longer watched for writability |
| Teardown.StartedInv | gwcpp/net/TcpServer.cpp:16-22 | the invariant holds before the loop runs |
| Teardown.ClosedTornDown | gwcpp/net/TcpConnection.cpp:113-121 | a closed connection is out of the kernel's set and never active; it is mapped while its `disconnect` waits, and in no record once that has run, once |
| Teardown.InvStreams | gwcpp/net/TcpConnection.cpp:40-111 | what a connection accepted is handed over or pending, in order, and while it is up with bytes pending the kernel watches it for writability |
| Teardown.InvSafe | gwcpp/event/Loop.cpp:77-81 | no active event is ever a released one, a descriptor no live event uses is in no record, and all streams are kept so |
| Teardown.TeardownSafety | gwcpp/event/Loop.cpp:68-85 | every calm run from the start fails no assert, touches nothing released, and ends safe; every connection that is up has handed over or pending exactly the bytes that callbacks and tasks sent on it while it was up, in order, and every queued task has run or waits, in order |
| Teardown.RunFollows | gwcpp/event/Loop.cpp:68-85 | the same from any state with the invariant: the state after a calm run follows from what happened in it |
| Teardown.FollowsFromStart | gwcpp/event/Loop.cpp:68-85 | what that says of a run from the start |
| Teardown.TasksInOrder | gwcpp/event/Loop.cpp:51-66 | queued tasks run in order, one a turn |
| Teardown.DisconnectCompletes | gwcpp/event/Loop.cpp:59-66 | a queued `disconnect` has run once the loop has turned past it; the connection is then released unless user code keeps it |
| Teardown.CloseExact | gwcpp/event/EpollFdEvent.cpp:56-76 | a dispatch to a connection succeeds if and only if it does not close twice |
| Teardown.AcceptExact | gwcpp/net/TcpServer.cpp:40-51 | whatever the connect callback does, accepting ends well with the invariant kept if and only if the server has no connection |
| Teardown.AcceptBreaks | gwcpp/net/TcpServer.cpp:43-51 | accepting while the name is taken leaves the earlier connection mapped and without an owner or released, and no user code repairs that |
| Teardown.CallbackReached | gwcpp/net/TcpServer.cpp:43-51 | no assert fails before the connect callback runs |
| Teardown.TakenWhileHeld | gwcpp/net/TcpServer.cpp:43-51 | if user code keeps the earlier connection through the callback, that stays up, owned by no server |
| Teardown.TakenAndFreed | gwcpp/net/TcpServer.cpp:43-51 | if only the server kept it, it is released, and its descriptor no longer watched, while the poller still maps it, whatever the callback does |
| Teardown.ReuseFaults | gwcpp/event/Poller.cpp:74-78 | the next connection to get that descriptor fails the assert that it is not mapped |
| Teardown.StepExact | gwcpp/event/Loop.cpp:68-85 | any possible step, with any user code, keeps the invariant without fault if and only if it is untroubled |
| Scenarios.ReuseAfterTeardown | gwcpp/net/TcpServer.cpp:40-60 | a calm run from the start: accept, end of stream, teardown, and another connection on the same descriptor |
| Scenarios.ReuseRun | gwcpp/net/TcpServer.cpp:40-51 | a run from the start that accepts while the name is taken, then gets the released descriptor again and fails an assert |
| Scenarios.DoubleCloseRun | gwcpp/event/EpollFdEvent.cpp:56-76 | a run from the start in which one dispatch closes a connection twice and fails an assert |
| ServerLoop.Loop.StartServer | gwcpp/net/Acceptor.cpp:35-40 | the state once the acceptor is watched, on the first start only |
| ServerLoop.Loop.NewConnection | gwcpp/net/TcpServer.cpp:40-51 | the state after accepting, or the fault |
| ServerLoop.Loop.RemoveConnection | gwcpp/net/TcpServer.cpp:53-60 | the state after the server forgets a connection |
| ServerLoop.Loop.HandleClose | gwcpp/net/TcpConnection.cpp:113-121 | the state after a close with the server's callback |
| ServerLoop.Loop.HandleConnEvent | gwcpp/event/EpollFdEvent.cpp:56-76 | the state after the callbacks of one dispatch, up to the first fault |
| ServerLoop.Loop.HandleTaskFun | gwcpp/event/Loop.cpp:59-66 | the state after the front task has run and is popped |
| ServerLoop.Loop.RunTurn | gwcpp/event/Loop.cpp:73-81 | one turn of the loop is a run of the step machine |
| ServerLoop.Loop.RunLoop | gwcpp/event/Loop.cpp:68-85 | so is `runLoop`; if it is calm from a state with the invariant, it ends without fault and safe, in a state that follows from what happened |
| SafeQueue.SafeQueue.Dequeue | gwcpp/base/SafeQueue.h:46-56 | the front goes to the caller, or nothing changes and false is returned |
| SafeQueue.SafeQueue.Enqueue | gwcpp/base/SafeQueue.h:42-45 | the task goes to the back |
| ThreadPool.StepControl | gwcpp/event/ThreadPool.h:33-48 | every step keeps the mutex with one worker, and the queue non-empty for a worker that saw it so |
| ThreadPool.Conservation | gwcpp/event/ThreadPool.h:33-86 | in every interleaving the dequeued tasks and the queue are the tasks of the `submit` steps, in order; begun, held and queued tasks together are as many, and none begins more often than it was submitted |
| ThreadPool.RunEnqueues | gwcpp/event/ThreadPool.h:76-86 | every `submit` step puts its task at the back, and no other step puts one |
| ThreadPool.SeenTaskIsDequeued | gwcpp/event/ThreadPool.h:38-42 | a worker that saw a non-empty queue always succeeds in its dequeue |
| ThreadPool.MutualExclusion | gwcpp/event/ThreadPool.h:38-42 | no two workers are in the locked block |
| ThreadPool.WorkerRunsWhatItTook | gwcpp/event/ThreadPool.h:42-46 | each worker begins exactly the tasks it took, in order: a failed dequeue never runs the previous `func` again |
| ThreadPool.ArrivingServes | gwcpp/event/ThreadPool.h:33-48 | a worker that finds the pool running and a task queued begins the first one, and comes back to its test |
| ThreadPool.WokenServes | gwcpp/event/ThreadPool.h:38-46 | a woken worker begins the first task of the queue, or goes back to its test when there is none |
| ThreadPool.SleepsUntilWoken | gwcpp/event/ThreadPool.h:39-41 | one that finds the queue empty gives the mutex back and sleeps through any run that does not wake it |
| ThreadPool.StaysUntilShutdown | gwcpp/event/ThreadPool.h:36-36 | in any run a worker leaves its loop only after a `shutdown` step |
| ThreadPool.AtMostOneEach | gwcpp/event/ThreadPool.h:36-46 | after shutdown a worker begins at most one more task |
| ThreadPool.ShutdownBound | gwcpp/event/ThreadPool.h:65-74 | after shutdown at most as many tasks begin as there are workers past their test, so never more than workers |
| ThreadPool.ShutdownStops | gwcpp/event/ThreadPool.h:65-74 | after the `shutdown` step of any run of n workers at most n tasks begin, at most one in each worker |
| FdModel.ApplyHolders | gwcpp/event/Fd.cpp:10-69 | how each operation changes the number of handles on each detail |
| FdModel.MoveConstructs | gwcpp/base/MacroDef.h:179-179 | a move construction puts the new handle in the place of the other and closes nothing |
| FdModel.MoveAssigns | gwcpp/base/MacroDef.h:180-186 | so does a move assignment, after giving up what the handle held |
| FdModel.CopiesAndSwaps | gwcpp/event/Fd.cpp:39-58 | copy construction adds one holder, a swap exchanges two |
| FdModel.SurplusStep | gwcpp/event/Fd.cpp:46-54 | the count exceeds the handles by one more for each copy over a non-empty handle, and by nothing else |
| FdModel.StepSafe | gwcpp/event/Fd.cpp:10-69 | no operation leaves a handle on a deleted detail or a count below the handles |
| FdModel.StepExact | gwcpp/event/Fd.cpp:46-54 | counts stay exact if and only if the operation is not such a copy |
| FdModel.StepClosings | gwcpp/event/Fd.cpp:23-69 | a descriptor is closed at most once, and every detail that went had its descriptor closed |
| FdModel.ImplicitCloseIsLast | gwcpp/event/Fd.cpp:23-37 | a close that nobody asked for happens only with the last handle |
| FdModel.CloseOnce | gwcpp/event/Fd.cpp:60-69 | an explicit close of an open descriptor asks for one close and gives the close function up; again it does nothing |
| FdModel.ClosedThroughOwn | gwcpp/event/Fd.cpp:17-37 | over any run from nothing, a close goes through a custom function if and only if the descriptor was created with one |
| FdModel.RunSafe | gwcpp/event/Fd.cpp:10-69 | both over any run, leaking copies included |
| FdModel.RunExact | gwcpp/event/Fd.cpp:10-69 | counts are exact over any run without such copies |
| FdModel.AllReleased | gwcpp/event/Fd.cpp:23-37 | then, once all handles are gone, so are all details, and every descriptor was closed |
| FdModel.CopyAssignmentLeaks | gwcpp/event/Fd.cpp:46-54 | a concrete copy that leaves a descriptor open with no handle on it |
| Fds.Process.Destroy | gwcpp/event/Fd.cpp:23-37 | counts, closings and handles after the destructor |
| Fds.Process.CopyConstruct | gwcpp/event/Fd.cpp:39-44 | the same after copy construction |
| Fds.Process.CopyAssign | gwcpp/event/Fd.cpp:46-54 | the same after copy assignment, onto itself too |
| Fds.Process.MoveConstruct | gwcpp/base/MacroDef.h:179-179 | the same after move construction by swap |
| Fds.Process.MoveAssign | gwcpp/base/MacroDef.h:180-186 | the same after move assignment by reset and swap |
| Fds.Process.Reset | gwcpp/base/MacroDef.h:187-190 | the same after reset by swap with a temporary that is destroyed |
| Fds.Process.Close | gwcpp/event/Fd.cpp:60-69 | the same after an explicit close |

## Left out

- 64-bit reads (gwcpp/base/ByteBuf.h:59-60): they shift an `int` by 32 bits or more, which C++ leaves undefined. 64-bit writes share the code of the narrower ones.
- Float and double accessors of `ByteBuf`: their loop bounds move with the index they advance.
- `discardReadBytes`, which drops one byte too many, and `writeBytes`/`setBytes` of another `ByteBuf`, which stop at a NUL; so also `send(ByteBuf&)`.
- Searches, comparison and capacity of `ByteBuf`: reading loops without effect on the properties above.
- The indexes of `ByteBuf` are 32-bit. Neither `clear` nor reading shrinks its content, so the stream theorems hold up to 2^31 - 1 bytes written in a buffer's lifetime; operations past that bound are outside the model. The loop's streams are sequences, tied to the buffers within that bound by `ConnectionModel.SendStreams` and `ConnectionModel.WriteStreams`.
- ByteBuf.ByteBuf.ReadChar: requires that an index it increments stays below 2^31 - 1, because signed overflow is undefined; `Read` likewise for one byte.
- ByteBuf.ByteBuf.Skip: requires that the sum of index and length fits 32 bits, because signed overflow is undefined.
- CommandLine.SplitCmdline: requires that no quote inside a word is left open, because the call does not return otherwise; what happens then is `CommandLine.OpenQuoteHangs`.
- Split.Split: requires a non-empty separator, because the call does not return otherwise (`Split.ReturnsIffSeparator`).
- ByteBuf.ByteBuf.FromHex: empty text, for which the source's unsigned bound wraps and it reads past the end, has the result null.
- The text `snprintf` gives for a floating-point number, what `recv` returns, the descriptors `accept` gives and what epoll reports are parameters, any value the system may give; epoll reports what an event asks for, and errors and hang-ups.
- Partial socket writes: the source ignores how many bytes were sent, so the outgoing stream ends at `Socket::send`.
- ConnectionModel.IncomingStream: about successful receives; the end of a stream and errors are in `ReactorModel`.
- User code that calls `disconnect` itself, or deletes a server or the loop while it runs; user code in a callback otherwise sends, keeps or drops pointers, and posts tasks.
- ServerLoop.Loop: reaches the poller through `PollerModel.Apply`, which `Events` proves the poller's methods compute; connections are identified by number, and the release of one is a step of its own, so that a use after release can be expressed.
- Threads and the loop together: the loop's task queue is not guarded against other threads by the source, and the model has one thread there.
- Liveness of the pool: `submit` and `shutdown` notify without the mutex, so a wakeup can be lost and `shutdown` need not return.
- `Connector`, `TcpClient` and `Acceptor::stop`: several comparisons stand where assignments are meant, and the event is replaced inside its own callback.
- Reading and writing through `Fd`, sockets, addresses, timers, files, serial and ADC devices, log files: calls into the system.
- Nothing was executed.

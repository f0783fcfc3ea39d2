/** `TcpConnection` as an object over its event and its two buffers, proved against `ConnectionModel`. */
module TcpConnection {
  import opened IntCodec
  import opened ByteData
  import opened ByteBuf
  import opened PollerModel
  import opened Events
  import opened ConnectionModel

  class TcpConnection {
    var state: State
    const event: EpollFdEvent
    const readBuffer: ByteBuf
    const writeBuffer: ByteBuf

    constructor (event: EpollFdEvent)
      ensures this.event == event && state == Connecting
      ensures fresh(readBuffer) && fresh(writeBuffer) && readBuffer != writeBuffer
      ensures View() == Connection(Connecting, EMPTY, EMPTY)
    {
      this.event := event;
      state := Connecting;
      readBuffer := new ByteBuf();
      writeBuffer := new ByteBuf();
    }

    ghost function View(): Connection
      reads this, readBuffer, writeBuffer
    {
      Connection(state, readBuffer.View(), writeBuffer.View())
    }

    ghost function Kernel(): PollerModel.Poller<EpollFdEvent>
      reads event.poller, event.poller.registry
    {
      event.poller.View()
    }

    ghost predicate Valid()
      reads event, event.poller
    {
      event.Registered() && readBuffer != writeBuffer
    }

    /** The connected callback, made only when the connection was connecting, sends `messages`. */
    method ConnectFinished(messages: seq<seq<Byte>>)
      requires Valid() && |writeBuffer.originData| + ReplyBytes(messages) <= INT32_MAX
      requires ConnectAsserts(state, Kernel(), event) && (state == Connecting ==> Consistent(Kernel()))
      modifies this`state, event`index, event`events, writeBuffer
      modifies event.poller`fdEventMaps, event.poller`kernel, event.poller`refused
      ensures var (s, p) := ConnectControl(old(state), old(Kernel()), event);
              (View(), Kernel()) == if old(state) == Connecting then SendAll(old(View()).(state := s), p, event, messages)
                                    else (old(View()), old(Kernel()))
    {
      hide Consistent, SendAll, Asserts, Agrees;
      if state == Connecting {
        ReadingAdds(Kernel(), event);
        hide Apply;
        state := Connected;
        event.EnableReading();
        UserCallback(messages);
      }
    }

    method Send(message: seq<Byte>)
      requires Valid() && |writeBuffer.originData| + |message| <= INT32_MAX
      requires SendAsserts(state, Kernel(), event)
      modifies event`index, event`events, event.poller`fdEventMaps, event.poller`kernel, event.poller`refused, writeBuffer
      ensures (View(), Kernel()) == ConnectionModel.Send(old(View()), old(Kernel()), event, message)
    {
      hide Apply, ByteData.WriteData, Asserts;
      if state == Connected {
        var writing := event.IsWriting();
        if !writing {
          event.EnableWriting();
        }
        assert Kernel() == SendControl(state, old(Kernel()), event);
        WriteOut(message);
      }
    }

    /** The message goes to the buffer, which the poller does not look at. */
    method WriteOut(message: seq<Byte>)
      requires Valid() && |writeBuffer.originData| + |message| <= INT32_MAX
      modifies writeBuffer
      ensures Kernel() == old(Kernel()) && Valid()
      ensures View() == old(View()).(output := ByteData.WriteData(old(View()).output, message))
    {
      writeBuffer.WriteData(message);
    }

    /** `handed` is the buffer given to `Socket::send`, whose result the code does not look at. */
    method HandleWrite() returns (handed: seq<Byte>)
      requires Valid() && InBounds(writeBuffer.View())
      requires WriteAsserts(state, Kernel(), event, true)
      modifies event`index, event`events, event.poller`fdEventMaps, event.poller`kernel, event.poller`refused, writeBuffer
      ensures (handed, View(), Kernel()) == ConnectionModel.HandleWrite(old(View()), old(Kernel()), event)
    {
      hide Apply, ByteData.ReadBytes, Asserts;
      handed := [];
      if state == Connected {
        var writing := event.IsWriting();
        if writing {
          handed := TakePending();
          var readable := writeBuffer.ReadableBytes();
          if readable == 0 {
            event.DisableWriting();
          }
        }
      } else {
        writeBuffer.ClearIndexes();
      }
    }

    /** All readable bytes of the outgoing buffer, which the poller does not look at. */
    method TakePending() returns (handed: seq<Byte>)
      requires Valid() && InBounds(writeBuffer.View())
      modifies writeBuffer
      ensures Kernel() == old(Kernel()) && Valid()
      ensures var d := old(writeBuffer.View());
              var (f, output) := ByteData.ReadBytes(d, d.writer - d.reader);
              f == Got(handed) && View() == old(View()).(output := output)
    {
      var readable := writeBuffer.ReadableBytes();
      ReadBytesDelivers(writeBuffer.View(), readable);
      var buf := writeBuffer.ReadBytes(readable);
      handed := buf.originData;
    }

    /** The close callback tries to send `messages`, which a connection that is down drops. */
    method HandleClose(messages: seq<seq<Byte>>)
      requires Valid() && CloseAsserts(state, Kernel(), event)
      requires |writeBuffer.originData| + ReplyBytes(messages) <= INT32_MAX
      modifies this`state, event`index, event`events, writeBuffer
      modifies event.poller`fdEventMaps, event.poller`kernel, event.poller`refused
      ensures (state, Kernel()) == CloseControl(old(Kernel()), event)
      ensures View() == old(View()).(state := Disconnected)
    {
      hide Apply, SendAll, Asserts;
      state := Disconnected;
      event.DisableAll();
      DownDropsAll(View(), Kernel(), event, messages);
      UserCallback(messages);
    }

    method Disconnect()
      requires Valid() && DisconnectAsserts(state, Kernel(), event)
      modifies this`state, event`index, event`events, event.poller`fdEventMaps, event.poller`kernel, event.poller`refused
      ensures (state, Kernel()) == DisconnectControl(old(state), old(Kernel()), event)
    {
      if state == Connected {
        state := Connecting;
        event.DisableAll();
      }
      event.Remove();
    }

    /** A successful `recv` of `chunk`: the callback is handed `seen`, and sends `replies`; then the buffer is cleared. */
    method HandleRead(chunk: seq<Byte>, replies: seq<seq<Byte>>) returns (seen: seq<Byte>)
      requires Valid() && Idle(View()) && |readBuffer.originData| + |chunk| <= INT32_MAX
      requires |writeBuffer.originData| + ReplyBytes(replies) <= INT32_MAX
      requires state == Connected ==> Consistent(Kernel()) && event.index == Added
      modifies event`index, event`events, event.poller`fdEventMaps, event.poller`kernel, event.poller`refused
      modifies writeBuffer, readBuffer
      ensures seen == chunk
      ensures var received := Receive(old(View()), chunk);
              var (replied, p') := SendAll(received, old(Kernel()), event, replies);
              View() == AfterReceive(replied) && Kernel() == p' && Idle(View())
    {
      hide Apply, ByteData.WriteData, Consistent, SendAll, Asserts;
      ReceiveSees(View(), chunk);
      seen := ReadIn(chunk);
      UserCallback(replies);
      ClearInput();
    }

    /** The chunk goes to the incoming buffer; `seen` is what its pointer and length delimit. */
    method ReadIn(chunk: seq<Byte>) returns (seen: seq<Byte>)
      requires Valid() && Idle(View()) && |readBuffer.originData| + |chunk| <= INT32_MAX
      modifies readBuffer
      ensures Kernel() == old(Kernel()) && Valid() && event.index == old(event.index)
      ensures View() == Receive(old(View()), chunk) && seen == chunk
    {
      ReceiveSees(View(), chunk);
      readBuffer.WriteData(chunk);
      var readable := readBuffer.ReadableBytes();
      seen := readBuffer.originData[..readable];
    }

    method ClearInput()
      requires Valid()
      modifies readBuffer
      ensures Kernel() == old(Kernel()) && View() == AfterReceive(old(View()))
    {
      readBuffer.ClearIndexes();
    }

    method UserCallback(replies: seq<seq<Byte>>)
      requires Valid() && |writeBuffer.originData| + ReplyBytes(replies) <= INT32_MAX
      requires state == Connected ==> Consistent(Kernel()) && event.index == Added
      modifies event`index, event`events, event.poller`fdEventMaps, event.poller`kernel, event.poller`refused, writeBuffer
      ensures (View(), Kernel()) == SendAll(old(View()), old(Kernel()), event, replies)
      decreases |replies|
    {
      if replies != [] {
        SendKeeps(View(), Kernel(), event, replies[0]);
        hide Apply, Asserts, Consistent, ByteData.WriteData;
        Send(replies[0]);
        UserCallback(replies[1..]);
      }
    }
  }

  /** Sending meets the poller's asserts, and keeps the event added. */
  lemma SendKeeps<E>(c: Connection, p: PollerModel.Poller<E>, e: E, message: seq<Byte>)
    requires e in p.events && |c.output.origin| + |message| <= INT32_MAX
    requires c.state == Connected ==> Consistent(p) && p.events[e].index == Added
    ensures SendAsserts(c.state, p, e)
    ensures var (c', q) := ConnectionModel.Send(c, p, e, message);
            && |c'.output.origin| <= |c.output.origin| + |message| && c'.state == c.state && e in q.events
            && (c.state == Connected ==> Consistent(q) && q.events[e].index == Added)
  {
    if c.state == Connected {
      assert Agrees(p, e);
      assert Out in NewMask(EnableWriting(e), MaskOf(p, e));
      StaysAdded(p, EnableWriting(e));
    }
    hide Apply;
  }

  /** Once reading is enabled the event is added, and the records still agree. */
  lemma ReadingAdds<E>(p: PollerModel.Poller<E>, e: E)
    requires Consistent(p) && e in p.events && Asserts(p, EnableReading(e))
    ensures var q := Apply(p, EnableReading(e)); Consistent(q) && e in q.events && q.events[e].index == Added
  {
    ApplyConsistent(p, EnableReading(e));
    assert In in NewMask(EnableReading(e), p.events[e].events);
  }
}

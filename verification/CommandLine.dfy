/**
 `Utils::SplitCmdline` and `Utils::SplitBySpace`: index scanners over the command, specified by an automaton
 that reads it character by character.
 */
module CommandLine {
  import opened Prelude
  import opened Text

  const BLANKS: set<char> := {' ', '\t'}
  const QUOTES: set<char> := {'\'', '\"'}

  // ----- the automaton

  /** Between arguments, in an argument that began with a quote, in a word, in quotes inside a word. */
  datatype Mode = Between | Quoted(quote: char, arg: string) | Word(arg: string) | WordQuoted(quote: char, arg: string)

  /** `Hung`: quotes opened inside a word are never closed. */
  datatype Outcome = Parsed(args: seq<string>) | Unclosed(args: seq<string>) | Hung

  function NextMode(mode: Mode, c: char, quotes: set<char>): Mode {
    match mode
    case Between => if c in BLANKS then Between else if c in quotes then Quoted(c, "") else Word([c])
    case Quoted(q, arg) => if c == q then Between else Quoted(q, arg + [c])
    case Word(arg) => if c in BLANKS then Between else if c in quotes then WordQuoted(c, arg + [c]) else Word(arg + [c])
    case WordQuoted(q, arg) => if c == q then Word(arg + [c]) else WordQuoted(q, arg + [c])
  }

  function Emitted(mode: Mode, c: char): seq<string> {
    if (mode.Quoted? && c == mode.quote) || (mode.Word? && c in BLANKS) then [mode.arg] else []
  }

  function Read(cmd: string, quotes: set<char>, i: nat, mode: Mode, args: seq<string>): Outcome
    requires i <= |cmd|
    decreases |cmd| - i
  {
    if i < |cmd| then Read(cmd, quotes, i + 1, NextMode(mode, cmd[i], quotes), args + Emitted(mode, cmd[i]))
    else match mode
      case Between => Parsed(args)
      case Quoted(_, _) => Unclosed(args)
      case Word(arg) => Parsed(args + [arg])
      case WordQuoted(_, _) => Hung
  }

  /** What the command means. */
  function Meaning(cmd: string, quotes: set<char>): Outcome {
    Read(cmd, quotes, 0, Between, [])
  }

  // ----- what one search of the scanner skips

  lemma {:induction false} SkipBlanks(cmd: string, quotes: set<char>, i: nat, args: seq<string>)
    requires i <= |cmd|
    ensures var p := FindFirstNotOf(cmd, BLANKS, i);
            Read(cmd, quotes, i, Between, args) ==
            if p.At? then Read(cmd, quotes, p.index, Between, args) else Parsed(args)
    decreases |cmd| - i
  {
    if i < |cmd| && cmd[i] in BLANKS {
      assert args + Emitted(Between, cmd[i]) == args;
      SkipBlanks(cmd, quotes, i + 1, args);
    }
  }

  lemma {:induction false} SkipQuoted(cmd: string, quotes: set<char>, start: nat, i: nat, q: char, args: seq<string>)
    requires start <= i <= |cmd|
    ensures var p := FindFirstOf(cmd, {q}, i);
            Read(cmd, quotes, i, Quoted(q, cmd[start..i]), args) ==
            if p.At? then Read(cmd, quotes, p.index + 1, Between, args + [cmd[start..p.index]]) else Unclosed(args)
    decreases |cmd| - i
  {
    if i < |cmd| && cmd[i] != q {
      assert cmd[start..i] + [cmd[i]] == cmd[start..i + 1];
      assert args + Emitted(Quoted(q, cmd[start..i]), cmd[i]) == args;
      SkipQuoted(cmd, quotes, start, i + 1, q, args);
    }
  }

  lemma {:induction false} SkipWordQuoted(cmd: string, quotes: set<char>, start: nat, i: nat, q: char, args: seq<string>)
    requires start <= i <= |cmd|
    ensures var p := FindFirstOf(cmd, {q}, i);
            Read(cmd, quotes, i, WordQuoted(q, cmd[start..i]), args) ==
            if p.At? then Read(cmd, quotes, p.index + 1, Word(cmd[start..p.index + 1]), args) else Hung
    decreases |cmd| - i
  {
    if i < |cmd| {
      assert cmd[start..i] + [cmd[i]] == cmd[start..i + 1];
      assert args + Emitted(WordQuoted(q, cmd[start..i]), cmd[i]) == args;
      if cmd[i] != q { SkipWordQuoted(cmd, quotes, start, i + 1, q, args); }
    }
  }

  /** The quote comes first: before the next blank, or with no blank left. */
  predicate QuoteFirst(quote: Position, blank: Position) {
    quote.At? && (blank.Npos? || quote.index < blank.index)
  }

  lemma {:induction false} SkipWord(cmd: string, quotes: set<char>, start: nat, i: nat, args: seq<string>)
    requires start <= i <= |cmd|
    requires quotes !! BLANKS
    ensures var blank, quote := FindFirstOf(cmd, BLANKS, i), FindFirstOf(cmd, quotes, i);
            Read(cmd, quotes, i, Word(cmd[start..i]), args) ==
            if QuoteFirst(quote, blank) then
              Read(cmd, quotes, quote.index + 1, WordQuoted(cmd[quote.index], cmd[start..quote.index + 1]), args)
            else if blank.At? then Read(cmd, quotes, blank.index, Between, args + [cmd[start..blank.index]])
            else Parsed(args + [cmd[start..]])
    decreases |cmd| - i
  {
    if i < |cmd| {
      assert cmd[start..i] + [cmd[i]] == cmd[start..i + 1];
      if cmd[i] in BLANKS {
        var more := args + [cmd[start..i]];
        assert more + Emitted(Between, cmd[i]) == more;
      } else {
        assert args + Emitted(Word(cmd[start..i]), cmd[i]) == args;
        if cmd[i] !in quotes { SkipWord(cmd, quotes, start, i + 1, args); }
      }
    } else {
      assert cmd[start..i] == cmd[start..];
    }
  }

  /** The first character of a word. */
  lemma EnterWord(cmd: string, quotes: set<char>, i: nat, args: seq<string>)
    requires i < |cmd| && cmd[i] !in BLANKS && cmd[i] !in quotes
    ensures Read(cmd, quotes, i, Between, args) == Read(cmd, quotes, i + 1, Word(cmd[i..i + 1]), args)
    ensures FindFirstOf(cmd, BLANKS, i) == FindFirstOf(cmd, BLANKS, i + 1)
    ensures FindFirstOf(cmd, quotes, i) == FindFirstOf(cmd, quotes, i + 1)
  {
    assert args + Emitted(Between, cmd[i]) == args;
    assert [cmd[i]] == cmd[i..i + 1];
  }

  lemma EnterQuoted(cmd: string, quotes: set<char>, i: nat, args: seq<string>)
    requires i < |cmd| && cmd[i] !in BLANKS && cmd[i] in quotes
    ensures Read(cmd, quotes, i, Between, args) == Read(cmd, quotes, i + 1, Quoted(cmd[i], cmd[i + 1..i + 1]), args)
  {
    assert args + Emitted(Between, cmd[i]) == args;
    assert cmd[i + 1..i + 1] == "";
  }

  // ----- the scanner

  /** `pos + 1` in `size_t` arithmetic: one past `npos` is 0. */
  function After(p: Position): nat {
    if p.At? then p.index + 1 else 0
  }

  /** The inner loop of `SplitCmdline`: the end of the word at `start`, quoted stretches included. */
  method ScanWord(cmd: string, start: nat, ghost args: seq<string>) returns (endPos: Position)
    requires start < |cmd| && cmd[start] !in BLANKS && cmd[start] !in QUOTES
    requires !Read(cmd, QUOTES, start, Between, args).Hung?
    ensures endPos.At? ==> start < endPos.index < |cmd|
    ensures Read(cmd, QUOTES, start, Between, args) ==
            if endPos.At? then Read(cmd, QUOTES, endPos.index, Between, args + [cmd[start..endPos.index]])
            else Parsed(args + [cmd[start..]])
  {
    hide Read, FindFirstOf, FindFirstNotOf;
    endPos := FindFirstOf(cmd, BLANKS, start);
    var quotStart := FindFirstOf(cmd, QUOTES, start);
    EnterWord(cmd, QUOTES, start, args);
    ghost var at := start + 1;
    while QuoteFirst(quotStart, endPos)
      invariant start < at <= |cmd|
      invariant endPos == FindFirstOf(cmd, BLANKS, at) && quotStart == FindFirstOf(cmd, QUOTES, at)
      invariant Read(cmd, QUOTES, at, Word(cmd[start..at]), args) == Read(cmd, QUOTES, start, Between, args)
      decreases |cmd| - at
    {
      SkipWord(cmd, QUOTES, start, at, args);
      SkipWordQuoted(cmd, QUOTES, start, quotStart.index + 1, cmd[quotStart.index], args);
      var quotEnd := FindFirstOf(cmd, {cmd[quotStart.index]}, quotStart.index + 1);
      endPos := FindFirstOf(cmd, BLANKS, After(quotEnd));
      quotStart := FindFirstOf(cmd, QUOTES, After(quotEnd));
      at := After(quotEnd);
    }
    SkipWord(cmd, QUOTES, start, at, args);
  }

  /** `SplitCmdline` computes the automaton's meaning, and stops, for every command whose inner quotes are closed. */
  method SplitCmdline(cmd: string) returns (ok: bool, args: seq<string>)
    requires !Meaning(cmd, QUOTES).Hung?
    ensures Meaning(cmd, QUOTES) == if ok then Parsed(args) else Unclosed(args)
  {
    hide Read, FindFirstOf, FindFirstNotOf;
    args := [];
    var end := 0;
    while true
      invariant end <= |cmd| && Read(cmd, QUOTES, end, Between, args) == Meaning(cmd, QUOTES)
      decreases |cmd| - end
    {
      var startPos := FindFirstNotOf(cmd, BLANKS, end);
      SkipBlanks(cmd, QUOTES, end, args);
      if startPos.Npos? { break; }
      var start := startPos.index;
      var startChar := cmd[start];
      if startChar == '\'' || startChar == '\"' {
        EnterQuoted(cmd, QUOTES, start, args);
        SkipQuoted(cmd, QUOTES, start + 1, start + 1, startChar, args);
        var close := FindFirstOf(cmd, {startChar}, start + 1);
        if close.Npos? { return false, args; }
        args := args + [cmd[start + 1..close.index]];
        end := close.index + 1;
      } else {
        var endPos := ScanWord(cmd, start, args);
        args := args + [Substr(cmd, start, endPos)];
        if endPos.Npos? { break; }
        end := endPos.index;
      }
    }
    ok := true;
  }

  /** `SplitBySpace` does the same with no quote characters at all. */
  method SplitBySpace(s: string) returns (pieces: seq<string>, count: nat)
    ensures Meaning(s, {}) == Parsed(pieces) && count == |pieces|
  {
    pieces := [];
    var end := 0;
    while true
      invariant end <= |s| && Read(s, {}, end, Between, pieces) == Meaning(s, {})
      decreases |s| - end
    {
      var start := FindFirstNotOf(s, BLANKS, end);
      SkipBlanks(s, {}, end, pieces);
      if start.Npos? { break; }
      var endPos := FindFirstOf(s, BLANKS, start.index);
      EnterWord(s, {}, start.index, pieces);
      SkipWord(s, {}, start.index, start.index + 1, pieces);
      pieces := pieces + [Substr(s, start.index, endPos)];
      if endPos.Npos? { break; }
      end := endPos.index;
    }
    count := |pieces|;
  }

  /** On a text without quote characters the two splitters agree. */
  lemma {:induction false} SplittersAgree(cmd: string, i: nat, mode: Mode, args: seq<string>)
    requires i <= |cmd| && (forall k | 0 <= k < |cmd| :: cmd[k] !in QUOTES) && (mode.Between? || mode.Word?)
    ensures Read(cmd, QUOTES, i, mode, args) == Read(cmd, {}, i, mode, args)
    ensures !Read(cmd, QUOTES, i, mode, args).Hung?
    decreases |cmd| - i
  {
    if i < |cmd| {
      SplittersAgree(cmd, i + 1, NextMode(mode, cmd[i], QUOTES), args + Emitted(mode, cmd[i]));
    }
  }

  // ----- typing arguments

  predicate IsSpace(c: char) {
    c == ' ' || c == '\t'
  }

  predicate IsMark(c: char) {
    c == '\'' || c == '\"'
  }

  predicate IsGap(gap: string) {
    forall k | 0 <= k < |gap| :: IsSpace(gap[k])
  }

  /** A stretch of a word: one plain character, or text in quotes, which keeps its blanks and its quotes. */
  datatype Segment = Plain(c: char) | Enclosed(mark: char, text: string)

  /** How an argument is typed: as a bare word, or in marks that are not part of it. */
  datatype Argument = Bare(word: seq<Segment>) | Marked(mark: char, text: string)

  function SegmentText(s: Segment): string {
    match s
    case Plain(c) => [c]
    case Enclosed(mark, text) => [mark] + text + [mark]
  }

  function WordText(word: seq<Segment>): string {
    if word == [] then "" else SegmentText(word[0]) + WordText(word[1..])
  }

  function Typed(a: Argument): string {
    match a
    case Bare(word) => WordText(word)
    case Marked(mark, text) => [mark] + text + [mark]
  }

  function Value(a: Argument): string {
    match a
    case Bare(word) => WordText(word)
    case Marked(_, text) => text
  }

  function AllTyped(args: seq<Argument>): (texts: seq<string>)
    ensures |texts| == |args|
  {
    if args == [] then [] else [Typed(args[0])] + AllTyped(args[1..])
  }

  function AllValues(args: seq<Argument>): seq<string> {
    if args == [] then [] else [Value(args[0])] + AllValues(args[1..])
  }

  /** Texts with a gap in front of, between and behind them. */
  function Spread(gaps: seq<string>, texts: seq<string>): string
    requires |gaps| == |texts| + 1
  {
    if texts == [] then gaps[0] else gaps[0] + (texts[0] + Spread(gaps[1..], texts[1..]))
  }

  /** What a segment may be, with quotes or without. */
  predicate SegmentOk(s: Segment, quoting: bool) {
    match s
    case Plain(c) => !IsSpace(c) && (quoting ==> !IsMark(c))
    case Enclosed(mark, text) => quoting && IsMark(mark) && mark !in text
  }

  predicate WordOk(word: seq<Segment>, quoting: bool) {
    forall k | 0 <= k < |word| :: SegmentOk(word[k], quoting)
  }

  predicate ArgumentOk(a: Argument, quoting: bool) {
    match a
    case Bare(word) => word != [] && word[0].Plain? && WordOk(word, quoting)
    case Marked(mark, text) => quoting && IsMark(mark) && mark !in text
  }

  /** Only bare words need a gap behind them, and the last one only if something follows. */
  predicate Typable(gaps: seq<string>, args: seq<Argument>, quoting: bool, more: bool) {
    && |gaps| == |args| + 1 && (forall k | 0 <= k < |gaps| :: IsGap(gaps[k]))
    && (forall k | 0 <= k < |args| :: ArgumentOk(args[k], quoting))
    && (forall k | 0 <= k < |args| && args[k].Bare? && (k + 1 < |args| || more) :: gaps[k + 1] != "")
  }

  function Marks(quoting: bool): set<char> {
    if quoting then QUOTES else {}
  }

  // ----- reading what was typed

  /** `s` stands at position `i`. */
  predicate Stands(cmd: string, i: nat, s: string) {
    i + |s| <= |cmd| && forall k | 0 <= k < |s| :: cmd[i + k] == s[k]
  }

  lemma StandsSplit(cmd: string, i: nat, a: string, b: string)
    requires Stands(cmd, i, a + b)
    ensures Stands(cmd, i, a) && Stands(cmd, i + |a|, b)
  {
    assert forall k | 0 <= k < |a| :: (a + b)[k] == a[k];
    forall k | 0 <= k < |b| ensures cmd[i + |a| + k] == b[k] { assert (a + b)[|a| + k] == b[k]; }
  }

  lemma StandsFirst(cmd: string, i: nat, s: string)
    requires Stands(cmd, i, s) && s != ""
    ensures i < |cmd| && cmd[i] == s[0] && Stands(cmd, i + 1, s[1..])
  {
    assert s == [s[0]] + s[1..];
    StandsSplit(cmd, i, [s[0]], s[1..]);
  }

  lemma {:induction false} ReadGap(cmd: string, quotes: set<char>, i: nat, gap: string, args: seq<string>)
    requires Stands(cmd, i, gap) && IsGap(gap)
    ensures Read(cmd, quotes, i, Between, args) == Read(cmd, quotes, i + |gap|, Between, args)
    decreases |gap|
  {
    if gap != "" {
      StandsFirst(cmd, i, gap);
      assert IsSpace(gap[0]) && args + Emitted(Between, cmd[i]) == args;
      ReadGap(cmd, quotes, i + 1, gap[1..], args);
    }
  }

  /** Inside quotes in a word, everything but the mark is kept. */
  lemma {:induction false} ReadEnclosed(cmd: string, i: nat, text: string, q: char, arg: string, args: seq<string>)
    requires Stands(cmd, i, text) && q !in text
    ensures Read(cmd, QUOTES, i, WordQuoted(q, arg), args)
            == Read(cmd, QUOTES, i + |text|, WordQuoted(q, arg + text), args)
    decreases |text|
  {
    if text == "" {
      assert arg + text == arg;
    } else {
      StandsFirst(cmd, i, text);
      assert args + Emitted(WordQuoted(q, arg), cmd[i]) == args;
      ReadEnclosed(cmd, i + 1, text[1..], q, arg + [cmd[i]], args);
      assert (arg + [cmd[i]]) + text[1..] == arg + text;
    }
  }

  lemma ReadSegment(cmd: string, i: nat, s: Segment, quoting: bool, arg: string, args: seq<string>)
    requires Stands(cmd, i, SegmentText(s)) && SegmentOk(s, quoting)
    ensures Read(cmd, Marks(quoting), i, Word(arg), args)
            == Read(cmd, Marks(quoting), i + |SegmentText(s)|, Word(arg + SegmentText(s)), args)
  {
    hide Stands;
    StandsFirst(cmd, i, SegmentText(s));
    assert args + Emitted(Word(arg), cmd[i]) == args;
    match s
    case Plain(c) =>
    case Enclosed(mark, text) =>
      assert [mark] + text + [mark] == [mark] + (text + [mark]);
      StandsSplit(cmd, i, [mark], text + [mark]);
      StandsSplit(cmd, i + 1, text, [mark]);
      ReadEnclosed(cmd, i + 1, text, mark, arg + [mark], args);
      StandsFirst(cmd, i + 1 + |text|, [mark]);
      var inside := WordQuoted(mark, arg + [mark] + text);
      assert args + Emitted(inside, mark) == args;
      assert arg + [mark] + text + [mark] == arg + SegmentText(s);
  }

  /** A word is its first segment and the rest. */
  lemma WordParts(cmd: string, i: nat, word: seq<Segment>, quoting: bool)
    requires word != [] && Stands(cmd, i, WordText(word)) && WordOk(word, quoting)
    ensures var first, rest := SegmentText(word[0]), WordText(word[1..]);
            && WordText(word) == first + rest && Stands(cmd, i, first) && Stands(cmd, i + |first|, rest)
            && SegmentOk(word[0], quoting) && WordOk(word[1..], quoting)
  {
    hide Stands;
    StandsSplit(cmd, i, SegmentText(word[0]), WordText(word[1..]));
  }

  lemma NoSegments(arg: string)
    ensures WordText([]) == "" && arg + WordText([]) == arg
  {}

  lemma {:induction false} ReadWord(cmd: string, i: nat, word: seq<Segment>, quoting: bool, arg: string, args: seq<string>)
    requires Stands(cmd, i, WordText(word)) && WordOk(word, quoting)
    ensures Read(cmd, Marks(quoting), i, Word(arg), args)
            == Read(cmd, Marks(quoting), i + |WordText(word)|, Word(arg + WordText(word)), args)
    decreases |word|
  {
    hide *;
    if word == [] {
      NoSegments(arg);
    } else {
      var first, rest := SegmentText(word[0]), WordText(word[1..]);
      WordParts(cmd, i, word, quoting);
      ReadSegment(cmd, i, word[0], quoting, arg, args);
      ReadWord(cmd, i + |first|, word[1..], quoting, arg + first, args);
      ConcatAssociative(arg, first, rest);
      assert i + |first| + |rest| == i + |WordText(word)|;
    }
  }

  /** A bare word is read up to its end. */
  lemma ReadBare(cmd: string, i: nat, word: seq<Segment>, quoting: bool, args: seq<string>)
    requires Stands(cmd, i, WordText(word)) && ArgumentOk(Bare(word), quoting)
    ensures Read(cmd, Marks(quoting), i, Between, args)
            == Read(cmd, Marks(quoting), i + |WordText(word)|, Word(WordText(word)), args)
  {
    hide Stands;
    assert SegmentOk(word[0], quoting);
    var first, rest := SegmentText(word[0]), WordText(word[1..]);
    StandsSplit(cmd, i, first, rest);
    StandsFirst(cmd, i, first);
    assert args + Emitted(Between, cmd[i]) == args;
    ReadWord(cmd, i + 1, word[1..], quoting, first, args);
  }

  /** The mark that opens an argument and the one that closes it are not part of it. */
  lemma {:induction false} ReadMarked(cmd: string, i: nat, text: string, q: char, arg: string, args: seq<string>)
    requires Stands(cmd, i, text + [q]) && q !in text
    ensures Read(cmd, QUOTES, i, Quoted(q, arg), args)
            == Read(cmd, QUOTES, i + |text| + 1, Between, args + [arg + text])
    decreases |text|
  {
    StandsFirst(cmd, i, text + [q]);
    if text == "" {
      assert arg + text == arg;
    } else {
      assert (text + [q])[1..] == text[1..] + [q];
      assert args + Emitted(Quoted(q, arg), cmd[i]) == args;
      ReadMarked(cmd, i + 1, text[1..], q, arg + [cmd[i]], args);
      assert (arg + [cmd[i]]) + text[1..] == arg + text;
    }
  }

  lemma EndWord(cmd: string, j: nat, quoting: bool, word: string, args: seq<string>)
    requires j <= |cmd| && (j < |cmd| ==> IsSpace(cmd[j]))
    ensures Read(cmd, Marks(quoting), j, Word(word), args) ==
            if j == |cmd| then Parsed(args + [word]) else Read(cmd, Marks(quoting), j, Between, args + [word])
  {
    if j < |cmd| { assert (args + [word]) + Emitted(Between, cmd[j]) == args + Emitted(Word(word), cmd[j]); }
  }

  lemma ReadInMarks(cmd: string, i: nat, mark: char, text: string, args: seq<string>)
    requires Stands(cmd, i, [mark] + text + [mark]) && IsMark(mark) && mark !in text
    ensures Read(cmd, QUOTES, i, Between, args) == Read(cmd, QUOTES, i + |text| + 2, Between, args + [text])
  {
    hide Stands;
    assert [mark] + text + [mark] == [mark] + (text + [mark]);
    StandsSplit(cmd, i, [mark], text + [mark]);
    StandsFirst(cmd, i, [mark]);
    assert args + Emitted(Between, mark) == args;
    ReadMarked(cmd, i + 1, text, mark, "", args);
    assert "" + text == text;
  }

  /** A bare word ends at a blank or with the text; a marked argument ends at its mark. */
  lemma ReadArgument(cmd: string, i: nat, a: Argument, quoting: bool, args: seq<string>)
    requires Stands(cmd, i, Typed(a)) && ArgumentOk(a, quoting)
    requires var j := i + |Typed(a)|; a.Bare? ==> j == |cmd| || IsSpace(cmd[j])
    ensures var j := i + |Typed(a)|;
            Read(cmd, Marks(quoting), i, Between, args) ==
            if a.Bare? && j == |cmd| then Parsed(args + [Value(a)])
            else Read(cmd, Marks(quoting), j, Between, args + [Value(a)])
  {
    assert i + |Typed(a)| <= |cmd|;
    hide Stands, Read;
    match a
    case Bare(word) =>
      ReadBare(cmd, i, word, quoting, args);
      EndWord(cmd, i + |Typed(a)|, quoting, Value(a), args);
    case Marked(mark, text) =>
      ReadInMarks(cmd, i, mark, text, args);
  }

  /** The first argument is read, and the others stand behind it. */
  lemma FirstArgument(cmd: string, i: nat, gaps: seq<string>, args: seq<Argument>, quoting: bool, done: seq<string>)
    requires args != [] && |gaps| == |args| + 1 && Stands(cmd, i, Spread(gaps, AllTyped(args)))
    requires Typable(gaps, args, quoting, i + |Spread(gaps, AllTyped(args))| < |cmd|)
    ensures var rest := Spread(gaps[1..], AllTyped(args[1..]));
            var j := i + |gaps[0]| + |Typed(args[0])|;
            && j + |rest| == i + |Spread(gaps, AllTyped(args))| <= |cmd| && Stands(cmd, j, rest)
            && Typable(gaps[1..], args[1..], quoting, j + |rest| < |cmd|)
            && (rest == "" ==> AllValues(args[1..]) == [])
            && Read(cmd, Marks(quoting), i, Between, done) ==
               if args[0].Bare? && j == |cmd| then Parsed(done + [Value(args[0])])
               else Read(cmd, Marks(quoting), j, Between, done + [Value(args[0])])
  {
    hide Stands, Read;
    var a, texts := args[0], AllTyped(args);
    assert texts[0] == Typed(a) && texts[1..] == AllTyped(args[1..]);
    var rest := Spread(gaps[1..], texts[1..]);
    assert Spread(gaps, texts) == gaps[0] + (Typed(a) + rest);
    StandsSplit(cmd, i, gaps[0], Typed(a) + rest);
    var k := i + |gaps[0]|;
    StandsSplit(cmd, k, Typed(a), rest);
    var j := k + |Typed(a)|;
    TypableParts(gaps, args, quoting, j + |rest| < |cmd|);
    NoneLeft(gaps[1..], args[1..], quoting);
    if j < |cmd| && a.Bare? {
      if args[1..] == [] { assert rest == gaps[1]; }
      GapFollows(cmd, j, gaps[1..], args[1..], quoting);
    }
    hide *;
    ReadGap(cmd, Marks(quoting), i, gaps[0], done);
    ReadArgument(cmd, k, a, quoting, done);
  }

  /** From any position: the arguments typed there are read, up to what follows them. */
  lemma {:induction false} ArgumentsFrom(cmd: string, i: nat, gaps: seq<string>, args: seq<Argument>, quoting: bool,
                                         done: seq<string>)
    requires |gaps| == |args| + 1 && Stands(cmd, i, Spread(gaps, AllTyped(args)))
    requires Typable(gaps, args, quoting, i + |Spread(gaps, AllTyped(args))| < |cmd|)
    ensures var j := i + |Spread(gaps, AllTyped(args))|;
            && j <= |cmd|
            && Read(cmd, Marks(quoting), i, Between, done) ==
               if j == |cmd| then Parsed(done + AllValues(args))
               else Read(cmd, Marks(quoting), j, Between, done + AllValues(args))
    decreases |args|
  {
    if args == [] {
      NoArguments(cmd, i, gaps[0], quoting, done);
      return;
    }
    FirstArgument(cmd, i, gaps, args, quoting, done);
    var values := AllValues(args[1..]);
    assert AllValues(args) == [Value(args[0])] + values;
    hide *;
    ConcatAssociative(done, [Value(args[0])], values);
    var j := i + |gaps[0]| + |Typed(args[0])|;
    if args[0].Bare? && j == |cmd| {
      assert values == [];
    } else {
      ArgumentsFrom(cmd, j, gaps[1..], args[1..], quoting, done + [Value(args[0])]);
    }
  }

  lemma NoArguments(cmd: string, i: nat, gap: string, quoting: bool, done: seq<string>)
    requires Stands(cmd, i, gap) && IsGap(gap)
    ensures var j := i + |gap|;
            Read(cmd, Marks(quoting), i, Between, done) ==
            if j == |cmd| then Parsed(done + []) else Read(cmd, Marks(quoting), j, Between, done + [])
  {
    ReadGap(cmd, Marks(quoting), i, gap, done);
    assert done + [] == done;
  }

  lemma TypableParts(gaps: seq<string>, args: seq<Argument>, quoting: bool, more: bool)
    requires args != [] && Typable(gaps, args, quoting, more)
    ensures IsGap(gaps[0]) && IsGap(gaps[1]) && ArgumentOk(args[0], quoting)
    ensures Typable(gaps[1..], args[1..], quoting, more)
    ensures args[0].Bare? && (|args| > 1 || more) ==> gaps[1] != ""
  {
    forall k | 0 <= k < |args[1..]| && args[1..][k].Bare? && (k + 1 < |args[1..]| || more) ensures gaps[1..][k + 1] != "" {
      assert args[k + 1].Bare? && gaps[1..][k + 1] == gaps[k + 2];
    }
  }

  /** Nothing typed means no arguments. */
  lemma NoneLeft(gaps: seq<string>, args: seq<Argument>, quoting: bool)
    requires |gaps| == |args| + 1 && forall k | 0 <= k < |args| :: ArgumentOk(args[k], quoting)
    ensures Spread(gaps, AllTyped(args)) == "" ==> AllValues(args) == []
  {
    if args != [] {
      assert ArgumentOk(args[0], quoting);
      assert |Typed(args[0])| > 0;
    }
  }

  /** What follows a bare word begins with a blank. */
  lemma GapFollows(cmd: string, j: nat, gaps: seq<string>, args: seq<Argument>, quoting: bool)
    requires |gaps| == |args| + 1 && Stands(cmd, j, Spread(gaps, AllTyped(args))) && IsGap(gaps[0])
    requires j < |cmd| && gaps[0] != ""
    ensures IsSpace(cmd[j])
  {
    if args != [] { StandsSplit(cmd, j, gaps[0], AllTyped(args)[0] + Spread(gaps[1..], AllTyped(args)[1..])); }
    StandsFirst(cmd, j, gaps[0]);
  }

  /**
   Any arguments, typed bare or in marks, with blanks and tabs between them, are parsed back; quotes inside a bare word
   stay in it, with the blanks they enclose.
   */
  lemma ArgumentsRoundTrip(gaps: seq<string>, args: seq<Argument>)
    requires Typable(gaps, args, true, false)
    ensures Meaning(Spread(gaps, AllTyped(args)), QUOTES) == Parsed(AllValues(args))
  {
    var cmd := Spread(gaps, AllTyped(args));
    ArgumentsFrom(cmd, 0, gaps, args, true, []);
    assert [] + AllValues(args) == AllValues(args);
  }

  /** An argument whose opening mark is not closed makes the parse fail, after the arguments before it. */
  lemma UnclosedFails(gaps: seq<string>, args: seq<Argument>, mark: char, text: string)
    requires Typable(gaps, args, true, true) && IsMark(mark) && mark !in text
    ensures Meaning(Spread(gaps, AllTyped(args)) + ([mark] + text), QUOTES) == Unclosed(AllValues(args))
  {
    var typed, tail := Spread(gaps, AllTyped(args)), [mark] + text;
    var cmd := typed + tail;
    StandsSplit(cmd, 0, typed, tail);
    StandsSplit(cmd, |typed|, [mark], text);
    assert [] + AllValues(args) == AllValues(args);
    hide Typable, Spread, AllTyped, Read;
    ArgumentsFrom(cmd, 0, gaps, args, true, []);
    OpenMark(cmd, |typed|, mark, text, AllValues(args));
  }

  lemma OpenMark(cmd: string, i: nat, mark: char, text: string, args: seq<string>)
    requires Stands(cmd, i, [mark]) && Stands(cmd, i + 1, text) && i + 1 + |text| == |cmd| && IsMark(mark) && mark !in text
    ensures Read(cmd, QUOTES, i, Between, args) == Unclosed(args)
  {
    StandsFirst(cmd, i, [mark]);
    assert args + Emitted(Between, mark) == args;
    ReadUnclosed(cmd, i + 1, text, mark, "", args);
  }

  lemma {:induction false} ReadUnclosed(cmd: string, i: nat, text: string, q: char, arg: string, args: seq<string>)
    requires Stands(cmd, i, text) && i + |text| == |cmd| && q !in text
    ensures Read(cmd, QUOTES, i, Quoted(q, arg), args) == Unclosed(args)
    decreases |text|
  {
    if text != "" {
      StandsFirst(cmd, i, text);
      assert args + Emitted(Quoted(q, arg), cmd[i]) == args;
      ReadUnclosed(cmd, i + 1, text[1..], q, arg + [cmd[i]], args);
    }
  }

  // ----- words, and quoting each argument

  function PlainWord(word: string): seq<Segment> {
    if word == "" then [] else [Plain(word[0])] + PlainWord(word[1..])
  }

  function Words(words: seq<string>): seq<Argument> {
    if words == [] then [] else [Bare(PlainWord(words[0]))] + Words(words[1..])
  }

  lemma {:induction false} PlainWordText(word: string, quoting: bool)
    requires forall k | 0 <= k < |word| :: word[k] != ' ' && word[k] != '\t'
    requires quoting ==> forall k | 0 <= k < |word| :: word[k] != '\'' && word[k] != '\"'
    ensures WordText(PlainWord(word)) == word && |PlainWord(word)| == |word| && WordOk(PlainWord(word), quoting)
    ensures word != "" ==> PlainWord(word)[0].Plain?
  {
    if word != "" {
      PlainWordText(word[1..], quoting);
      assert PlainWord(word)[1..] == PlainWord(word[1..]) && SegmentText(Plain(word[0])) == [word[0]];
      forall k | 0 <= k < |PlainWord(word)| ensures SegmentOk(PlainWord(word)[k], quoting) {
        if k > 0 { assert PlainWord(word)[k] == PlainWord(word[1..])[k - 1]; }
      }
    }
  }

  lemma {:induction false} WordsTyped(words: seq<string>, quoting: bool)
    requires forall w | 0 <= w < |words| :: words[w] != "" && forall k | 0 <= k < |words[w]| ::
                 words[w][k] != ' ' && words[w][k] != '\t' && (quoting ==> words[w][k] != '\'' && words[w][k] != '\"')
    ensures AllTyped(Words(words)) == words == AllValues(Words(words)) && |Words(words)| == |words|
    ensures forall k | 0 <= k < |Words(words)| :: ArgumentOk(Words(words)[k], quoting)
  {
    if words != [] {
      PlainWordText(words[0], quoting);
      WordsTyped(words[1..], quoting);
      assert Words(words)[1..] == Words(words[1..]);
      forall k | 0 <= k < |Words(words)| ensures ArgumentOk(Words(words)[k], quoting) {
        if k > 0 { assert Words(words)[k] == Words(words[1..])[k - 1]; }
      }
    }
  }

  /**
   Words with blanks and tabs in front of, between and behind them are parsed to exactly those words: by `SplitCmdline` if
   they have no quotes, by `SplitBySpace` in any case.
   */
  lemma WordsRoundTrip(gaps: seq<string>, words: seq<string>, quoting: bool)
    requires |gaps| == |words| + 1
    requires forall g | 0 <= g < |gaps| :: forall k | 0 <= k < |gaps[g]| :: gaps[g][k] == ' ' || gaps[g][k] == '\t'
    requires forall g | 0 < g < |words| :: gaps[g] != ""
    requires forall w | 0 <= w < |words| :: words[w] != "" && forall k | 0 <= k < |words[w]| ::
                 words[w][k] != ' ' && words[w][k] != '\t' && (quoting ==> words[w][k] != '\'' && words[w][k] != '\"')
    ensures Meaning(Spread(gaps, words), if quoting then QUOTES else {}) == Parsed(words)
  {
    WordsTyped(words, quoting);
    var cmd := Spread(gaps, words);
    assert forall g | 0 <= g < |gaps| :: IsGap(gaps[g]);
    assert [] + words == words;
    assert Typable(gaps, Words(words), quoting, false);
    hide Spread, Typable, Read, Words;
    ArgumentsFrom(cmd, 0, gaps, Words(words), quoting, []);
  }

  /** Each argument in its quote character. */
  function Quotings(args: seq<string>, marks: string): seq<Argument>
    requires |args| == |marks|
  {
    seq(|args|, k requires 0 <= k < |args| => Marked(marks[k], args[k]))
  }

  lemma {:induction false} QuotingsValues(args: seq<string>, marks: string)
    requires |args| == |marks|
    ensures AllValues(Quotings(args, marks)) == args && |AllTyped(Quotings(args, marks))| == |args|
  {
    if args != [] {
      QuotingsValues(args[1..], marks[1..]);
      assert Quotings(args, marks)[1..] == Quotings(args[1..], marks[1..]);
    }
  }

  /** Quoting each argument with a quote character it lacks, with any blanks around, parses back to the arguments. */
  lemma QuotingRoundTrip(gaps: seq<string>, args: seq<string>, marks: string)
    requires |args| == |marks| && |gaps| == |args| + 1
    requires forall g | 0 <= g < |gaps| :: forall k | 0 <= k < |gaps[g]| :: gaps[g][k] == ' ' || gaps[g][k] == '\t'
    requires forall k | 0 <= k < |args| :: (marks[k] == '\'' || marks[k] == '\"') && marks[k] !in args[k]
    ensures |AllTyped(Quotings(args, marks))| == |args|
    ensures Meaning(Spread(gaps, AllTyped(Quotings(args, marks))), QUOTES) == Parsed(args)
  {
    QuotingsValues(args, marks);
    assert forall g | 0 <= g < |gaps| :: IsGap(gaps[g]);
    ArgumentsRoundTrip(gaps, Quotings(args, marks));
  }

  // ----- quotes left open inside a word

  /** The scanner's state at a test of its outer or inner loop, or after its return. */
  datatype Scan = Outer(end: nat, args: seq<string>)
                | Inner(start: nat, blank: Position, quote: Position, args: seq<string>)
                | Returned(ok: bool, args: seq<string>)

  /** The positions a state holds lie inside the command. */
  predicate InRange(cmd: string, s: Scan) {
    match s
    case Outer(_, _) => true
    case Inner(start, blank, quote, _) =>
      start <= |cmd| && (blank.At? ==> blank.index < |cmd|) && (quote.At? ==> quote.index < |cmd|)
    case Returned(_, _) => true
  }

  /** `substr(start, end - start)` in `size_t` arithmetic: an end before the start means everything that is left. */
  function WrappingSubstr(cmd: string, start: nat, end: Position): string
    requires start <= |cmd| && (end.At? ==> end.index < |cmd|)
  {
    if end.At? && start <= end.index then cmd[start..end.index] else cmd[start..]
  }

  /** One round of a loop of `SplitCmdline`. */
  function Round(cmd: string, s: Scan): (s': Scan)
    requires InRange(cmd, s)
    ensures InRange(cmd, s')
  {
    match s
    case Returned(_, _) => s
    case Outer(end, args) =>
      var p := FindFirstNotOf(cmd, BLANKS, end);
      if p.Npos? then Returned(true, args)
      else if cmd[p.index] in QUOTES then
        var close := FindFirstOf(cmd, {cmd[p.index]}, p.index + 1);
        if close.Npos? then Returned(false, args) else Outer(close.index + 1, args + [cmd[p.index + 1..close.index]])
      else Inner(p.index, FindFirstOf(cmd, BLANKS, p.index), FindFirstOf(cmd, QUOTES, p.index), args)
    case Inner(start, blank, quote, args) =>
      if QuoteFirst(quote, blank) then
        var next := After(FindFirstOf(cmd, {cmd[quote.index]}, quote.index + 1));
        Inner(start, FindFirstOf(cmd, BLANKS, next), FindFirstOf(cmd, QUOTES, next), args)
      else
        var args' := args + [WrappingSubstr(cmd, start, blank)];
        if blank.Npos? then Returned(true, args') else Outer(blank.index, args')
  }

  function Rounds(cmd: string, n: nat): (s: Scan)
    ensures InRange(cmd, s)
  {
    if n == 0 then Outer(0, []) else Round(cmd, Rounds(cmd, n - 1))
  }

  /** Quoted text glued to a word instead of standing alone. */
  predicate GluedTo(m: Mode, m': Mode) {
    match m
    case Between => m'.Between? || m'.Word?
    case Quoted(q, _) => (m'.Quoted? || m'.WordQuoted?) && m'.quote == q
    case Word(_) => m'.Word?
    case WordQuoted(q, _) => m'.WordQuoted? && m'.quote == q
  }

  /** Whether quotes stay open depends neither on the arguments so far nor on where they are glued. */
  lemma {:induction false} HungGlued(cmd: string, i: nat, m: Mode, args: seq<string>, m': Mode, args': seq<string>)
    requires i <= |cmd| && GluedTo(m, m') && Read(cmd, QUOTES, i, m, args).Hung?
    ensures Read(cmd, QUOTES, i, m', args').Hung?
    decreases |cmd| - i
  {
    if i < |cmd| {
      HungGlued(cmd, i + 1, NextMode(m, cmd[i], QUOTES), args + Emitted(m, cmd[i]),
                NextMode(m', cmd[i], QUOTES), args' + Emitted(m', cmd[i]));
    }
  }

  /** Reading on from `at`, between arguments or inside a word, an open quote is met. */
  predicate Hangs(cmd: string, at: nat, inWord: bool) {
    at <= |cmd| && Read(cmd, QUOTES, at, if inWord then Word("") else Between, []).Hung?
  }

  /** The states from which the scanner still meets the open quote. */
  ghost predicate Trapped(cmd: string, s: Scan) {
    match s
    case Outer(end, _) => Hangs(cmd, end, false)
    case Inner(start, blank, quote, _) =>
      && start <= |cmd|
      && exists at: nat ::
           Hangs(cmd, at, true) && blank == FindFirstOf(cmd, BLANKS, at) && quote == FindFirstOf(cmd, QUOTES, at)
    case Returned(_, _) => false
  }

  lemma OuterTrapped(cmd: string, s: Scan)
    requires s.Outer? && Trapped(cmd, s)
    ensures Trapped(cmd, Round(cmd, s))
  {
    hide Read, FindFirstOf, FindFirstNotOf;
    var p := FindFirstNotOf(cmd, BLANKS, s.end);
    SkipBlanks(cmd, QUOTES, s.end, []);
    var q := cmd[p.index];
    if q in QUOTES {
      var close := FindFirstOf(cmd, {q}, p.index + 1);
      EnterQuoted(cmd, QUOTES, p.index, []);
      SkipQuoted(cmd, QUOTES, p.index + 1, p.index + 1, q, []);
      HungGlued(cmd, close.index + 1, Between, [] + [cmd[p.index + 1..close.index]], Between, []);
    } else {
      EnterWord(cmd, QUOTES, p.index, []);
      HungGlued(cmd, p.index + 1, Word(cmd[p.index..p.index + 1]), [], Word(""), []);
      assert Hangs(cmd, p.index + 1, true);
    }
  }

  lemma InnerTrapped(cmd: string, s: Scan)
    requires Hangs(cmd, 0, false) && s.Inner? && InRange(cmd, s) && Trapped(cmd, s)
    ensures Trapped(cmd, Round(cmd, s))
  {
    hide Read, FindFirstOf, FindFirstNotOf;
    var at: nat :|
      Hangs(cmd, at, true) && s.blank == FindFirstOf(cmd, BLANKS, at) && s.quote == FindFirstOf(cmd, QUOTES, at);
    assert cmd[at..at] == "";
    SkipWord(cmd, QUOTES, at, at, []);
    if QuoteFirst(s.quote, s.blank) {
      var q := cmd[s.quote.index];
      var close := FindFirstOf(cmd, {q}, s.quote.index + 1);
      SkipWordQuoted(cmd, QUOTES, at, s.quote.index + 1, q, []);
      if close.Npos? {
        HungGlued(cmd, 0, Between, [], Word(""), []);
      } else {
        HungGlued(cmd, close.index + 1, Word(cmd[at..close.index + 1]), [], Word(""), []);
      }
      assert Hangs(cmd, After(close), true);
    } else {
      HungGlued(cmd, s.blank.index, Between, [] + [cmd[at..s.blank.index]], Between, []);
    }
  }

  /** With a quote left open inside a word the scanner never returns. */
  lemma {:induction false} OpenQuoteHangs(cmd: string, n: nat)
    requires Meaning(cmd, QUOTES).Hung?
    ensures !Rounds(cmd, n).Returned? && Trapped(cmd, Rounds(cmd, n))
  {
    if n > 0 {
      OpenQuoteHangs(cmd, n - 1);
      var s := Rounds(cmd, n - 1);
      if s.Outer? { OuterTrapped(cmd, s); } else { InnerTrapped(cmd, s); }
    }
  }

  /** The state has come to `at` and agrees with the automaton there. */
  predicate OnTrack(cmd: string, s: Scan, at: nat) {
    match s
    case Outer(end, args) => at == end <= |cmd| && Read(cmd, QUOTES, at, Between, args) == Meaning(cmd, QUOTES)
    case Inner(start, blank, quote, args) =>
      && start < at <= |cmd| && blank == FindFirstOf(cmd, BLANKS, at) && quote == FindFirstOf(cmd, QUOTES, at)
      && Read(cmd, QUOTES, at, Word(cmd[start..at]), args) == Meaning(cmd, QUOTES)
    case Returned(ok, args) => Meaning(cmd, QUOTES) == if ok then Parsed(args) else Unclosed(args)
  }

  /** Without an open quote every round gets further, or from a word back to the outer loop. */
  lemma OuterOnTrack(cmd: string, s: Scan, at: nat) returns (next: nat)
    requires s.Outer? && OnTrack(cmd, s, at)
    ensures OnTrack(cmd, Round(cmd, s), next) && (Round(cmd, s).Returned? || next > at)
  {
    hide Read, FindFirstOf, FindFirstNotOf;
    var p := FindFirstNotOf(cmd, BLANKS, at);
    SkipBlanks(cmd, QUOTES, at, s.args);
    next := at;
    if p.At? {
      var q := cmd[p.index];
      next := p.index + 1;
      if q in QUOTES {
        EnterQuoted(cmd, QUOTES, p.index, s.args);
        SkipQuoted(cmd, QUOTES, p.index + 1, p.index + 1, q, s.args);
        next := After(FindFirstOf(cmd, {q}, p.index + 1));
      } else {
        EnterWord(cmd, QUOTES, p.index, s.args);
      }
    }
  }

  lemma InnerOnTrack(cmd: string, s: Scan, at: nat) returns (next: nat)
    requires s.Inner? && InRange(cmd, s) && OnTrack(cmd, s, at) && !Meaning(cmd, QUOTES).Hung?
    ensures OnTrack(cmd, Round(cmd, s), next)
    ensures Round(cmd, s).Returned? || next > at || (next >= at && Round(cmd, s).Outer?)
  {
    hide Read, FindFirstOf, FindFirstNotOf;
    SkipWord(cmd, QUOTES, s.start, at, s.args);
    next := at;
    if QuoteFirst(s.quote, s.blank) {
      SkipWordQuoted(cmd, QUOTES, s.start, s.quote.index + 1, cmd[s.quote.index], s.args);
      next := After(FindFirstOf(cmd, {cmd[s.quote.index]}, s.quote.index + 1));
    } else if s.blank.At? {
      next := s.blank.index;
    }
  }

  lemma {:induction false} ReturnsFrom(cmd: string, n: nat, at: nat) returns (m: nat)
    requires !Meaning(cmd, QUOTES).Hung? && OnTrack(cmd, Rounds(cmd, n), at)
    ensures Rounds(cmd, m).Returned? && OnTrack(cmd, Rounds(cmd, m), 0)
    decreases |cmd| - at, !Rounds(cmd, n).Outer?
  {
    var s := Rounds(cmd, n);
    if s.Returned? { return n; }
    var next := at;
    if s.Outer? { next := OuterOnTrack(cmd, s, at); } else { next := InnerOnTrack(cmd, s, at); }
    assert Rounds(cmd, n + 1) == Round(cmd, s);
    if Round(cmd, s).Returned? { m := n + 1; } else { m := ReturnsFrom(cmd, n + 1, next); }
  }

  /** The scanner returns exactly when no quote is left open inside a word. */
  lemma ReturnsIffClosed(cmd: string)
    ensures (exists n: nat :: Rounds(cmd, n).Returned?) <==> !Meaning(cmd, QUOTES).Hung?
  {
    if Meaning(cmd, QUOTES).Hung? {
      forall n: nat ensures !Rounds(cmd, n).Returned? { OpenQuoteHangs(cmd, n); }
    } else {
      var m := ReturnsFrom(cmd, 0, 0);
      assert Rounds(cmd, m).Returned?;
    }
  }
}

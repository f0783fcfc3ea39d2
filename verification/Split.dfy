/** `Utils::Split` and its inverse, joining. */
module Split {
  import opened Prelude
  import opened Text

  function Join(pieces: seq<string>, sep: string): string {
    if pieces == [] then ""
    else if |pieces| == 1 then pieces[0]
    else pieces[0] + sep + Join(pieces[1..], sep)
  }

  ghost predicate Contains(s: string, sep: string) {
    exists i: nat :: OccursAt(s, sep, i)
  }

  /** The separator does not start inside the piece, not even when it reaches into the separator after it. */
  ghost predicate EndsAtSeparator(piece: string, sep: string) {
    forall i: nat | i < |piece| :: !OccursAt(piece + sep, sep, i)
  }

  /** The lists of pieces splitting can produce: the last lacks the separator, every other ends where it first occurs. */
  ghost predicate Separable(pieces: seq<string>, sep: string) {
    if |pieces| <= 1 then pieces != [] && !Contains(pieces[0], sep)
    else EndsAtSeparator(pieces[0], sep) && Separable(pieces[1..], sep)
  }

  /** What `Split` still has to store when it has come to `start`. */
  function Pieces(src: string, sep: string, start: nat): (pieces: seq<string>)
    requires sep != "" && start <= |src|
    ensures pieces != []
    decreases |src| - start
  {
    var end := Find(src, sep, start);
    var piece := Substr(src, start, end);
    if end.Npos? then [piece] else [piece] + Pieces(src, sep, end.index + |sep|)
  }

  /**
   `Split`: the vector it fills and the count it returns. With a separator that is not empty it stops, because
   every round moves the start beyond a separator.
   */
  method Split(src: string, sep: string) returns (pieces: seq<string>, count: nat)
    requires sep != ""
    ensures pieces == Pieces(src, sep, 0) && count == |pieces|
    ensures Join(pieces, sep) == src
    ensures forall k | 0 <= k < |pieces| :: !Contains(pieces[k], sep)
  {
    pieces := [];
    var start := 0;
    while true
      invariant start <= |src|
      invariant pieces + Pieces(src, sep, start) == Pieces(src, sep, 0)
      decreases |src| - start
    {
      var end := Find(src, sep, start);
      var chip := Substr(src, start, end);
      if end.Npos? {
        pieces := pieces + [chip];
        break;
      }
      ConcatAssociative(pieces, [chip], Pieces(src, sep, end.index + |sep|));
      pieces := pieces + [chip];
      start := end.index + |sep|;
    }
    PiecesJoin(src, sep, 0);
    PiecesSeparable(src, sep, 0);
    PiecesLack(pieces, sep);
    assert src[0..] == src;
    count := |pieces|;
  }

  lemma OccursInSlice(s: string, lo: nat, hi: nat, sep: string, i: nat)
    requires lo <= hi <= |s|
    ensures OccursAt(s[lo..hi], sep, i) <==> lo + i + |sep| <= hi && OccursAt(s, sep, lo + i)
  {
    if lo + i + |sep| <= hi {
      var n := |sep|;
      assert s[lo..hi][i..] == s[lo + i..hi];
      assert s[lo..hi][i..][..n] == s[lo..hi][i..i + n];
      assert s[lo + i..hi][..n] == s[lo + i..lo + i + n];
    }
  }

  lemma {:induction false} PiecesLack(pieces: seq<string>, sep: string)
    requires sep != "" && Separable(pieces, sep)
    ensures forall k | 0 <= k < |pieces| :: !Contains(pieces[k], sep)
  {
    if |pieces| > 1 {
      PiecesLack(pieces[1..], sep);
      var p := pieces[0];
      assert (p + sep)[0..|p|] == p;
      forall i: nat ensures !OccursAt(p, sep, i) {
        OccursInSlice(p + sep, 0, |p|, sep, i);
      }
      assert forall k | 1 <= k < |pieces| :: pieces[k] == pieces[1..][k - 1];
    }
  }

  /** A separator found at `end` cuts the rest of the text into a piece, the separator and a new rest. */
  lemma CutAt(src: string, sep: string, start: nat, end: nat)
    requires start <= end && OccursAt(src, sep, end)
    ensures src[start..] == src[start..end] + sep + src[end + |sep|..]
    ensures src[start..end] + sep == src[start..end + |sep|]
  {
    assert src[end..end + |sep|] == sep;
  }

  lemma Prepend(piece: string, pieces: seq<string>, sep: string)
    requires pieces != []
    ensures Join([piece] + pieces, sep) == piece + sep + Join(pieces, sep)
    ensures Separable(pieces, sep) && EndsAtSeparator(piece, sep) ==> Separable([piece] + pieces, sep)
  {
    assert ([piece] + pieces)[1..] == pieces;
  }

  lemma FoundEnds(src: string, sep: string, start: nat)
    requires start <= |src| && Find(src, sep, start).At?
    ensures EndsAtSeparator(src[start..Find(src, sep, start).index], sep)
  {
    var end := Find(src, sep, start).index;
    CutAt(src, sep, start, end);
    forall i: nat | i < end - start ensures !OccursAt(src[start..end] + sep, sep, i) {
      OccursInSlice(src, start, end + |sep|, sep, i);
    }
  }

  lemma NotFoundLacks(src: string, sep: string, start: nat)
    requires start <= |src|
    ensures Find(src, sep, start).Npos? <==> !Contains(src[start..], sep)
  {
    assert src[start..] == src[start..|src|];
    forall i: nat ensures OccursAt(src[start..], sep, i) <==> OccursAt(src, sep, start + i) {
      OccursInSlice(src, start, |src|, sep, i);
    }
    var p := Find(src, sep, start);
    assert p.At? ==> OccursAt(src[start..], sep, p.index - start);
  }

  /** Joining the pieces restores the text. */
  lemma {:induction false} PiecesJoin(src: string, sep: string, start: nat)
    requires sep != "" && start <= |src|
    ensures Join(Pieces(src, sep, start), sep) == src[start..]
    decreases |src| - start
  {
    var end := Find(src, sep, start);
    if end.At? {
      var piece, next := src[start..end.index], end.index + |sep|;
      calc {
        Join(Pieces(src, sep, start), sep);
        Join([piece] + Pieces(src, sep, next), sep);
        { Prepend(piece, Pieces(src, sep, next), sep); }
        piece + sep + Join(Pieces(src, sep, next), sep);
        { PiecesJoin(src, sep, next); }
        piece + sep + src[next..];
        { CutAt(src, sep, start, end.index); }
        src[start..];
      }
    }
  }

  /** The pieces are separable. */
  lemma {:induction false} PiecesSeparable(src: string, sep: string, start: nat)
    requires sep != "" && start <= |src|
    ensures Separable(Pieces(src, sep, start), sep)
    decreases |src| - start
  {
    var end := Find(src, sep, start);
    if end.Npos? {
      NotFoundLacks(src, sep, start);
    } else {
      var piece, next := src[start..end.index], end.index + |sep|;
      calc {
        Separable(Pieces(src, sep, start), sep);
        Separable([piece] + Pieces(src, sep, next), sep);
      <== { FoundEnds(src, sep, start); Prepend(piece, Pieces(src, sep, next), sep); }
        Separable(Pieces(src, sep, next), sep);
        { PiecesSeparable(src, sep, next); }
        true;
      }
    }
  }

  /** In a joined text the separator first occurs right after the first piece. */
  lemma FirstPiece(src: string, sep: string, start: nat, piece: string, rest: string)
    requires start <= |src| && src[start..] == piece + sep + rest && EndsAtSeparator(piece, sep)
    ensures Find(src, sep, start) == At(start + |piece|)
  {
    var hi := start + |piece| + |sep|;
    assert src[start..hi] == src[start..][..|piece| + |sep|] == piece + sep;
    assert OccursAt(piece + sep, sep, |piece|);
    OccursInSlice(src, start, hi, sep, |piece|);
    forall i: nat | start <= i < start + |piece| ensures !OccursAt(src, sep, i) {
      OccursInSlice(src, start, hi, sep, i - start);
    }
  }

  lemma TakeFirst(src: string, start: nat, piece: string, sep: string, rest: string)
    requires start <= |src| && src[start..] == piece + sep + rest
    ensures var end := start + |piece|; end + |sep| <= |src| && src[start..end] == piece && src[end + |sep|..] == rest
  {
    assert src[start..][..|piece|] == piece && src[start..][|piece| + |sep|..] == rest;
  }

  /** Splitting a joined text cuts off the first of several pieces. */
  lemma SplitsFirst(src: string, sep: string, start: nat, pieces: seq<string>)
    requires sep != "" && start <= |src| && |pieces| > 1
    requires Separable(pieces, sep) && Join(pieces, sep) == src[start..]
    ensures var next := start + |pieces[0]| + |sep|;
            && next <= |src| && Join(pieces[1..], sep) == src[next..]
            && Pieces(src, sep, start) == [pieces[0]] + Pieces(src, sep, next)
  {
    hide Find, EndsAtSeparator, Contains, OccursAt;
    var p := pieces[0];
    TakeFirst(src, start, p, sep, Join(pieces[1..], sep));
    assert Find(src, sep, start) == At(start + |p|) by { FirstPiece(src, sep, start, p, Join(pieces[1..], sep)); }
  }

  lemma {:induction false} SeparableSplits(src: string, sep: string, start: nat, pieces: seq<string>)
    requires sep != "" && start <= |src|
    requires Separable(pieces, sep) && Join(pieces, sep) == src[start..]
    ensures Pieces(src, sep, start) == pieces
    decreases |pieces|
  {
    hide Find, EndsAtSeparator, Contains, OccursAt;
    if |pieces| == 1 {
      NotFoundLacks(src, sep, start);
    } else {
      SplitsFirst(src, sep, start, pieces);
      SeparableSplits(src, sep, start + |pieces[0]| + |sep|, pieces[1..]);
    }
  }

  /** Splitting a joined list gives the list back exactly when the list is separable. */
  lemma SplitJoin(pieces: seq<string>, sep: string)
    requires sep != ""
    ensures Pieces(Join(pieces, sep), sep, 0) == pieces <==> Separable(pieces, sep)
  {
    PiecesSeparable(Join(pieces, sep), sep, 0);
    if Separable(pieces, sep) {
      assert Join(pieces, sep)[0..] == Join(pieces, sep);
      SeparableSplits(Join(pieces, sep), sep, 0, pieces);
    }
  }

  // ----- whether the loop returns

  /** One round of the loop: where the next one starts, or nothing once the loop has ended. */
  function Round(src: string, sep: string, start: nat): Option<nat> {
    var end := Find(src, sep, start);
    if end.At? then Some(end.index + |sep|) else None
  }

  function Rounds(src: string, sep: string, n: nat): Option<nat> {
    if n == 0 then Some(0)
    else
      var start := Rounds(src, sep, n - 1);
      if start.Some? then Round(src, sep, start.value) else None
  }

  /** With an empty separator every round finds it where it starts. */
  lemma {:induction false} EmptySeparatorHangs(src: string, n: nat)
    ensures Rounds(src, "", n) == Some(0)
  {
    if n > 0 {
      EmptySeparatorHangs(src, n - 1);
      assert OccursAt(src, "", 0);
    }
  }

  /** With any other, every round starts further on. */
  lemma {:induction false} RoundsMove(src: string, sep: string, n: nat)
    requires sep != ""
    ensures Rounds(src, sep, n).Some? ==> n <= Rounds(src, sep, n).value <= |src|
  {
    if n > 0 { RoundsMove(src, sep, n - 1); }
  }

  /** `Split` returns exactly for a separator that is not empty. */
  lemma ReturnsIffSeparator(src: string, sep: string)
    ensures (exists n: nat :: Rounds(src, sep, n).None?) <==> sep != ""
  {
    if sep == "" {
      forall n: nat ensures Rounds(src, sep, n).Some? { EmptySeparatorHangs(src, n); }
    } else {
      RoundsMove(src, sep, |src| + 1);
      assert Rounds(src, sep, |src| + 1).None?;
    }
  }
}

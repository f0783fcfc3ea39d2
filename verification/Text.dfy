/** The searches of `std::string` the text utilities are written with. */
module Text {

  /** A position, or `npos`. */
  datatype Position = At(index: nat) | Npos

  /** `find_first_of`: the first character of `set` at or after `from`. */
  function FindFirstOf(s: string, chars: set<char>, from: nat): (p: Position)
    ensures p.At? ==> from <= p.index < |s| && s[p.index] in chars && forall i | from <= i < p.index :: s[i] !in chars
    ensures p.Npos? ==> forall i | from <= i < |s| :: s[i] !in chars
    decreases |s| - from
  {
    if from >= |s| then Npos
    else if s[from] in chars then At(from)
    else FindFirstOf(s, chars, from + 1)
  }

  /** `find_first_not_of`. */
  function FindFirstNotOf(s: string, chars: set<char>, from: nat): (p: Position)
    ensures p.At? ==> from <= p.index < |s| && s[p.index] !in chars && forall i | from <= i < p.index :: s[i] in chars
    ensures p.Npos? ==> forall i | from <= i < |s| :: s[i] in chars
    decreases |s| - from
  {
    if from >= |s| then Npos
    else if s[from] !in chars then At(from)
    else FindFirstNotOf(s, chars, from + 1)
  }

  predicate OccursAt(s: string, sep: string, i: nat) {
    i + |sep| <= |s| && s[i..i + |sep|] == sep
  }

  /** `find`: the first occurrence of a substring at or after `from`. */
  function Find(s: string, sep: string, from: nat): (p: Position)
    ensures p.At? ==> from <= p.index && OccursAt(s, sep, p.index) && forall i | from <= i < p.index :: !OccursAt(s, sep, i)
    ensures p.Npos? ==> forall i | from <= i :: !OccursAt(s, sep, i)
    decreases |s| - from
  {
    if from + |sep| > |s| then Npos
    else if OccursAt(s, sep, from) then At(from)
    else Find(s, sep, from + 1)
  }

  /** `substr(from, to - from)`, where `to == npos` means everything that is left. */
  function Substr(s: string, from: nat, to: Position): string
    requires from <= |s| && (to.At? ==> from <= to.index <= |s|)
  {
    if to.At? then s[from..to.index] else s[from..]
  }
}

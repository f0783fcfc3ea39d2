/** What several modules need and no source file owns. */
module Prelude {

  datatype Option<+T> = None | Some(value: T)

  lemma ConcatAssociative<T>(a: seq<T>, b: seq<T>, c: seq<T>)
    ensures (a + b) + c == a + (b + c)
  {}
}

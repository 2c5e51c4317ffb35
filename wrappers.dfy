/** Optional values, what the C++ code expresses with a null pointer or a failed call, and a sequence fact both models use. */
module Wrappers {
  datatype Option<+T> = None | Some(value: T)

  lemma AppendAssoc<T>(a: seq<T>, b: seq<T>, c: seq<T>)
    ensures (a + b) + c == a + (b + c)
  {
  }
}

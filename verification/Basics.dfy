/** Small shared vocabulary: optional values and order-free facts about sequences. */
module Basics {

  datatype Option<+T> = None | Some(value: T)

  /** The elements of a sequence. */
  function Elements<T>(s: seq<T>): set<T> {
    set x | x in s
  }

  /** No element occurs at two positions. */
  ghost predicate Distinct<T>(s: seq<T>) {
    forall i, j :: 0 <= i < j < |s| ==> s[i] != s[j]
  }

  /** Every entry of a is an entry of b. */
  predicate Submap<K, V(==)>(a: map<K, V>, b: map<K, V>) {
    forall k :: k in a ==> k in b && a[k] == b[k]
  }
}

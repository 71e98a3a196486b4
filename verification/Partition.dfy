/** pkg/util/partition.go */
module Partition {
  /** No element that belongs in the back stands before one that belongs in the front. */
  ghost predicate FrontFirst<T>(s: seq<T>, isFront: T -> bool) {
    forall i, j :: 0 <= i < j < |s| && isFront(s[j]) ==> isFront(s[i])
  }

  /** Moves the elements that satisfy isFront to the front, in place. */
  method PartitionSlice<T>(slice: array<T>, isFront: T -> bool)
    modifies slice
    ensures FrontFirst(slice[..], isFront)
    ensures multiset(slice[..]) == multiset(old(slice[..]))
  {
    var a, b := 0, slice.Length - 1;
    while a < b
      invariant 0 <= a <= b + 1 <= slice.Length
      invariant slice.Length > 0 ==> a <= b
      invariant forall i :: 0 <= i < a ==> isFront(slice[i])
      invariant forall i :: b < i < slice.Length ==> !isFront(slice[i])
      invariant multiset(slice[..]) == multiset(old(slice[..]))
    {
      if isFront(slice[a]) {
        a := a + 1;
      } else {
        ghost var before := slice[..];
        slice[a], slice[b] := slice[b], slice[a];
        SwapKeepsElements(before, slice[..], a, b);
        b := b - 1;
      }
    }
  }

  lemma SwapKeepsElements<T>(s: seq<T>, t: seq<T>, a: nat, b: nat)
    requires a < b < |s| == |t| && t[a] == s[b] && t[b] == s[a]
    requires forall i :: 0 <= i < |s| && i != a && i != b ==> t[i] == s[i]
    ensures multiset(t) == multiset(s)
  {
    assert s == s[..a] + [s[a]] + s[a + 1..b] + [s[b]] + s[b + 1..];
    assert t == s[..a] + [s[b]] + s[a + 1..b] + [s[a]] + s[b + 1..];
  }
}

/** References to nodes, sorted by what the nodes were before the scaler touched them. */
module NodeSelection {
  import opened ApiTypes
  import opened Sums
  import opened NodeScaler
  import opened NodeScalerRounds

  function Apply<T, U>(s: seq<T>, m: map<T, U>): (r: seq<U>)
    requires forall x :: x in s ==> x in m
    ensures |r| == |s| && forall i :: 0 <= i < |s| ==> r[i] == m[s[i]]
  {
    seq(|s|, i requires 0 <= i < |s| => m[s[i]])
  }

  lemma {:induction false} ApplyIgnoresOrder<T, U>(a: seq<T>, b: seq<T>, m: map<T, U>)
    requires multiset(a) == multiset(b)
    requires (forall x :: x in a ==> x in m) && (forall x :: x in b ==> x in m)
    ensures multiset(Apply(a, m)) == multiset(Apply(b, m))
  {
    if a == [] {
      assert |multiset(b)| == 0;
    } else {
      assert a[0] in multiset(b);
      var i :| 0 <= i < |b| && b[i] == a[0];
      SameRest(a, b, i);
      var rest := b[..i] + b[i + 1..];
      ApplyIgnoresOrder(a[1..], rest, m);
      HeadAndTail(Apply(a, m));
      assert Apply(a, m)[1..] == Apply(a[1..], m);
      SplitAt(Apply(b, m), i);
      assert Apply(rest, m) == Apply(b, m)[..i] + Apply(b, m)[i + 1..];
    }
  }

  lemma DistinctPart<T>(part: seq<T>, rest: multiset<T>, whole: seq<T>)
    requires Distinct(whole) && multiset(part) + rest == multiset(whole)
    ensures Distinct(part)
    ensures forall x :: x in part ==> x !in rest
  {
    forall i, j | 0 <= i < j < |part| ensures part[i] != part[j] {
      assert part[j] in part[i + 1..];
      SplitAt(part, i);
      DistinctCount(whole, part[i]);
    }
    forall x | x in part ensures x !in rest {
      DistinctCount(whole, x);
      assert multiset(part)[x] >= 1;
    }
  }

  /** The parts into which a round first divides the nodes. */
  datatype Part = Idle | Still | Free

  function PartOf(n: Node, waiting: Pods): (p: Part)
    ensures p == Idle <==> !AvailableOrBaking(n)
    ensures p == Still <==> StillBound(n, waiting)
    ensures p == Free <==> Unbound(n, waiting)
  {
    if !AvailableOrBaking(n) then Idle else if StillBound(n, waiting) then Still else Free
  }

  /** The references whose nodes were in the part when `before` was taken. */
  ghost function Select<T>(refs: seq<T>, before: seq<Node>, waiting: Pods, part: Part): (r: seq<T>)
    requires |refs| == |before|
    ensures forall x :: x in r ==> x in refs
  {
    if refs == [] then [] else
      var k := |refs| - 1;
      var s := Select(refs[..k], before[..k], waiting, part);
      if PartOf(before[k], waiting) == part then s + [refs[k]] else s
  }

  lemma SelectNext<T>(refs: seq<T>, before: seq<Node>, waiting: Pods, part: Part, k: nat)
    requires |refs| == |before| && k < |refs|
    ensures var s := Select(refs[..k], before[..k], waiting, part);
      Select(refs[..k + 1], before[..k + 1], waiting, part) == if PartOf(before[k], waiting) == part then s + [refs[k]]
        else s
  {
    assert refs[..k + 1][..k] == refs[..k] && before[..k + 1][..k] == before[..k];
  }

  lemma OldBindingsNext(before: seq<Node>, waiting: Pods, k: nat)
    requires k < |before|
    ensures var n := before[k]; var b := OldBindings(before[..k], waiting);
      OldBindings(before[..k + 1], waiting) == if StillBound(n, waiting) then b[n.bound := n.name] else b
  {
    assert before[..k + 1][..k] == before[..k];
  }

  /** The three selections share out the references. */
  lemma {:induction false} SelectParts<T>(refs: seq<T>, before: seq<Node>, waiting: Pods)
    requires |refs| == |before|
    ensures multiset(Select(refs, before, waiting, Idle)) + multiset(Select(refs, before, waiting, Still))
         + multiset(Select(refs, before, waiting, Free)) == multiset(refs)
  {
    hide PartOf;
    if refs != [] {
      SelectParts(refs[..|refs| - 1], before[..|refs| - 1], waiting);
      assert refs == refs[..|refs| - 1] + [refs[|refs| - 1]];
    }
  }

  /** Each reference shows its node with a binding to a pod that does not wait cleared. */
  ghost predicate ShowsCleared<T>(refs: seq<T>, before: seq<Node>, waiting: Pods, view: map<T, Node>) {
    |refs| == |before|
      && forall i :: 0 <= i < |refs| ==> refs[i] in view && view[refs[i]] == Cleared(before[i], waiting)
  }

  lemma {:induction false} SelectIdle<T>(refs: seq<T>, before: seq<Node>, waiting: Pods, view: map<T, Node>)
    requires ShowsCleared(refs, before, waiting, view)
    ensures Apply(Select(refs, before, waiting, Idle), view) == IdleNodes(before)
  {
    if refs != [] { SelectIdle(refs[..|refs| - 1], before[..|refs| - 1], waiting, view); }
  }

  lemma {:induction false} SelectStill<T>(refs: seq<T>, before: seq<Node>, waiting: Pods, view: map<T, Node>)
    requires ShowsCleared(refs, before, waiting, view)
    ensures Apply(Select(refs, before, waiting, Still), view) == StillNodes(before, waiting)
  {
    if refs != [] { SelectStill(refs[..|refs| - 1], before[..|refs| - 1], waiting, view); }
  }

  lemma {:induction false} SelectFree<T>(refs: seq<T>, before: seq<Node>, waiting: Pods, view: map<T, Node>)
    requires ShowsCleared(refs, before, waiting, view)
    ensures Apply(Select(refs, before, waiting, Free), view) == UnboundNodes(before, waiting)
  {
    if refs != [] { SelectFree(refs[..|refs| - 1], before[..|refs| - 1], waiting, view); }
  }

  /** The node was bound to a pod that does not wait. */
  predicate WasCleared(n: Node, waiting: Pods) {
    Unbound(n, waiting) && n.bound != ""
  }

  /** The references whose bindings were cleared, by name. */
  ghost function ClearedOnes<T>(refs: seq<T>, before: seq<Node>, waiting: Pods): map<string, T>
    requires |refs| == |before|
  {
    if refs == [] then map[] else
      var k := |refs| - 1;
      var d := ClearedOnes(refs[..k], before[..k], waiting);
      if WasCleared(before[k], waiting) then d[before[k].name := refs[k]] else d
  }

  lemma ClearedOnesNext<T>(refs: seq<T>, before: seq<Node>, waiting: Pods, k: nat)
    requires |refs| == |before| && k < |refs|
    ensures var d := ClearedOnes(refs[..k], before[..k], waiting);
      ClearedOnes(refs[..k + 1], before[..k + 1], waiting) == if WasCleared(before[k], waiting)
        then d[before[k].name := refs[k]] else d
  {
    assert refs[..k + 1][..k] == refs[..k] && before[..k + 1][..k] == before[..k];
  }

  lemma {:induction false} ClearedOneIs<T>(refs: seq<T>, before: seq<Node>, waiting: Pods, x: string) returns (j: nat)
    requires |refs| == |before| && x in ClearedOnes(refs, before, waiting)
    ensures j < |refs| && WasCleared(before[j], waiting) && before[j].name == x
      && refs[j] == ClearedOnes(refs, before, waiting)[x]
  {
    j := |refs| - 1;
    if !(WasCleared(before[j], waiting) && before[j].name == x) {
      j := ClearedOneIs(refs[..j], before[..j], waiting, x);
    }
  }
}

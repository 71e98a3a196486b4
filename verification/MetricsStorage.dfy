/** Ring buffers of pod metrics (pkg/server/registry/metrics_storage.go). */
module MetricsStorage {
  import opened Wrappers

  datatype Sample = Sample(timestamp: int, usage: string)

  /** A stored sample, with the time since the one before it. */
  datatype Metrics = Metrics(name: string, timestamp: int, window: int, usage: string)

  /** What is reported for sample `i` of a history, evicted predecessor or not. */
  function Stamped(name: string, h: seq<Sample>, i: nat): Metrics
    requires i < |h|
  {
    Metrics(name, h[i].timestamp, if i == 0 then 0 else h[i].timestamp - h[i - 1].timestamp, h[i].usage)
  }

  function Oldest(count: nat, n: nat): nat {
    if count <= n then 0 else count - n
  }

  /** The last samples of a history, at most `n`, in order. */
  function Recent(name: string, h: seq<Sample>, n: nat): (r: seq<Metrics>)
    ensures |r| == if |h| < n then |h| else n
    ensures forall k :: 0 <= k < |r| ==> r[k] == Stamped(name, h, |h| - |r| + k)
  {
    seq(|h| - Oldest(|h|, n), k requires 0 <= k < |h| - Oldest(|h|, n) => Stamped(name, h, Oldest(|h|, n) + k))
  }

  function TotalWindow(r: seq<Metrics>): int {
    if r == [] then 0 else TotalWindow(r[..|r| - 1]) + r[|r| - 1].window
  }

  lemma {:induction false} TotalUpTo(name: string, h: seq<Sample>, n: nat, m: nat)
    requires 0 < m <= |Recent(name, h, n)|
    ensures var r := Recent(name, h, n); TotalWindow(r[..m]) == r[0].window + r[m - 1].timestamp - r[0].timestamp
  {
    var r := Recent(name, h, n);
    assert r[..m][..m - 1] == r[..m - 1];
    if m > 1 { TotalUpTo(name, h, n, m - 1); } else { assert r[..0] == []; }
  }

  /** The windows of the samples kept cover, without gap or overlap, the time from the sample before
    * the first one kept to the last one. */
  lemma WindowsAddUp(name: string, h: seq<Sample>, n: nat)
    requires h != [] && n > 0
    ensures
      var r := Recent(name, h, n);
      var from := if |h| <= n then h[0].timestamp else h[|h| - n - 1].timestamp;
      r[|r| - 1].timestamp == h[|h| - 1].timestamp && TotalWindow(r) == h[|h| - 1].timestamp - from
    ensures forall k :: 0 <= k < |Recent(name, h, n)| ==> Recent(name, h, n)[k].name == name
    ensures forall k :: 0 <= k < |Recent(name, h, n)| ==>
      var r := Recent(name, h, n); Sample(r[k].timestamp, r[k].usage) == h[|h| - |r| + k]
  {
    var r := Recent(name, h, n);
    TotalUpTo(name, h, n, |r|);
    assert r[..|r|] == r;
  }

  class PodMetrics {
    const name: string
    var count: nat
    const metrics: array<Metrics>
    ghost var history: seq<Sample>

    ghost predicate Valid()
      reads this, metrics
    {
      && metrics.Length > 0 && count == |history|
      && forall i :: Oldest(count, metrics.Length) <= i < count ==>
        metrics[i % metrics.Length] == Stamped(name, history, i)
    }

    constructor (name: string, numDatapoints: nat)
      requires numDatapoints > 0
      ensures Valid() && fresh(metrics) && this.name == name && metrics.Length == numDatapoints && history == []
    {
      this.name := name;
      count := 0;
      metrics := new Metrics[numDatapoints](_ => Metrics("", 0, 0, ""));
      history := [];
    }

    method Insert(t: int, usage: string)
      requires Valid()
      modifies this, metrics
      ensures Valid() && history == old(history) + [Sample(t, usage)]
    {
      var window := 0;
      if count > 0 {
        var prev := (count - 1) % metrics.Length;
        window := t - metrics[prev].timestamp;
      }
      var idx := count % metrics.Length;
      ghost var h := history;
      forall i | Oldest(count + 1, metrics.Length) <= i < count ensures i % metrics.Length != idx {
        Apart(i, count, metrics.Length);
      }
      metrics[idx] := Metrics(name, t, window, usage);
      history := history + [Sample(t, usage)];
      assert forall i :: 0 <= i < |h| ==> Stamped(name, history, i) == Stamped(name, h, i);
      count := count + 1;
    }

    method GetLatest() returns (r: Option<Metrics>)
      requires Valid()
      ensures r == if history == [] then None else Some(Stamped(name, history, |history| - 1))
      ensures history != [] ==> var all := Recent(name, history, metrics.Length); r == Some(all[|all| - 1])
    {
      if count == 0 { return None; }
      return Some(metrics[(count - 1) % metrics.Length]);
    }

    method ListAll() returns (r: seq<Metrics>)
      requires Valid()
      ensures r == Recent(name, history, metrics.Length)
    {
      var start := if count > metrics.Length then count - metrics.Length else 0;
      r := [];
      for i := start to count
        invariant |r| == i - start
        invariant forall k :: 0 <= k < |r| ==> r[k] == Stamped(name, history, start + k)
      {
        r := r + [metrics[i % metrics.Length]];
      }
    }
  }

  /** Two positions less than a buffer apart do not collide. */
  lemma {:induction false} Apart(i: nat, j: nat, n: nat)
    requires i < j && j - i < n
    ensures Slot(i, n) != Slot(j, n)
  {
    hide Slot;
    if i >= n {
      OneTurn(i, n);
      OneTurn(j, n);
      Apart(i - n, j - n, n);
    } else {
      FirstTurn(i, n);
      if j >= n {
        OneTurn(j, n);
        FirstTurn(j - n, n);
      } else {
        FirstTurn(j, n);
      }
    }
  }

  /** Where sample `x` is kept. */
  function Slot(x: nat, n: nat): nat
    requires n > 0
  {
    x % n
  }

  lemma FirstTurn(x: nat, n: nat)
    requires x < n
    ensures Slot(x, n) == x
  {}

  lemma OneTurn(x: nat, n: nat)
    requires x >= n > 0
    ensures Slot(x - n, n) == Slot(x, n)
  {
    var q, r := (x - n) / n, (x - n) % n;
    assert x - n == n * q + r;
    Remainder(x, n, q + 1, r);
  }

  lemma Multiple(n: nat, d: int)
    ensures d >= 1 ==> n * d >= n
    ensures d <= -1 ==> n * d <= -(n as int)
  {}

  lemma Remainder(x: nat, n: nat, q: nat, r: nat)
    requires n > 0 && r < n && x == n * q + r
    ensures x % n == r
  {
    var d := x / n - q;
    assert n * d == r - x % n;
    Multiple(n, d);
  }

  // ---- all pods ----

  datatype Op = Inserted(pod: string, sample: Sample) | Deleted(pod: string)

  /** The samples of a pod since it was last deleted. */
  function Since(ops: seq<Op>, pod: string): seq<Sample> {
    if ops == [] then [] else
      var before := Since(ops[..|ops| - 1], pod);
      match ops[|ops| - 1]
      case Inserted(p, s) => if p == pod then before + [s] else before
      case Deleted(p) => if p == pod then [] else before
  }

  function Deletions(pods: seq<string>): seq<Op> {
    seq(|pods|, i requires 0 <= i < |pods| => Deleted(pods[i]))
  }

  lemma SinceNext(ops: seq<Op>, op: Op)
    ensures forall p :: Since(ops + [op], p) == if p != op.pod then Since(ops, p) else if op.Deleted? then []
      else Since(ops, p) + [op.sample]
  {}

  class MetricsStore {
    const numDatapoints: nat
    var pods: map<string, PodMetrics>
    ghost var ops: seq<Op>
    ghost var Repr: set<object>

    ghost predicate Apart()
      reads this
    {
      forall a, b :: a in pods && b in pods && a != b ==> pods[a] != pods[b] && pods[a].metrics != pods[b].metrics
    }

    /** The buffer of `p` is ours alone, and holds what the operations so far amount to. */
    ghost predicate Holds(p: string)
      requires p in pods && pods[p] in Repr && pods[p].metrics in Repr
      reads this, Repr
    {
      pods[p].Valid() && pods[p].name == p && pods[p].metrics.Length == numDatapoints
        && pods[p].history == Since(ops, p)
    }

    ghost predicate Valid()
      reads this, Repr
    {
      && numDatapoints > 0 && Apart()
      && (forall p :: p in pods ==> pods[p] in Repr && pods[p].metrics in Repr && Holds(p))
      && (forall p :: Since(ops, p) != [] ==> p in pods)
    }

    constructor (numDatapoints: nat)
      requires numDatapoints > 0
      ensures Valid() && ops == [] && this.numDatapoints == numDatapoints && Repr == {}
    {
      this.numDatapoints := numDatapoints;
      pods, ops, Repr := map[], [], {};
    }

    method GetPodMetrics(podName: string) returns (r: seq<Metrics>)
      requires Valid()
      ensures r == Recent(podName, Since(ops, podName), numDatapoints)
    {
      if podName !in pods { return []; }
      r := pods[podName].ListAll();
    }

    method Insert(podName: string, t: int, usage: string)
      requires Valid()
      modifies this, Repr
      ensures Valid() && ops == old(ops) + [Inserted(podName, Sample(t, usage))] && fresh(Repr - old(Repr))
    {
      hide Valid, Since;
      EnsureBuffer(podName);
      Extend(podName, t, usage);
    }

    method Extend(podName: string, t: int, usage: string)
      requires Valid() && podName in pods
      modifies this, Repr
      ensures Valid() && ops == old(ops) + [Inserted(podName, Sample(t, usage))] && Repr == old(Repr)
    {
      hide Since, Stamped, Oldest, Recent;
      SinceNext(ops, Inserted(podName, Sample(t, usage)));
      var m := pods[podName];
      assert Holds(podName);
      m.Insert(t, usage);
      ops := ops + [Inserted(podName, Sample(t, usage))];
      forall p | p in pods ensures pods[p] in Repr && pods[p].metrics in Repr && Holds(p) {
        assert p != podName ==> pods[p] != m && pods[p].metrics != m.metrics;
      }
    }

    method EnsureBuffer(podName: string)
      requires Valid()
      modifies this
      ensures Valid() && ops == old(ops) && podName in pods
      ensures fresh(Repr - old(Repr))
    {
      hide Since, Stamped, Oldest, Recent;
      if podName !in pods {
        var m := new PodMetrics(podName, numDatapoints);
        pods := pods[podName := m];
        Repr := Repr + {m, m.metrics};
      }
    }

    method DeletePods(podNames: seq<string>)
      requires Valid()
      modifies this
      ensures Valid() && ops == old(ops) + Deletions(podNames) && Repr == old(Repr)
    {
      for i := 0 to |podNames|
        invariant Valid() && ops == old(ops) + Deletions(podNames[..i]) && Repr == old(Repr)
      {
        DeletePod(podNames[i]);
      }
    }

    method DeletePod(podName: string)
      requires Valid()
      modifies this
      ensures Valid() && ops == old(ops) + [Deleted(podName)] && Repr == old(Repr)
    {
      hide Since;
      pods := pods - {podName};
      SinceNext(ops, Deleted(podName));
      ops := ops + [Deleted(podName)];
    }
  }
}

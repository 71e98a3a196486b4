/** The pod-to-node map: whom it covers, that it is injective, and what it is over many rounds. */
module NodeScalerBindings {
  import opened Wrappers
  import opened ApiTypes
  import opened Sums
  import opened NodeScaler
  import opened NodeScalerMatching
  import opened NodeScalerPools
  import opened NodeScalerRounds
  import opened NodeScalerStability

  /** Every entry of the map is read off a bound node. */
  ghost predicate ReadOff(b: map<string, string>, nodes: seq<Node>, waiting: Pods) {
    forall p :: p in b ==> exists n :: n in nodes && StillBound(n, waiting) && n.bound == p && n.name == b[p]
  }

  lemma {:induction false} OldBindingsAreReadOff(nodes: seq<Node>, waiting: Pods)
    ensures ReadOff(OldBindings(nodes, waiting), nodes, waiting)
    ensures forall n :: n in nodes && StillBound(n, waiting) ==> n.bound in OldBindings(nodes, waiting)
  {
    if nodes != [] {
      var init, last := nodes[..|nodes| - 1], nodes[|nodes| - 1];
      assert nodes == init + [last];
      OldBindingsAreReadOff(init, waiting);
      hide StillBound;
      var b, b1 := OldBindings(init, waiting), OldBindings(nodes, waiting);
      forall p | p in b1 ensures exists n :: n in nodes && StillBound(n, waiting) && n.bound == p && n.name == b1[p] {
        if StillBound(last, waiting) && p == last.bound {
          assert last in nodes;
        } else {
          var n :| n in init && StillBound(n, waiting) && n.bound == p && n.name == b[p];
          assert n in nodes;
        }
      }
    }
  }

  // ---- names ----

  function Named(x: string): Node -> int {
    (n: Node) => if n.name == x then 1 else 0
  }

  /** No two entries of the list have the same name. */
  ghost predicate DistinctNames(nodes: seq<Node>) {
    forall x :: Sum(nodes, Named(x)) <= 1
  }

  /** DistinctNames says what its name says. */
  lemma {:induction false} DistinctNamesByIndex(nodes: seq<Node>)
    requires forall i, j :: 0 <= i < j < |nodes| ==> nodes[i].name != nodes[j].name
    ensures DistinctNames(nodes)
  {
    if nodes != [] {
      DistinctNamesByIndex(nodes[1..]);
      forall x ensures Sum(nodes, Named(x)) <= 1 {
        assert Sum(nodes[1..], Named(x)) <= 1;
        if nodes[0].name == x { SumZero(nodes[1..], Named(x)); }
      }
    }
  }

  lemma {:induction false} ClearedNames(nodes: seq<Node>, waiting: Pods, x: string)
    ensures Sum(AllCleared(nodes, waiting), Named(x)) == Sum(nodes, Named(x))
  {
    if nodes != [] {
      var init, last := nodes[..|nodes| - 1], nodes[|nodes| - 1];
      ClearedNames(init, waiting, x);
      SumConcat(init, [last], Named(x));
      assert nodes == init + [last];
      SumConcat(AllCleared(init, waiting), [Cleared(last, waiting)], Named(x));
    }
  }

  lemma {:induction false} PairNames(pairs: seq<Pair>, x: string)
    ensures Sum(BoundNodes(pairs), Named(x)) == Sum(PairNodes(pairs), Named(x))
  {
    if pairs != [] {
      var init, last := pairs[..|pairs| - 1], pairs[|pairs| - 1];
      PairNames(init, x);
      SumConcat(BoundNodes(init), [BoundNode(last)], Named(x));
      PairNodesSnoc(init, last);
      assert pairs == init + [last];
      SumConcat(PairNodes(init), [last.node], Named(x));
    }
  }

  lemma {:induction false} PairNodesSnoc(init: seq<Pair>, last: Pair)
    ensures PairNodes(init + [last]) == PairNodes(init) + [last.node]
  {
    if init == [] {
      assert init + [last] == [last];
    } else {
      assert (init + [last])[1..] == init[1..] + [last];
      PairNodesSnoc(init[1..], last);
    }
  }

  /** The nodes of a list are named by consecutive UUIDs. */
  ghost predicate NamedFrom(nodes: seq<Node>, uuid: nat -> string, k: nat) {
    forall i :: 0 <= i < |nodes| ==> nodes[i].name == uuid(k + i)
  }

  lemma {:induction false} NodesForPodsNames(cfg: Config, needy: seq<Pod>, uuid: nat -> string, k: nat)
    ensures NamedFrom(NodesForPods(cfg, needy, uuid, k), uuid, k)
  {
    if needy != [] {
      var made := CreateNodeForPod(cfg, needy[0], uuid(k));
      var k' := if made.Some? then k + 1 else k;
      NodesForPodsNames(cfg, needy[1..], uuid, k');
      if made.Some? {
        var rest := NodesForPods(cfg, needy[1..], uuid, k');
        assert NodesForPods(cfg, needy, uuid, k) == [made.value] + rest;
        forall i | 0 <= i < |rest| ensures rest[i].name == uuid(k + (i + 1)) { assert rest[i].name == uuid(k' + i); }
      }
    }
  }

  lemma NamedFromConcat(a: seq<Node>, b: seq<Node>, uuid: nat -> string, k: nat)
    requires NamedFrom(a, uuid, k) && NamedFrom(b, uuid, k + |a|)
    ensures NamedFrom(a + b, uuid, k)
  {}

  lemma {:induction false} NodesForPoolsNames(cfg: Config, order: seq<StandbySpec>, needed: map<StandbySpec, int>,
                                              uuid: nat -> string, k: nat)
    requires forall s :: s in order ==> s in needed
    ensures NamedFrom(NodesForPools(cfg, order, needed, uuid, k), uuid, k)
  {
    if order != [] {
      var r := StandbyNodes(cfg, order[0], needed[order[0]], uuid, k);
      NodesForPoolsNames(cfg, order[1..], needed, uuid, k + |r|);
      NamedFromConcat(r, NodesForPools(cfg, order[1..], needed, uuid, k + |r|), uuid, k);
    }
  }

  /** UUIDs do not repeat, and do not collide with names in use. */
  ghost predicate FreshNames(nodes: seq<Node>, uuid: nat -> string) {
    && (forall i: nat, j: nat :: i < j ==> uuid(i) != uuid(j))
    && (forall n, i: nat :: n in nodes ==> n.name != uuid(i))
  }

  lemma StartNames(cfg: Config, nodes: seq<Node>, pods: seq<Pod>, c: Choice, uuid: nat -> string)
    requires SpecsChosen(c.specs, cfg)
    ensures NamedFrom(Round(cfg, nodes, pods, c, uuid).Start(), uuid, 0)
  {
    hide Match, FillPools, NodesForPods, NodesForPools, Flatten, OldBindings, PodsChosen, NodesChosen, SpecsChosen,
         Waiting, NamedFrom;
    var o := Round(cfg, nodes, pods, c, uuid);
    NodesForPodsNames(cfg, o.matching.needy, uuid, 0);
    SpecsAreNeeded(cfg, c, o);
    NodesForPoolsNames(cfg, c.specs, o.pool.needed, uuid, |o.forPods|);
    NamedFromConcat(o.forPods, o.forPools, uuid, 0);
  }

  lemma FreshOnes(nodes: seq<Node>, start: seq<Node>, uuid: nat -> string, x: string)
    requires FreshNames(nodes, uuid) && NamedFrom(start, uuid, 0)
    ensures Sum(start, Named(x)) <= 1 && (Sum(start, Named(x)) == 0 || Sum(nodes, Named(x)) == 0)
  {
    forall i, j | 0 <= i < j < |start| ensures start[i].name != start[j].name {
      assert start[i].name == uuid(0 + i) && start[j].name == uuid(0 + j);
    }
    DistinctNamesByIndex(start);
    hide Sum;
    if forall n :: n in start ==> n.name != x {
      SumZero(start, Named(x));
    } else {
      var i :| 0 <= i < |start| && start[i].name == x;
      assert x == uuid(0 + i);
      SumZero(nodes, Named(x));
    }
  }

  /** A round neither duplicates a node nor reuses a name. */
  lemma DistinctNamesAfter(cfg: Config, nodes: seq<Node>, pods: seq<Pod>, c: Choice, uuid: nat -> string)
    requires ValidChoice(cfg, nodes, Waiting(pods), c)
    requires DistinctNames(nodes) && FreshNames(nodes, uuid)
    ensures DistinctNames(NodesAfter(nodes, Waiting(pods), Round(cfg, nodes, pods, c, uuid)))
  {
    hide Match, FillPools, NodesForPods, NodesForPools, Flatten, OldBindings, PodsChosen, NodesChosen, SpecsChosen,
         Waiting, NamedFrom, Sum, IdleNodes, StillNodes, BoundNodes, PairNodes, AllCleared, NodesAfter, FreshNames;
    var o, waiting := Round(cfg, nodes, pods, c, uuid), Waiting(pods);
    StartNames(cfg, nodes, pods, c, uuid);
    Conservation(cfg, nodes, pods, c, uuid);
    forall x ensures Sum(NodesAfter(nodes, waiting, o), Named(x)) <= 1 {
      NameCount(cfg, nodes, waiting, o, x);
      FreshOnes(nodes, o.Start(), uuid, x);
      SumNonnegative(o.stop, Named(x));
      SumConcat(o.forPods, o.forPools, Named(x));
    }
  }

  lemma NameCount(cfg: Config, nodes: seq<Node>, waiting: Pods, o: Outcome, x: string)
    requires multiset(IdleNodes(nodes)) + multiset(StillNodes(nodes, waiting)) + multiset(PairNodes(o.matching.pairs))
      + multiset(Flatten(o.pool.kept)) + multiset(o.stop) == multiset(AllCleared(nodes, waiting))
    ensures Sum(NodesAfter(nodes, waiting, o), Named(x)) + Sum(o.stop, Named(x))
      == Sum(nodes, Named(x)) + Sum(o.forPods, Named(x)) + Sum(o.forPools, Named(x))
  {
    hide Flatten, Sum, IdleNodes, StillNodes, BoundNodes, PairNodes, AllCleared, NodesAfter, Named;
    var idle, still, paired, kept :=
      IdleNodes(nodes), StillNodes(nodes, waiting), PairNodes(o.matching.pairs), Flatten(o.pool.kept);
    SumAfter(nodes, waiting, o, Named(x));
    PairNames(o.matching.pairs, x);
    ClearedNames(nodes, waiting, x);
    SumIgnoresOrder(idle + still + paired + kept + o.stop, AllCleared(nodes, waiting), Named(x));
    SumConcat(idle + still + paired + kept, o.stop, Named(x));
    SumConcat(idle + still + paired, kept, Named(x));
    SumConcat(idle + still, paired, Named(x));
    SumConcat(idle, still, Named(x));
  }

  /** The returned map is injective. */
  lemma BindingsInjective(cfg: Config, nodes: seq<Node>, pods: seq<Pod>, c: Choice, uuid: nat -> string)
    requires ValidChoice(cfg, nodes, Waiting(pods), c) && "" !in Waiting(pods)
    requires DistinctNames(nodes) && FreshNames(nodes, uuid)
    ensures var b := Round(cfg, nodes, pods, c, uuid).bindings;
      forall p, q :: p in b && q in b && b[p] == b[q] ==> p == q
  {
    hide Round, OldBindings, PodsChosen, NodesChosen, SpecsChosen, Waiting, Sum, NodesAfter, FreshNames, StillBound;
    var o, waiting := Round(cfg, nodes, pods, c, uuid), Waiting(pods);
    var after, b := NodesAfter(nodes, waiting, o), o.bindings;
    BindingsAreRederived(cfg, nodes, pods, c, uuid);
    OldBindingsAreReadOff(after, waiting);
    DistinctNamesAfter(cfg, nodes, pods, c, uuid);
    forall p, q | p in b && q in b && b[p] == b[q] ensures p == q {
      var m :| m in after && StillBound(m, waiting) && m.bound == p && m.name == b[p];
      var n :| n in after && StillBound(n, waiting) && n.bound == q && n.name == b[q];
      SumOne(after, Named(b[p]), m, n);
    }
  }

  // ---- coverage ----

  /** The map binds a waiting pod exactly if the pod is not one that found no node and that the
    * cloud cannot serve; it binds nothing else. */
  lemma Coverage(cfg: Config, nodes: seq<Node>, pods: seq<Pod>, c: Choice, uuid: nat -> string, p: string)
    requires ValidChoice(cfg, nodes, Waiting(pods), c) && "" !in Waiting(pods)
      && forall n :: n in nodes ==> n.name != ""
    ensures var o := Round(cfg, nodes, pods, c, uuid); var waiting := Waiting(pods);
      p in o.bindings <==> p in waiting && (waiting[p] in o.matching.needy ==> Servable(cfg, waiting[p]))
  {
    hide Round, OldBindings, Waiting, NodesAfter, StillBound, PodsChosen, NodesChosen, SpecsChosen, Match,
         NodesForPods, Servable;
    var o, waiting := Round(cfg, nodes, pods, c, uuid), Waiting(pods);
    BindingsAreRederived(cfg, nodes, pods, c, uuid);
    var after := NodesAfter(nodes, waiting, o);
    OldBindingsAreReadOff(after, waiting);
    if p in o.bindings {
      var n :| n in after && StillBound(n, waiting) && n.bound == p && n.name == o.bindings[p];
      BoundWaits(n, waiting);
      if waiting[p] in o.matching.needy { NeedyIsServable(cfg, nodes, pods, c, uuid, n); }
    } else if p in waiting {
      UncoveredIsUnservable(cfg, nodes, pods, c, uuid, waiting[p]);
    }
  }

  lemma BoundWaits(n: Node, waiting: Pods)
    requires StillBound(n, waiting)
    ensures n.bound in waiting
  {}

  /** A needy pod to which some node is bound after the round can be served. */
  lemma NeedyIsServable(cfg: Config, nodes: seq<Node>, pods: seq<Pod>, c: Choice, uuid: nat -> string, n: Node)
    requires ValidChoice(cfg, nodes, Waiting(pods), c) && "" !in Waiting(pods)
      && forall m :: m in nodes ==> m.name != ""
    requires var o := Round(cfg, nodes, pods, c, uuid); var waiting := Waiting(pods);
      && n in NodesAfter(nodes, waiting, o) && StillBound(n, waiting)
      && n.bound in waiting && waiting[n.bound] in o.matching.needy
    ensures Servable(cfg, Waiting(pods)[n.bound])
  {
    hide OldBindings, Waiting, NodesAfter, StillBound, PodsChosen, NodesChosen, SpecsChosen, Match, NodesForPods,
         NodesForPools, FillPools, Sum, BoundNodes;
    var o, waiting := Round(cfg, nodes, pods, c, uuid), Waiting(pods);
    var q := waiting[n.bound];
    NeedyAreFromChoice(cfg, c, q);
    ChosenPodWaits(c.pods, nodes, waiting, q);
    BoundAfter(cfg, nodes, pods, c, uuid, n);
    if n in nodes {
      OldBindingsAreReadOff(nodes, waiting);
      assert false;
    } else if n in o.forPods {
      var r := NewNodeIsStillBound(cfg, nodes, waiting, c, uuid, n);
      ChosenPodWaits(c.pods, nodes, waiting, r);
      assert r == q;
    } else {
      NeedyIsNotPaired(cfg, nodes, waiting, c, n, q);
    }
  }

  lemma NeedyIsNotPaired(cfg: Config, nodes: seq<Node>, waiting: Pods, c: Choice, n: Node, q: Pod)
    requires PodsChosen(c.pods, nodes, waiting)
    requires var m := Match(cfg, c.pods, c.nodes); n in BoundNodes(m.pairs) && q in m.needy
    ensures n.bound != q.name
  {
    hide OldBindings, Match, Sum, BoundNodes, PairPods, PairNodes;
    var m := Match(cfg, c.pods, c.nodes);
    var f := PodNamed(q.name);
    ChosenOnce(c.pods, q.name);
    MatchConserves(cfg, c.pods, c.nodes);
    SumIgnoresOrder(PairPods(m.pairs) + m.needy, c.pods, f);
    SumConcat(PairPods(m.pairs), m.needy, f);
    PairsBindPods(m.pairs, q.name);
    SumAtLeast(m.needy, f, q);
    SumAtLeast(BoundNodes(m.pairs), BoundTo(q.name), n);
  }

  /** A waiting pod that is not needy, or that can be served, is bound. */
  lemma UncoveredIsUnservable(cfg: Config, nodes: seq<Node>, pods: seq<Pod>, c: Choice, uuid: nat -> string, q: Pod)
    requires ValidChoice(cfg, nodes, Waiting(pods), c) && "" !in Waiting(pods)
      && forall m :: m in nodes ==> m.name != ""
    requires q.name in Waiting(pods) && Waiting(pods)[q.name] == q
    ensures var o := Round(cfg, nodes, pods, c, uuid);
      q.name in o.bindings || (q in o.matching.needy && !Servable(cfg, q))
  {
    hide OldBindings, Waiting, NodesAfter, StillBound, NodesChosen, SpecsChosen, Match, NodesForPods, NodesForPools,
         FillPools, PairPods, Servable;
    var o, waiting := Round(cfg, nodes, pods, c, uuid), Waiting(pods);
    if NeedsNode(q.name, waiting, OldBindings(nodes, waiting)) {
      assert q in c.pods;
      hide PodsChosen;
      MatchConserves(cfg, c.pods, c.nodes);
      var m := o.matching;
      assert q in multiset(c.pods);
      assert q in multiset(PairPods(m.pairs)) || q in multiset(m.needy);
      if q in PairPods(m.pairs) {
        PairPodIsBound(m.pairs, q);
      } else if Servable(cfg, q) {
        var n := PodGetsNode(cfg, m.needy, uuid, 0, q);
        NewIsBound(o.forPods, n);
      }
    }
  }

  lemma {:induction false} PairPodIsBound(pairs: seq<Pair>, q: Pod)
    requires q in PairPods(pairs)
    ensures q.name in PairBindings(pairs)
  {
    var init, last := pairs[..|pairs| - 1], pairs[|pairs| - 1];
    assert pairs == init + [last];
    PairPodsSnoc(init, last);
    if q in PairPods(init) { PairPodIsBound(init, q); }
  }

  lemma {:induction false} NewIsBound(nodes: seq<Node>, n: Node)
    requires n in nodes
    ensures n.bound in NewBindings(nodes)
  {
    if n != nodes[|nodes| - 1] { NewIsBound(nodes[..|nodes| - 1], n); }
  }

  // ---- fit ----

  ghost predicate SpotKnown(waiting: Pods) {
    forall p :: p in waiting ==> !waiting[p].spec.spot.SpotOther?
  }

  predicate NamesPod(n: Node, p: string) {
    n.phase in {NodeCreating, NodeCreated, NodeAvailable} && n.bound == p && p != ""
  }

  /** Every live node that names a waiting pod is what that pod asks for, field by field. */
  ghost predicate BoundNodesFit(cfg: Config, nodes: seq<Node>, waiting: Pods) {
    forall n, p :: n in nodes && p in waiting && NamesPod(n, p) ==> Suits(cfg, waiting[p].spec, n.spec)
  }

  /** A round only makes bindings that fit. */
  lemma RoundFits(cfg: Config, nodes: seq<Node>, pods: seq<Pod>, c: Choice, uuid: nat -> string)
    requires ValidChoice(cfg, nodes, Waiting(pods), c) && "" !in Waiting(pods)
    requires SpotKnown(Waiting(pods)) && BoundNodesFit(cfg, nodes, Waiting(pods))
    ensures BoundNodesFit(cfg, NodesAfter(nodes, Waiting(pods), Round(cfg, nodes, pods, c, uuid)), Waiting(pods))
  {
    hide Match, FillPools, NodesForPods, NodesForPools, Flatten, OldBindings, BoundNodes, PodsChosen, NodesChosen,
         SpecsChosen, Waiting, IdleNodes, StillNodes, PodMatchesNode, NodesAfter, CreateNodeForPod, Suits;
    var o, waiting := Round(cfg, nodes, pods, c, uuid), Waiting(pods);
    forall n, b | n in NodesAfter(nodes, waiting, o) && b in waiting && NamesPod(n, b)
      ensures Suits(cfg, waiting[b].spec, n.spec)
    {
      BoundAfter(cfg, nodes, pods, c, uuid, n);
      if n in BoundNodes(o.matching.pairs) {
        var p := PairIsStillBound(cfg, nodes, waiting, c, n);
        ChosenPodWaits(c.pods, nodes, waiting, p.pod);
        PairsFit(cfg, c.pods, c.nodes);
      } else if n in o.forPods {
        var q := NewNodeIsStillBound(cfg, nodes, waiting, c, uuid, n);
        ChosenPodWaits(c.pods, nodes, waiting, q);
        CreatedNodeIs(cfg, q, n);
        CreatedNodeFits(cfg, q, n.name);
        MatchMeans(cfg, q.spec, n.spec);
      }
    }
  }

  lemma CreatedNodeIs(cfg: Config, q: Pod, n: Node)
    requires CreateNodeForPod(cfg, q, n.name) == Some(n)
    ensures n.bound == q.name && CreateNodeForPod(cfg, q, n.name).value == n
  {}

  // ---- repeated rounds ----

  /** A live node that names a pod. */
  predicate LiveBound(n: Node) {
    AvailableOrBaking(n) && n.bound != ""
  }

  /** No two live nodes name the same pod, whether or not it waits. */
  ghost predicate LiveOnce(nodes: seq<Node>) {
    forall m, n :: m in nodes && n in nodes && LiveBound(m) && LiveBound(n) && m.bound == n.bound ==> m.name == n.name
  }

  /** Between two rounds nodes change phase, disappear or are added, but nobody binds a node. */
  ghost predicate Evolves(before: seq<Node>, after: seq<Node>) {
    && (forall n :: n in after ==> n.name != "")
    && (forall n :: n in after && LiveBound(n) ==>
        exists m :: m in before && LiveBound(m) && m.name == n.name && m.bound == n.bound)
  }

  /** What a round meets; the cloud's answer about availability may change from round to round. */
  datatype Input = Input(
    nodes: seq<Node>, pods: seq<Pod>, choice: Choice, uuid: nat -> string,
    unavailable: (string, bool, bool, string) -> bool)

  /** The configuration, with the cloud's answer in this round. */
  function At(cfg: Config, i: Input): Config {
    cfg.(unavailable := i.unavailable)
  }

  ghost predicate ValidInput(cfg: Config, i: Input) {
    ValidChoice(At(cfg, i), i.nodes, Waiting(i.pods), i.choice) && "" !in Waiting(i.pods)
  }

  ghost function OutcomeOf(cfg: Config, i: Input): Outcome
    requires ValidInput(cfg, i)
  {
    Round(At(cfg, i), i.nodes, i.pods, i.choice, i.uuid)
  }

  ghost function After(cfg: Config, i: Input): seq<Node>
    requires ValidInput(cfg, i)
  {
    NodesAfter(i.nodes, Waiting(i.pods), OutcomeOf(cfg, i))
  }

  /** Rounds with arbitrary pod lists and any availability in the cloud, each on what became of the
    * nodes the last one left. */
  ghost predicate Rounds(cfg: Config, run: seq<Input>) {
    && (forall k :: 0 <= k < |run| ==> ValidInput(cfg, run[k]))
    && (forall k, next :: 0 <= k < |run| && next == k + 1 < |run| ==> Evolves(After(cfg, run[k]), run[next].nodes))
  }

  /** After a round, every live node that names a pod is bound to a waiting one. */
  lemma LiveAreBound(cfg: Config, i: Input, n: Node)
    requires ValidInput(cfg, i) && n in After(cfg, i) && LiveBound(n)
    ensures StillBound(n, Waiting(i.pods))
  {
    hide Match, FillPools, NodesForPods, NodesForPools, Flatten, OldBindings, BoundNodes, PodsChosen, NodesChosen,
         SpecsChosen, Waiting, IdleNodes, StillNodes;
    var o, waiting := OutcomeOf(cfg, i), Waiting(i.pods);
    var cfg := At(cfg, i);
    StillNodesAre(i.nodes, waiting);
    if n in BoundNodes(o.matching.pairs) {
      var p := PairIsStillBound(cfg, i.nodes, waiting, i.choice, n);
    } else if n in o.forPods {
      var q := NewNodeIsStillBound(cfg, i.nodes, waiting, i.choice, i.uuid, n);
    } else if n in Flatten(o.pool.kept) {
      KeptAreUnbound(cfg, i.nodes, waiting, i.choice, n);
    } else if n in o.forPools {
      SpecsAreNeeded(cfg, i.choice, o);
      PoolNodesAreUnbound(cfg, i.choice.specs, o.pool.needed, i.uuid, |o.forPods|);
    }
  }

  lemma LiveOnceAfter(cfg: Config, i: Input)
    requires ValidInput(cfg, i) && LiveOnce(i.nodes) && forall n :: n in i.nodes ==> n.name != ""
    ensures OneNodePerPod(i.nodes, Waiting(i.pods)) && LiveOnce(After(cfg, i))
    ensures OneNodePerPod(After(cfg, i), Waiting(i.pods))
  {
    hide Round, OldBindings, PodsChosen, NodesChosen, SpecsChosen, Waiting, NodesAfter;
    var waiting := Waiting(i.pods);
    OneNodePerPodAfter(At(cfg, i), i.nodes, i.pods, i.choice, i.uuid);
    forall m, n | m in After(cfg, i) && n in After(cfg, i) && LiveBound(m) && LiveBound(n) && m.bound == n.bound
      ensures m.name == n.name {
      LiveAreBound(cfg, i, m);
      LiveAreBound(cfg, i, n);
    }
  }

  lemma LiveOnceEvolves(before: seq<Node>, after: seq<Node>)
    requires LiveOnce(before) && Evolves(before, after)
    ensures LiveOnce(after)
  {}

  lemma {:induction false} LiveOnceAlways(cfg: Config, run: seq<Input>, k: nat)
    requires Rounds(cfg, run) && k < |run| && LiveOnce(run[0].nodes) && forall n :: n in run[0].nodes ==> n.name != ""
    ensures LiveOnce(run[k].nodes) && forall n :: n in run[k].nodes ==> n.name != ""
  {
    hide ValidInput, LiveBound, After, LiveOnce;
    if k > 0 {
      LiveOnceAlways(cfg, run, k - 1);
      assert ValidInput(cfg, run[k - 1]);
      LiveOnceAfter(cfg, run[k - 1]);
      assert Evolves(After(cfg, run[k - 1]), run[k].nodes);
      LiveOnceEvolves(After(cfg, run[k - 1]), run[k].nodes);
    }
  }

  /** Over any number of rounds the returned map and BoundPodName are inverse to each other. */
  lemma MutualInverses(cfg: Config, run: seq<Input>, k: nat)
    requires Rounds(cfg, run) && k < |run| && LiveOnce(run[0].nodes) && forall n :: n in run[0].nodes ==> n.name != ""
    ensures ValidInput(cfg, run[k])
    ensures BindingOf(OutcomeOf(cfg, run[k]).bindings, After(cfg, run[k]), Waiting(run[k].pods))
  {
    hide Round, OldBindings, PodsChosen, NodesChosen, SpecsChosen, NodesAfter, BindingOf, OneNodePerPod, LiveBound,
         StillBound;
    LiveOnceAlways(cfg, run, k);
    var i := run[k];
    assert ValidInput(cfg, i);
    LiveOnceAfter(cfg, i);
    OldBindingsAreBindings(After(cfg, i), Waiting(i.pods));
    BindingsAreRederived(At(cfg, i), i.nodes, i.pods, i.choice, i.uuid);
  }
}

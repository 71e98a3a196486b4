/** Guarantees of a whole scaling round, and of a round run again on what the last one left. */
module NodeScalerRounds {
  import opened Wrappers
  import opened ApiTypes
  import opened Sums
  import opened NodeScaler
  import opened NodeScalerMatching
  import opened NodeScalerPools

  type Pods = map<string, Pod>

  // ---- the nodes that a round leaves behind ----

  function StillNodes(nodes: seq<Node>, waiting: Pods): seq<Node> {
    if nodes == [] then [] else
      var n := nodes[|nodes| - 1];
      StillNodes(nodes[..|nodes| - 1], waiting) + if StillBound(n, waiting) then [n] else []
  }

  /** Nodes in a phase that the scaler does not look at. */
  function IdleNodes(nodes: seq<Node>): seq<Node> {
    if nodes == [] then [] else
      var n := nodes[|nodes| - 1];
      IdleNodes(nodes[..|nodes| - 1]) + if AvailableOrBaking(n) then [] else [n]
  }

  function Cleared(n: Node, waiting: Pods): Node {
    if Unbound(n, waiting) then n.(bound := "") else n
  }

  /** All nodes, with the bindings to pods that no longer wait removed. */
  function AllCleared(nodes: seq<Node>, waiting: Pods): seq<Node> {
    if nodes == [] then [] else AllCleared(nodes[..|nodes| - 1], waiting) + [Cleared(nodes[|nodes| - 1], waiting)]
  }

  lemma {:induction false} EveryNodeIsOneOfThree(nodes: seq<Node>, waiting: Pods)
    ensures multiset(IdleNodes(nodes)) + multiset(StillNodes(nodes, waiting)) + multiset(UnboundNodes(nodes, waiting))
         == multiset(AllCleared(nodes, waiting))
  {
    if nodes != [] {
      EveryNodeIsOneOfThree(nodes[..|nodes| - 1], waiting);
    }
  }

  function BoundNode(p: Pair): Node {
    p.node.(bound := p.pod.name)
  }

  function BoundNodes(pairs: seq<Pair>): seq<Node> {
    if pairs == [] then [] else BoundNodes(pairs[..|pairs| - 1]) + [BoundNode(pairs[|pairs| - 1])]
  }

  /** The nodes known after the round: old nodes with their new bindings, without those to be
    * stopped, and with those to be started. */
  function NodesAfter(nodes: seq<Node>, waiting: Pods, o: Outcome): seq<Node> {
    IdleNodes(nodes) + StillNodes(nodes, waiting) + BoundNodes(o.matching.pairs) + Flatten(o.pool.kept) + o.Start()
  }

  /** Conservation: every node the scaler looks at stays bound, is newly bound, is kept as standby or
    * is stopped, and exactly one of these. */
  lemma Conservation(cfg: Config, nodes: seq<Node>, pods: seq<Pod>, c: Choice, uuid: nat -> string)
    requires ValidChoice(cfg, nodes, Waiting(pods), c)
    ensures var o := Round(cfg, nodes, pods, c, uuid); var waiting := Waiting(pods);
      multiset(IdleNodes(nodes)) + multiset(StillNodes(nodes, waiting))
        + multiset(PairNodes(o.matching.pairs)) + multiset(Flatten(o.pool.kept)) + multiset(o.stop)
        == multiset(AllCleared(nodes, waiting))
  {
    hide Match, FillPools, NodesForPods, NodesForPools, IdleNodes, StillNodes, UnboundNodes, Flatten, PairNodes;
    var o, waiting := Round(cfg, nodes, pods, c, uuid), Waiting(pods);
    EveryNodeIsOneOfThree(nodes, waiting);
    MatchConserves(cfg, c.pods, c.nodes);
    FillConserves(cfg, cfg.standby, o.matching.left);
  }

  /** Maximality and priority, for the round, on the fields of pods and nodes: no node kept or stopped
    * suits a pod that found none, and no node given to a pod without a zone suits a pod with a zone
    * that found none. */
  lemma Maximality(cfg: Config, nodes: seq<Node>, pods: seq<Pod>, c: Choice, uuid: nat -> string)
    requires ValidChoice(cfg, nodes, Waiting(pods), c)
    ensures
      var o := Round(cfg, nodes, pods, c, uuid);
      && (forall q, n :: q in o.matching.needy && n in o.stop + Flatten(o.pool.kept) ==> !Suits(cfg, q.spec, n.spec))
      && (forall q, p ::
            q in o.matching.needy && q.spec.zone != "" && p in o.matching.pairs && p.pod.spec.zone == "" ==>
              !Suits(cfg, q.spec, p.node.spec))
  {
    hide Match, FillPools, NodesForPods, NodesForPools, PodMatchesNode, Flatten, Suits;
    var o := Round(cfg, nodes, pods, c, uuid);
    NeedyFitNothingLeft(cfg, c.pods, c.nodes);
    PlacedPodsComeFirst(cfg, c.pods, c.nodes);
    FillConserves(cfg, cfg.standby, o.matching.left);
    forall q, n | q in o.matching.needy && n in o.stop + Flatten(o.pool.kept) ensures !Suits(cfg, q.spec, n.spec) {
      FitsIgnoresOrder(cfg, q, o.stop, o.matching.left);
      FitsIgnoresOrder(cfg, q, Flatten(o.pool.kept), o.matching.left);
      MatchMeans(cfg, q.spec, n.spec);
    }
    forall q, p | q in o.matching.needy && q.spec.zone != "" && p in o.matching.pairs && p.pod.spec.zone == ""
      ensures !Suits(cfg, q.spec, p.node.spec)
    {
      MatchMeans(cfg, q.spec, p.node.spec);
    }
  }

  /** What becomes of one node, by its phase and binding.  Nodes in use or on their way out are not
    * touched; those bound to a waiting pod stay bound; all others are offered to the pods. */
  lemma OneNode(cfg: Config, nodes: seq<Node>, pods: seq<Pod>, c: Choice, uuid: nat -> string, n: Node)
    requires ValidChoice(cfg, nodes, Waiting(pods), c) && n in nodes
    ensures
      var o := Round(cfg, nodes, pods, c, uuid);
      var waits := exists p :: p in pods && p.phase == PodWaiting && p.name == n.bound;
      if n.phase in {NodeClaimed, NodeCleaning, NodeTerminating, NodeTerminated} || (n.bound != "" && waits) then
        n in NodesAfter(nodes, Waiting(pods), o)
      else
        var free := n.(bound := "");
        || (exists p :: p in o.matching.pairs && p.node == free)
        || free in Flatten(o.pool.kept) || free in o.stop
  {
    hide Match, FillPools, NodesForPods, NodesForPools, Flatten, OldBindings, IdleNodes, StillNodes, UnboundNodes,
         PodsChosen, SpecsChosen;
    var o, waiting := Round(cfg, nodes, pods, c, uuid), Waiting(pods);
    StillNodesAre(nodes, waiting);
    WaitingMeans(pods, n.bound);
    hide Waiting;
    if Unbound(n, waiting) {
      var free := n.(bound := "");
      UnboundIsOffered(nodes, waiting, n);
      MatchConserves(cfg, c.pods, c.nodes);
      FillConserves(cfg, cfg.standby, o.matching.left);
      assert free in multiset(c.nodes);
      assert free in multiset(PairNodes(o.matching.pairs)) || free in multiset(Flatten(o.pool.kept))
        || free in multiset(o.stop);
      if free in PairNodes(o.matching.pairs) { var p := NodeOfPair(o.matching.pairs, free); }
    }
  }

  lemma {:induction false} NodeOfPair(pairs: seq<Pair>, n: Node) returns (p: Pair)
    requires n in PairNodes(pairs)
    ensures p in pairs && p.node == n
  {
    p := pairs[0];
    if p.node != n { p := NodeOfPair(pairs[1..], n); }
  }

  lemma WaitingMeans(pods: seq<Pod>, name: string)
    ensures name in Waiting(pods) <==> exists p :: p in pods && p.phase == PodWaiting && p.name == name
  {
    var w := Waiting(pods);
    if p :| p in pods && p.phase == PodWaiting && p.name == name {
      var i :| 0 <= i < |pods| && pods[i] == p;
    }
  }

  lemma {:induction false} UnboundIsOffered(nodes: seq<Node>, waiting: Pods, n: Node)
    requires n in nodes && Unbound(n, waiting)
    ensures n.(bound := "") in UnboundNodes(nodes, waiting)
  {
    hide Unbound;
    if n != nodes[|nodes| - 1] { UnboundIsOffered(nodes[..|nodes| - 1], waiting, n); }
  }

  /** What is created for the pools is, class by class, what they are short of. */
  lemma CreatedForPools(cfg: Config, c: Choice, o: Outcome, uuid: nat -> string, class_: Class)
    requires SpecsChosen(c.specs, cfg) && Distinct(cfg.standby) && NonnegativeCounts(cfg.standby)
    requires o.pool == FillPools(cfg, cfg.standby, o.matching.left)
    ensures Count(cfg, class_, NodesForPools(cfg, c.specs, o.pool.needed, uuid, |o.forPods|))
      == Short(class_, cfg.standby, o.pool.needed)
  {
    hide FillPools, Sum;
    forall s | s in c.specs ensures s in o.pool.needed && o.pool.needed[s] >= 0 {
      var i :| 0 <= i < |cfg.standby| && cfg.standby[i] == s;
      KeptPlusNeeded(cfg, cfg.standby, o.matching.left, i);
    }
    CreatedCounts(cfg, c.specs, o.pool.needed, uuid, |o.forPods|, class_);
    SameElements(c.specs, cfg.standby);
    SumIgnoresOrder(c.specs, cfg.standby, NeedFor(class_, o.pool.needed));
  }

  /** For distinct specs, the nodes kept and those that the round creates for the pools are, class by
    * class, as many as the specs want together. */
  lemma StandbyPools(cfg: Config, nodes: seq<Node>, pods: seq<Pod>, c: Choice, uuid: nat -> string, class_: Class)
    requires ValidChoice(cfg, nodes, Waiting(pods), c) && Distinct(cfg.standby) && NonnegativeCounts(cfg.standby)
    ensures var o := Round(cfg, nodes, pods, c, uuid);
      Count(cfg, class_, Flatten(o.pool.kept)) + Count(cfg, class_, o.forPools) == Wanted(class_, cfg.standby)
  {
    hide Match, FillPools, NodesForPods, NodesForPools, Flatten, OldBindings, PodsChosen, NodesChosen, Waiting, Count,
         Wanted, Short;
    var o := Round(cfg, nodes, pods, c, uuid);
    FillCounts(cfg, cfg.standby, o.matching.left, class_);
    CreatedForPools(cfg, c, o, uuid, class_);
  }

  /** A node created for the pools was created for a spec that is short of nodes. */
  lemma {:induction false} CreatedForSpec(cfg: Config, order: seq<StandbySpec>, needed: map<StandbySpec, int>,
                                          uuid: nat -> string, k: nat, m: Node)
    returns (s: StandbySpec)
    requires (forall x :: x in order ==> x in needed) && m in NodesForPools(cfg, order, needed, uuid, k)
    ensures s in order && needed[s] > 0 && NodeMatchesStandbySpec(cfg, m.spec, s)
  {
    var r := StandbyNodes(cfg, order[0], needed[order[0]], uuid, k);
    if m in r {
      s := order[0];
    } else {
      s := CreatedForSpec(cfg, order[1..], needed, uuid, k + |r|, m);
    }
  }

  /** A round never creates a standby node and stops one that would have done as well. */
  lemma NoStopWhileCreating(cfg: Config, nodes: seq<Node>, pods: seq<Pod>, c: Choice, uuid: nat -> string, m: Node,
                            n: Node)
    requires ValidChoice(cfg, nodes, Waiting(pods), c)
    requires var o := Round(cfg, nodes, pods, c, uuid); m in o.forPools && n in o.stop
    ensures !InClass(cfg, n.spec, Class(m.spec.instanceType, m.spec.spot))
  {
    hide Match, FillPools, NodesForPods, NodesForPools, OldBindings, PodsChosen, NodesChosen, SpecsChosen, Waiting;
    var o := Round(cfg, nodes, pods, c, uuid);
    SpecsAreNeeded(cfg, c, o);
    var s := CreatedForSpec(cfg, c.specs, o.pool.needed, uuid, |o.forPods|, m);
    NeverStopWhileShort(cfg, cfg.standby, o.matching.left);
    assert s in cfg.standby by { SpecIsStandby(cfg, c, s); }
  }

  lemma SpecIsStandby(cfg: Config, c: Choice, s: StandbySpec)
    requires SpecsChosen(c.specs, cfg) && s in c.specs
    ensures s in cfg.standby
  {}

  // ---- bindings ----

  /** `b` and the nodes' bound pods are inverse to each other, on the waiting pods. */
  ghost predicate BindingOf(b: map<string, string>, nodes: seq<Node>, waiting: Pods) {
    && (forall n :: n in nodes && StillBound(n, waiting) ==> n.bound in b && b[n.bound] == n.name)
    && (forall p :: p in b ==> exists n :: n in nodes && StillBound(n, waiting) && n.bound == p)
  }

  lemma BindingIsDetermined(a: map<string, string>, b: map<string, string>, x: seq<Node>, y: seq<Node>, waiting: Pods)
    requires BindingOf(a, x, waiting) && BindingOf(b, y, waiting) && forall n :: n in x <==> n in y
    ensures a == b
  {}

  /** No two nodes with different names are bound to the same waiting pod. */
  ghost predicate OneNodePerPod(nodes: seq<Node>, waiting: Pods) {
    forall m, n ::
      (m in nodes && n in nodes && StillBound(m, waiting) && StillBound(n, waiting) && m.bound == n.bound) ==>
        m.name == n.name
  }

  lemma {:induction false} OldBindingsAreBindings(nodes: seq<Node>, waiting: Pods)
    requires OneNodePerPod(nodes, waiting)
    ensures BindingOf(OldBindings(nodes, waiting), nodes, waiting)
  {
    if nodes != [] {
      var init, n := nodes[..|nodes| - 1], nodes[|nodes| - 1];
      assert nodes == init + [n];
      OldBindingsAreBindings(init, waiting);
      hide StillBound;
      var b, b1 := OldBindings(init, waiting), OldBindings(nodes, waiting);
      forall p | p in b1 ensures exists m :: m in nodes && StillBound(m, waiting) && m.bound == p {
        if p in b {
          var m :| m in init && StillBound(m, waiting) && m.bound == p;
          assert m in nodes;
        } else {
          assert n in nodes;
        }
      }
    }
  }

  lemma {:induction false} StillNodesAre(nodes: seq<Node>, waiting: Pods)
    ensures forall n :: n in StillNodes(nodes, waiting) <==> n in nodes && StillBound(n, waiting)
    ensures forall n :: n in IdleNodes(nodes) <==> n in nodes && !AvailableOrBaking(n)
    ensures forall n :: n in UnboundNodes(nodes, waiting) ==> AvailableOrBaking(n) && n.bound == ""
  {
    if nodes != [] {
      StillNodesAre(nodes[..|nodes| - 1], waiting);
      assert nodes == nodes[..|nodes| - 1] + [nodes[|nodes| - 1]];
    }
  }

  // ---- the returned map is what the next round will read off the nodes ----

  lemma {:induction false} OldBindingsConcat(a: seq<Node>, b: seq<Node>, waiting: Pods)
    ensures OldBindings(a + b, waiting) == OldBindings(a, waiting) + OldBindings(b, waiting)
  {
    hide StillBound;
    if b == [] {
      assert a + b == a;
    } else {
      var init := b[..|b| - 1];
      assert (a + b)[..|a + b| - 1] == a + init;
      OldBindingsConcat(a, init, waiting);
    }
  }

  lemma OldBindingsOfStill(nodes: seq<Node>, waiting: Pods)
    ensures OldBindings(IdleNodes(nodes) + StillNodes(nodes, waiting), waiting) == OldBindings(nodes, waiting)
  {
    NoneStillBound(IdleNodes(nodes), waiting) by { StillNodesAre(nodes, waiting); }
    OldBindingsConcat(IdleNodes(nodes), StillNodes(nodes, waiting), waiting);
    OldBindingsOfStillNodes(nodes, waiting);
  }

  lemma {:induction false} OldBindingsOfStillNodes(nodes: seq<Node>, waiting: Pods)
    ensures OldBindings(StillNodes(nodes, waiting), waiting) == OldBindings(nodes, waiting)
  {
    if nodes != [] {
      var init, n := nodes[..|nodes| - 1], nodes[|nodes| - 1];
      OldBindingsOfStillNodes(init, waiting);
      if StillBound(n, waiting) {
        hide StillBound;
        var s := StillNodes(init, waiting) + [n];
        assert s[..|s| - 1] == StillNodes(init, waiting);
      } else {
        assert StillNodes(nodes, waiting) == StillNodes(init, waiting);
      }
    }
  }

  lemma {:induction false} NoneStillBound(nodes: seq<Node>, waiting: Pods)
    requires forall n :: n in nodes ==> !StillBound(n, waiting)
    ensures OldBindings(nodes, waiting) == map[]
  {
    if nodes != [] { NoneStillBound(nodes[..|nodes| - 1], waiting); }
  }

  lemma {:induction false} AllStillBound(nodes: seq<Node>, waiting: Pods)
    requires forall n :: n in nodes ==> StillBound(n, waiting)
    ensures OldBindings(nodes, waiting) == NewBindings(nodes)
  {
    if nodes != [] { AllStillBound(nodes[..|nodes| - 1], waiting); }
  }

  lemma {:induction false} BindingsOfPairs(pairs: seq<Pair>)
    ensures NewBindings(BoundNodes(pairs)) == PairBindings(pairs)
    ensures |BoundNodes(pairs)| == |pairs|
      && forall i :: 0 <= i < |pairs| ==> BoundNodes(pairs)[i] == BoundNode(pairs[i])
  {
    if pairs != [] {
      BindingsOfPairs(pairs[..|pairs| - 1]);
      var b := BoundNodes(pairs);
      assert b[..|b| - 1] == BoundNodes(pairs[..|pairs| - 1]);
    }
  }

  lemma ChosenPodWaits(chosen: seq<Pod>, nodes: seq<Node>, waiting: Pods, p: Pod)
    requires PodsChosen(chosen, nodes, waiting) && p in chosen
    ensures p.name in waiting && waiting[p.name] == p
    ensures p.name !in OldBindings(nodes, waiting) || OldBindings(nodes, waiting)[p.name] == ""
  {}

  /** Pairs join a chosen pod and an unbound node. */
  lemma PairsAreFromChoice(cfg: Config, c: Choice, p: Pair)
    requires p in Match(cfg, c.pods, c.nodes).pairs
    ensures p.pod in c.pods && p.node in c.nodes
  {
    hide Match;
    var m := Match(cfg, c.pods, c.nodes);
    MatchConserves(cfg, c.pods, c.nodes);
    var i :| 0 <= i < |m.pairs| && m.pairs[i] == p;
    PairMembers(m.pairs, i);
    MemberOfPart(PairNodes(m.pairs), multiset(m.left), c.nodes, p.node);
    MemberOfPart(PairPods(m.pairs), multiset(m.needy), c.pods, p.pod);
  }

  lemma NeedyAreFromChoice(cfg: Config, c: Choice, q: Pod)
    requires q in Match(cfg, c.pods, c.nodes).needy
    ensures q in c.pods
  {
    hide Match;
    var m := Match(cfg, c.pods, c.nodes);
    MatchConserves(cfg, c.pods, c.nodes);
    MemberOfPart(m.needy, multiset(PairPods(m.pairs)), c.pods, q);
  }

  lemma ChosenNodeIsUnbound(chosen: seq<Node>, nodes: seq<Node>, waiting: Pods, n: Node)
    requires NodesChosen(chosen, nodes, waiting) && n in chosen
    ensures AvailableOrBaking(n) && n.bound == ""
  {
    hide UnboundNodes;
    assert n in multiset(chosen);
    assert n in UnboundNodes(nodes, waiting);
    StillNodesAre(nodes, waiting);
  }

  /** Every new node was made for some needy pod... */
  lemma {:induction false} NodeHasPod(cfg: Config, needy: seq<Pod>, uuid: nat -> string, k: nat, n: Node)
    returns (q: Pod)
    requires n in NodesForPods(cfg, needy, uuid, k)
    ensures q in needy && CreateNodeForPod(cfg, q, n.name) == Some(n)
  {
    var made := CreateNodeForPod(cfg, needy[0], uuid(k));
    if made.Some? && n == made.value {
      q := needy[0];
    } else {
      q := NodeHasPod(cfg, needy[1..], uuid, if made.Some? then k + 1 else k, n);
    }
  }

  /** ... and every needy pod that the cloud can serve got one. */
  lemma {:induction false} PodGetsNode(cfg: Config, needy: seq<Pod>, uuid: nat -> string, k: nat, q: Pod)
    returns (n: Node)
    requires q in needy && Servable(cfg, q)
    ensures n in NodesForPods(cfg, needy, uuid, k) && n.bound == q.name
  {
    var made := CreateNodeForPod(cfg, needy[0], uuid(k));
    if q == needy[0] {
      n := made.value;
    } else {
      n := PodGetsNode(cfg, needy[1..], uuid, if made.Some? then k + 1 else k, q);
    }
  }

  /** The cloud does not report the pod's kind of instance as unavailable. */
  predicate Servable(cfg: Config, p: Pod) {
    !cfg.unavailable(p.spec.instanceType, p.spec.spot == SpotAlways, p.spec.resources.privateIPOnly, p.spec.zone)
  }

  lemma PairIsStillBound(cfg: Config, nodes: seq<Node>, waiting: Pods, c: Choice, n: Node) returns (p: Pair)
    requires ValidChoice(cfg, nodes, waiting, c) && "" !in waiting
    requires n in BoundNodes(Match(cfg, c.pods, c.nodes).pairs)
    ensures p in Match(cfg, c.pods, c.nodes).pairs && n == BoundNode(p) && p.pod in c.pods
    ensures StillBound(n, waiting)
  {
    hide Match, PodsChosen, NodesChosen, SpecsChosen;
    var pairs := Match(cfg, c.pods, c.nodes).pairs;
    BindingsOfPairs(pairs);
    hide BoundNodes;
    var i :| 0 <= i < |pairs| && BoundNodes(pairs)[i] == n;
    p := pairs[i];
    PairsAreFromChoice(cfg, c, p);
    ChosenPodWaits(c.pods, nodes, waiting, p.pod);
    ChosenNodeIsUnbound(c.nodes, nodes, waiting, p.node);
  }

  lemma NewNodeIsStillBound(cfg: Config, nodes: seq<Node>, waiting: Pods, c: Choice, uuid: nat -> string, n: Node)
    returns (q: Pod)
    requires ValidChoice(cfg, nodes, waiting, c) && "" !in waiting
    requires n in NodesForPods(cfg, Match(cfg, c.pods, c.nodes).needy, uuid, 0)
    ensures q in Match(cfg, c.pods, c.nodes).needy && q in c.pods && CreateNodeForPod(cfg, q, n.name) == Some(n)
    ensures StillBound(n, waiting)
  {
    hide Match, NodesForPods, PodsChosen, NodesChosen, SpecsChosen;
    q := NodeHasPod(cfg, Match(cfg, c.pods, c.nodes).needy, uuid, 0, n);
    NeedyAreFromChoice(cfg, c, q);
    ChosenPodWaits(c.pods, nodes, waiting, q);
  }

  lemma {:induction false} PoolNodesAreUnbound(cfg: Config, order: seq<StandbySpec>, needed: map<StandbySpec, int>,
                                               uuid: nat -> string, k: nat)
    requires forall s :: s in order ==> s in needed
    ensures forall n :: n in NodesForPools(cfg, order, needed, uuid, k) ==>
      n.bound == "" && AvailableOrBaking(n) && n.spec.resources.volumeSize == cfg.defaultVolumeSize
  {
    if order != [] {
      PoolNodesAreUnbound(cfg, order[1..], needed, uuid, k + |StandbyNodes(cfg, order[0], needed[order[0]], uuid, k)|);
    }
  }

  /** Kept nodes are unbound nodes of the standby volume size. */
  lemma KeptAreUnbound(cfg: Config, nodes: seq<Node>, waiting: Pods, c: Choice, n: Node)
    requires ValidChoice(cfg, nodes, waiting, c)
    requires n in Flatten(FillPools(cfg, cfg.standby, Match(cfg, c.pods, c.nodes).left).kept)
    ensures n.bound == "" && AvailableOrBaking(n) && n.spec.resources.volumeSize == cfg.defaultVolumeSize
  {
    hide Match, FillPools, Flatten, PodsChosen, NodesChosen, SpecsChosen;
    var left := Match(cfg, c.pods, c.nodes).left;
    var pool := FillPools(cfg, cfg.standby, left);
    FillConserves(cfg, cfg.standby, left);
    MemberOfPart(Flatten(pool.kept), multiset(pool.left), left, n);
    MatchConserves(cfg, c.pods, c.nodes);
    MemberOfPart(left, multiset(PairNodes(Match(cfg, c.pods, c.nodes).pairs)), c.nodes, n);
    ChosenNodeIsUnbound(c.nodes, nodes, waiting, n);
    KeptHaveStandbyVolume(cfg, cfg.standby, left, n);
  }

  lemma {:induction false} KeptHaveStandbyVolume(cfg: Config, specs: seq<StandbySpec>, nodes: seq<Node>, n: Node)
    requires n in Flatten(FillPools(cfg, specs, nodes).kept)
    ensures n.spec.resources.volumeSize == cfg.defaultVolumeSize
  {
    if specs != [] {
      FillStep(cfg, specs, nodes);
      var t := Take(cfg, specs[0], nodes, specs[0].count);
      if n in t.kept {
        TakeMatches(cfg, specs[0], nodes, specs[0].count, n);
      } else {
        KeptHaveStandbyVolume(cfg, specs[1..], t.left, n);
      }
    }
  }

  lemma {:induction false} TakeMatches(cfg: Config, spec: StandbySpec, nodes: seq<Node>, needed: int, n: Node)
    requires n in Take(cfg, spec, nodes, needed).kept
    ensures NodeMatchesStandbySpec(cfg, n.spec, spec)
  {
    var matches := NodeMatchesStandbySpec(cfg, nodes[0].spec, spec);
    if !(matches && n == nodes[0]) {
      TakeMatches(cfg, spec, nodes[1..], if matches then needed - 1 else needed, n);
    }
  }

  /** The newly bound nodes, read as bindings. */
  lemma BoundNodesRead(cfg: Config, nodes: seq<Node>, pods: seq<Pod>, c: Choice, uuid: nat -> string)
    requires ValidChoice(cfg, nodes, Waiting(pods), c) && "" !in Waiting(pods)
    ensures var o := Round(cfg, nodes, pods, c, uuid);
      && OldBindings(BoundNodes(o.matching.pairs), Waiting(pods)) == PairBindings(o.matching.pairs)
      && OldBindings(o.forPods, Waiting(pods)) == NewBindings(o.forPods)
  {
    hide Match, FillPools, NodesForPods, NodesForPools, OldBindings, BoundNodes, StillBound, PodsChosen, NodesChosen,
         Waiting;
    var o, waiting := Round(cfg, nodes, pods, c, uuid), Waiting(pods);
    BindingsOfPairs(o.matching.pairs);
    forall n | n in BoundNodes(o.matching.pairs) ensures StillBound(n, waiting) {
      var _ := PairIsStillBound(cfg, nodes, waiting, c, n);
    }
    AllStillBound(BoundNodes(o.matching.pairs), waiting);
    forall n | n in o.forPods ensures StillBound(n, waiting) {
      var _ := NewNodeIsStillBound(cfg, nodes, waiting, c, uuid, n);
    }
    AllStillBound(o.forPods, waiting);
  }

  /** The standby nodes are no bindings. */
  lemma StandbyNodesRead(cfg: Config, nodes: seq<Node>, pods: seq<Pod>, c: Choice, uuid: nat -> string)
    requires ValidChoice(cfg, nodes, Waiting(pods), c) && "" !in Waiting(pods)
    ensures var o := Round(cfg, nodes, pods, c, uuid);
      OldBindings(Flatten(o.pool.kept), Waiting(pods)) == map[] && OldBindings(o.forPools, Waiting(pods)) == map[]
  {
    hide Match, FillPools, NodesForPods, NodesForPools, Flatten, OldBindings, StillBound, PodsChosen, NodesChosen,
         Waiting;
    var o, waiting := Round(cfg, nodes, pods, c, uuid), Waiting(pods);
    forall n | n in Flatten(o.pool.kept) ensures !StillBound(n, waiting) {
      KeptAreUnbound(cfg, nodes, waiting, c, n);
      EmptyIsNotBound(n, waiting);
    }
    NoneStillBound(Flatten(o.pool.kept), waiting);
    SpecsAreNeeded(cfg, c, o);
    PoolNodesAreUnbound(cfg, c.specs, o.pool.needed, uuid, |o.forPods|);
    forall n | n in o.forPools ensures !StillBound(n, waiting) { EmptyIsNotBound(n, waiting); }
    NoneStillBound(o.forPools, waiting);
  }

  /** The map that a round returns is the map that the next round reads off the nodes it left. */
  lemma BindingsAreRederived(cfg: Config, nodes: seq<Node>, pods: seq<Pod>, c: Choice, uuid: nat -> string)
    requires ValidChoice(cfg, nodes, Waiting(pods), c) && "" !in Waiting(pods)
    ensures var o := Round(cfg, nodes, pods, c, uuid);
      o.bindings == OldBindings(NodesAfter(nodes, Waiting(pods), o), Waiting(pods))
  {
    hide Match, FillPools, NodesForPods, NodesForPools, NodesAfter, Flatten, OldBindings, BoundNodes, PairBindings,
         NewBindings, PodsChosen, NodesChosen, Waiting;
    BindingsOfParts(nodes, Waiting(pods), Round(cfg, nodes, pods, c, uuid));
    BoundNodesRead(cfg, nodes, pods, c, uuid);
    StandbyNodesRead(cfg, nodes, pods, c, uuid);
  }

  lemma SpecsAreNeeded(cfg: Config, c: Choice, o: Outcome)
    requires SpecsChosen(c.specs, cfg) && o.pool == FillPools(cfg, cfg.standby, o.matching.left)
    ensures forall s :: s in c.specs ==> s in o.pool.needed
  {}

  lemma BindingsOfParts(nodes: seq<Node>, waiting: Pods, o: Outcome)
    ensures OldBindings(NodesAfter(nodes, waiting, o), waiting)
      == OldBindings(nodes, waiting) + OldBindings(BoundNodes(o.matching.pairs), waiting)
        + OldBindings(Flatten(o.pool.kept), waiting)
         + (OldBindings(o.forPods, waiting) + OldBindings(o.forPools, waiting))
  {
    hide OldBindings, BoundNodes, Flatten, IdleNodes, StillNodes;
    var a, b, kept := IdleNodes(nodes) + StillNodes(nodes, waiting), BoundNodes(o.matching.pairs), Flatten(o.pool.kept);
    OldBindingsConcat(a + b + kept, o.forPods + o.forPools, waiting);
    OldBindingsConcat(a + b, kept, waiting);
    OldBindingsConcat(a, b, waiting);
    OldBindingsConcat(o.forPods, o.forPools, waiting);
    OldBindingsOfStill(nodes, waiting);
  }

  lemma EmptyIsNotBound(n: Node, waiting: Pods)
    ensures n.bound == "" ==> !StillBound(n, waiting)
  {}

  // ---- one node per pod ----

  function PodNamed(p: string): Pod -> int {
    (q: Pod) => if q.name == p then 1 else 0
  }

  function BoundTo(p: string): Node -> int {
    (n: Node) => if n.bound == p then 1 else 0
  }

  lemma {:induction false} ChosenOnce(chosen: seq<Pod>, p: string)
    requires forall i, j :: 0 <= i < j < |chosen| ==> chosen[i].name != chosen[j].name
    ensures Sum(chosen, PodNamed(p)) <= 1
    ensures (forall q :: q in chosen ==> q.name != p) ==> Sum(chosen, PodNamed(p)) == 0
  {
    if chosen != [] {
      ChosenOnce(chosen[1..], p);
      assert forall q :: q in chosen[1..] ==> q in chosen && q.name != chosen[0].name;
    }
  }

  lemma {:induction false} PairsBindPods(pairs: seq<Pair>, p: string)
    ensures Sum(BoundNodes(pairs), BoundTo(p)) == Sum(PairPods(pairs), PodNamed(p))
  {
    if pairs != [] {
      var init, last := pairs[..|pairs| - 1], pairs[|pairs| - 1];
      PairsBindPods(init, p);
      SumConcat(BoundNodes(init), [BoundNode(last)], BoundTo(p));
      PairPodsSnoc(init, last);
      assert pairs == init + [last];
      SumConcat(PairPods(init), [last.pod], PodNamed(p));
    }
  }

  lemma {:induction false} PairPodsSnoc(init: seq<Pair>, last: Pair)
    ensures PairPods(init + [last]) == PairPods(init) + [last.pod]
  {
    if init == [] {
      assert init + [last] == [last];
    } else {
      assert (init + [last])[1..] == init[1..] + [last];
      PairPodsSnoc(init[1..], last);
    }
  }

  lemma {:induction false} NewNodesBindPods(cfg: Config, needy: seq<Pod>, uuid: nat -> string, k: nat, p: string)
    ensures Sum(NodesForPods(cfg, needy, uuid, k), BoundTo(p)) <= Sum(needy, PodNamed(p))
  {
    if needy != [] {
      var made := CreateNodeForPod(cfg, needy[0], uuid(k));
      NewNodesBindPods(cfg, needy[1..], uuid, if made.Some? then k + 1 else k, p);
      if made.Some? {
        assert ([made.value] + NodesForPods(cfg, needy[1..], uuid, k + 1))[1..]
          == NodesForPods(cfg, needy[1..], uuid, k + 1);
      }
    }
  }

  /** At most one of the newly bound nodes is bound to a given pod. */
  lemma NewlyBoundOnce(cfg: Config, nodes: seq<Node>, waiting: Pods, c: Choice, uuid: nat -> string, p: string)
    requires PodsChosen(c.pods, nodes, waiting)
    ensures var m := Match(cfg, c.pods, c.nodes);
      Sum(BoundNodes(m.pairs) + NodesForPods(cfg, m.needy, uuid, 0), BoundTo(p)) <= 1
  {
    hide Match, NodesForPods, OldBindings, Sum;
    var m := Match(cfg, c.pods, c.nodes);
    ChosenOnce(c.pods, p);
    MatchConserves(cfg, c.pods, c.nodes);
    SumIgnoresOrder(PairPods(m.pairs) + m.needy, c.pods, PodNamed(p));
    SumConcat(PairPods(m.pairs), m.needy, PodNamed(p));
    SumConcat(BoundNodes(m.pairs), NodesForPods(cfg, m.needy, uuid, 0), BoundTo(p));
    PairsBindPods(m.pairs, p);
    NewNodesBindPods(cfg, m.needy, uuid, 0, p);
  }

  /** Where a bound node of the next round comes from. */
  lemma BoundAfter(cfg: Config, nodes: seq<Node>, pods: seq<Pod>, c: Choice, uuid: nat -> string, n: Node)
    requires ValidChoice(cfg, nodes, Waiting(pods), c) && "" !in Waiting(pods)
    requires var o := Round(cfg, nodes, pods, c, uuid);
      n in NodesAfter(nodes, Waiting(pods), o) && StillBound(n, Waiting(pods))
    ensures var o := Round(cfg, nodes, pods, c, uuid);
      || n in nodes
      || (n in BoundNodes(o.matching.pairs) + o.forPods && exists q :: q in c.pods && q.name == n.bound)
  {
    hide Match, FillPools, NodesForPods, NodesForPools, Flatten, OldBindings, BoundNodes, PodsChosen, NodesChosen,
         SpecsChosen, Waiting, IdleNodes, StillNodes;
    var o, waiting := Round(cfg, nodes, pods, c, uuid), Waiting(pods);
    StillNodesAre(nodes, waiting);
    if n in BoundNodes(o.matching.pairs) {
      var p := PairIsStillBound(cfg, nodes, waiting, c, n);
    } else if n in o.forPods {
      var q := NewNodeIsStillBound(cfg, nodes, waiting, c, uuid, n);
    } else if n in Flatten(o.pool.kept) {
      KeptAreUnbound(cfg, nodes, waiting, c, n);
    } else if n in o.forPools {
      SpecsAreNeeded(cfg, c, o);
      PoolNodesAreUnbound(cfg, c.specs, o.pool.needed, uuid, |o.forPods|);
    }
  }

  /** A round keeps the bindings one to one. */
  lemma OneNodePerPodAfter(cfg: Config, nodes: seq<Node>, pods: seq<Pod>, c: Choice, uuid: nat -> string)
    requires ValidChoice(cfg, nodes, Waiting(pods), c) && "" !in Waiting(pods)
    requires OneNodePerPod(nodes, Waiting(pods)) && forall n :: n in nodes ==> n.name != ""
    ensures var o := Round(cfg, nodes, pods, c, uuid); OneNodePerPod(NodesAfter(nodes, Waiting(pods), o), Waiting(pods))
  {
    hide Match, FillPools, NodesForPods, NodesForPools, Flatten, OldBindings, BoundNodes, PodsChosen, NodesChosen,
         SpecsChosen, Waiting, NodesAfter, StillBound, Sum;
    var o, waiting := Round(cfg, nodes, pods, c, uuid), Waiting(pods);
    var after, newly := NodesAfter(nodes, waiting, o), BoundNodes(o.matching.pairs) + o.forPods;
    OldBindingsAreBindings(nodes, waiting);
    forall m, n | m in after && n in after && StillBound(m, waiting) && StillBound(n, waiting) && m.bound == n.bound
      ensures m.name == n.name
    {
      BoundAfter(cfg, nodes, pods, c, uuid, m);
      BoundAfter(cfg, nodes, pods, c, uuid, n);
      if m in nodes && n in nodes {
      } else if m !in nodes && n !in nodes {
        NewlyBoundOnce(cfg, nodes, waiting, c, uuid, m.bound);
        SumOne(newly, BoundTo(m.bound), m, n);
      } else {
        var q :| q in c.pods && q.name == m.bound;
        ChosenPodWaits(c.pods, nodes, waiting, q);
      }
    }
  }
}

/** Running a round again on what the last one left changes nothing. */
module NodeScalerStability {
  import opened Wrappers
  import opened ApiTypes
  import opened Sums
  import opened NodeScaler
  import opened NodeScalerPools
  import opened NodeScalerRounds

  // ---- sums over the parts of NodesAfter ----

  lemma {:induction false} SumAgrees<T>(s: seq<T>, f: T -> int, g: T -> int)
    requires forall x :: x in s ==> f(x) == g(x)
    ensures Sum(s, f) == Sum(s, g)
  {
    if s != [] { SumAgrees(s[1..], f, g); }
  }

  lemma {:induction false} SumZero<T>(s: seq<T>, f: T -> int)
    requires forall x :: x in s ==> f(x) == 0
    ensures Sum(s, f) == 0
  {
    if s != [] { SumZero(s[1..], f); }
  }

  lemma SumAfter(nodes: seq<Node>, waiting: Pods, o: Outcome, f: Node -> int)
    ensures Sum(NodesAfter(nodes, waiting, o), f)
      == Sum(IdleNodes(nodes), f) + Sum(StillNodes(nodes, waiting), f) + Sum(BoundNodes(o.matching.pairs), f)
         + Sum(Flatten(o.pool.kept), f) + Sum(o.forPods, f) + Sum(o.forPools, f)
  {
    hide IdleNodes, StillNodes, BoundNodes, Flatten, Sum;
    var a, b, kept := IdleNodes(nodes) + StillNodes(nodes, waiting), BoundNodes(o.matching.pairs), Flatten(o.pool.kept);
    SumConcat(a + b + kept, o.forPods + o.forPools, f);
    SumConcat(a + b, kept, f);
    SumConcat(a, b, f);
    SumConcat(IdleNodes(nodes), StillNodes(nodes, waiting), f);
    SumConcat(o.forPods, o.forPools, f);
  }

  /** Unbound nodes of the class. */
  function UnboundIn(cfg: Config, c: Class, waiting: Pods): Node -> int {
    (n: Node) => if Unbound(n, waiting) && InClass(cfg, n.spec, c) then 1 else 0
  }

  lemma {:induction false} UnboundCount(cfg: Config, c: Class, nodes: seq<Node>, waiting: Pods)
    ensures Count(cfg, c, UnboundNodes(nodes, waiting)) == Sum(nodes, UnboundIn(cfg, c, waiting))
  {
    if nodes != [] {
      var init, n := nodes[..|nodes| - 1], nodes[|nodes| - 1];
      UnboundCount(cfg, c, init, waiting);
      SumConcat(init, [n], UnboundIn(cfg, c, waiting));
      assert nodes == init + [n];
      assert Sum([n], UnboundIn(cfg, c, waiting)) == UnboundIn(cfg, c, waiting)(n);
      var cleared := n.(bound := "");
      SumConcat(UnboundNodes(init, waiting), [cleared], Indicator(cfg, c));
      assert Sum([cleared], Indicator(cfg, c)) == Indicator(cfg, c)(cleared);
    }
  }

  lemma {:induction false} UnboundComesFrom(nodes: seq<Node>, waiting: Pods, n: Node) returns (m: Node)
    requires n in UnboundNodes(nodes, waiting)
    ensures m in nodes && Unbound(m, waiting) && n == m.(bound := "")
  {
    var init, last := nodes[..|nodes| - 1], nodes[|nodes| - 1];
    if n in UnboundNodes(init, waiting) {
      m := UnboundComesFrom(init, waiting, n);
    } else {
      m := last;
    }
  }

  /** The nodes that a round leaves unbound are the kept ones and those created for the pools. */
  lemma UnboundAfter(cfg: Config, nodes: seq<Node>, pods: seq<Pod>, c: Choice, uuid: nat -> string, n: Node)
    requires ValidChoice(cfg, nodes, Waiting(pods), c) && "" !in Waiting(pods)
    requires n in NodesAfter(nodes, Waiting(pods), Round(cfg, nodes, pods, c, uuid))
    ensures var o := Round(cfg, nodes, pods, c, uuid);
      && (n in Flatten(o.pool.kept) || n in o.forPools ==>
          Unbound(n, Waiting(pods)) && n.spec.resources.volumeSize == cfg.defaultVolumeSize)
      && (n in IdleNodes(nodes) || n in StillNodes(nodes, Waiting(pods)) || n in BoundNodes(o.matching.pairs)
          || n in o.forPods
          ==> !Unbound(n, Waiting(pods)))
  {
    hide Match, FillPools, NodesForPods, NodesForPools, Flatten, OldBindings, BoundNodes, PodsChosen, NodesChosen,
         SpecsChosen, Waiting, IdleNodes, StillNodes;
    var o, waiting := Round(cfg, nodes, pods, c, uuid), Waiting(pods);
    StillNodesAre(nodes, waiting);
    if n in BoundNodes(o.matching.pairs) {
      var p := PairIsStillBound(cfg, nodes, waiting, c, n);
    }
    if n in o.forPods {
      var q := NewNodeIsStillBound(cfg, nodes, waiting, c, uuid, n);
    }
    if n in Flatten(o.pool.kept) {
      KeptAreUnbound(cfg, nodes, waiting, c, n);
    }
    if n in o.forPools {
      SpecsAreNeeded(cfg, c, o);
      PoolNodesAreUnbound(cfg, c.specs, o.pool.needed, uuid, |o.forPods|);
    }
  }

  /** A round brings each class of unbound nodes to the number that the standby specs want. */
  lemma PoolsAreExact(cfg: Config, nodes: seq<Node>, pods: seq<Pod>, c: Choice, uuid: nat -> string, class_: Class)
    requires ValidChoice(cfg, nodes, Waiting(pods), c) && "" !in Waiting(pods)
    requires Distinct(cfg.standby) && NonnegativeCounts(cfg.standby)
    ensures Sum(NodesAfter(nodes, Waiting(pods), Round(cfg, nodes, pods, c, uuid)),
      UnboundIn(cfg, class_, Waiting(pods))) == Wanted(class_, cfg.standby)
  {
    hide Match, FillPools, NodesForPods, NodesForPools, Flatten, OldBindings, BoundNodes, PodsChosen, NodesChosen,
         Waiting, IdleNodes, StillNodes, Sum, Unbound;
    var o, waiting := Round(cfg, nodes, pods, c, uuid), Waiting(pods);
    var f, g := UnboundIn(cfg, class_, waiting), Indicator(cfg, class_);
    SumAfter(nodes, waiting, o, f);
    forall n | n in NodesAfter(nodes, waiting, o)
      ensures n in Flatten(o.pool.kept) || n in o.forPools ==> f(n) == g(n)
      ensures n in IdleNodes(nodes) || n in StillNodes(nodes, waiting) ==> f(n) == 0
      ensures n in BoundNodes(o.matching.pairs) || n in o.forPods ==> f(n) == 0
    {
      UnboundAfter(cfg, nodes, pods, c, uuid, n);
    }
    SumZero(IdleNodes(nodes), f);
    SumZero(StillNodes(nodes, waiting), f);
    SumZero(BoundNodes(o.matching.pairs), f);
    SumZero(o.forPods, f);
    SumAgrees(Flatten(o.pool.kept), f, g);
    SumAgrees(o.forPools, f, g);
    StandbyPools(cfg, nodes, pods, c, uuid, class_);
  }

  // ---- the second round ----

  /** A live node, however far it has come. */
  function Ripe(n: Node): Node {
    n.(phase := NodeAvailable)
  }

  /** The live nodes, as if all of them were Available. */
  function Ripened(nodes: seq<Node>): seq<Node> {
    if nodes == [] then [] else
      var n := nodes[|nodes| - 1];
      Ripened(nodes[..|nodes| - 1]) + if AvailableOrBaking(n) then [Ripe(n)] else []
  }

  lemma {:induction false} RipenedHas(nodes: seq<Node>, n: Node)
    requires n in nodes && AvailableOrBaking(n)
    ensures Ripe(n) in Ripened(nodes)
  {
    if n != nodes[|nodes| - 1] { RipenedHas(nodes[..|nodes| - 1], n); }
  }

  lemma {:induction false} RipenedFrom(nodes: seq<Node>, r: Node) returns (n: Node)
    requires r in Ripened(nodes)
    ensures n in nodes && AvailableOrBaking(n) && r == Ripe(n)
  {
    var init, last := nodes[..|nodes| - 1], nodes[|nodes| - 1];
    if r in Ripened(init) {
      n := RipenedFrom(init, r);
    } else {
      n := last;
    }
  }

  /** How far nodes have come makes no difference to their bindings. */
  lemma {:induction false} RipenedBindings(nodes: seq<Node>, waiting: Pods)
    ensures OldBindings(Ripened(nodes), waiting) == OldBindings(nodes, waiting)
  {
    if nodes != [] {
      var init, n := nodes[..|nodes| - 1], nodes[|nodes| - 1];
      RipenedBindings(init, waiting);
      if AvailableOrBaking(n) {
        var r := Ripened(nodes);
        assert r[..|r| - 1] == Ripened(init);
      } else {
        assert Ripened(nodes) == Ripened(init);
      }
    }
  }

  lemma {:induction false} RipenedSum(cfg: Config, k: Class, nodes: seq<Node>, waiting: Pods)
    ensures Sum(Ripened(nodes), UnboundIn(cfg, k, waiting)) == Sum(nodes, UnboundIn(cfg, k, waiting))
  {
    if nodes != [] {
      var init, n, f := nodes[..|nodes| - 1], nodes[|nodes| - 1], UnboundIn(cfg, k, waiting);
      RipenedSum(cfg, k, init, waiting);
      assert f(n) == if AvailableOrBaking(n) then f(Ripe(n)) else 0;
      hide UnboundIn;
      assert nodes == init + [n];
      SumConcat(init, [n], f);
      SumConcat(Ripened(init), if AvailableOrBaking(n) then [Ripe(n)] else [], f);
    }
  }

  lemma RipenedOnce(nodes: seq<Node>, waiting: Pods)
    ensures OneNodePerPod(Ripened(nodes), waiting) <==> OneNodePerPod(nodes, waiting)
  {
    var r := Ripened(nodes);
    if OneNodePerPod(nodes, waiting) {
      forall x, y | x in r && y in r && StillBound(x, waiting) && StillBound(y, waiting) && x.bound == y.bound
        ensures x.name == y.name
      {
        var m := RipenedFrom(nodes, x);
        var n := RipenedFrom(nodes, y);
      }
    }
    if OneNodePerPod(r, waiting) {
      forall m, n | m in nodes && n in nodes && StillBound(m, waiting) && StillBound(n, waiting) && m.bound == n.bound
        ensures m.name == n.name
      {
        RipenedHas(nodes, m);
        RipenedHas(nodes, n);
        assert StillBound(Ripe(m), waiting) && StillBound(Ripe(n), waiting);
      }
    }
  }

  /** The second round sees the live nodes that the first left, in any order and however far they have
    * come among Creating, Created and Available; what became of the other nodes does not matter. */
  ghost predicate Follows(cfg: Config, nodes: seq<Node>, pods: seq<Pod>, c: Choice, uuid: nat -> string,
                          nodes2: seq<Node>) {
    && ValidChoice(cfg, nodes, Waiting(pods), c) && "" !in Waiting(pods)
    && var after := NodesAfter(nodes, Waiting(pods), Round(cfg, nodes, pods, c, uuid));
       multiset(Ripened(nodes2)) == multiset(Ripened(after))
  }

  /** A live node of the second round is one that the first left. */
  lemma LeftByFirst(cfg: Config, nodes: seq<Node>, pods: seq<Pod>, c: Choice, uuid: nat -> string,
                    nodes2: seq<Node>, n: Node) returns (m: Node)
    requires Follows(cfg, nodes, pods, c, uuid, nodes2) && n in nodes2 && AvailableOrBaking(n)
    ensures m in NodesAfter(nodes, Waiting(pods), Round(cfg, nodes, pods, c, uuid))
    ensures AvailableOrBaking(m) && Ripe(m) == Ripe(n)
  {
    hide NodesAfter, Round, PodsChosen, NodesChosen, SpecsChosen, Waiting, Ripened;
    var after := NodesAfter(nodes, Waiting(pods), Round(cfg, nodes, pods, c, uuid));
    RipenedHas(nodes2, n);
    SameMembers(Ripened(nodes2), Ripened(after));
    m := RipenedFrom(after, Ripe(n));
  }

  lemma SameMembers<T>(a: seq<T>, b: seq<T>)
    requires multiset(a) == multiset(b)
    ensures forall x :: x in a <==> x in b
  {
    forall x ensures x in a <==> x in b {
      assert x in a <==> x in multiset(a);
      assert x in b <==> x in multiset(b);
    }
  }

  lemma SameBindingsAgain(cfg: Config, nodes: seq<Node>, pods: seq<Pod>, c: Choice, uuid: nat -> string,
                          nodes2: seq<Node>)
    requires Follows(cfg, nodes, pods, c, uuid, nodes2)
    requires OneNodePerPod(nodes, Waiting(pods)) && forall n :: n in nodes ==> n.name != ""
    ensures OldBindings(nodes2, Waiting(pods)) == Round(cfg, nodes, pods, c, uuid).bindings
    ensures BindingOf(OldBindings(nodes2, Waiting(pods)), nodes2, Waiting(pods))
  {
    hide OldBindings, NodesAfter, Round, StillBound, PodsChosen, NodesChosen, SpecsChosen, Ripened;
    var o, waiting := Round(cfg, nodes, pods, c, uuid), Waiting(pods);
    var after := NodesAfter(nodes, waiting, o);
    var ripe, ripe2 := Ripened(after), Ripened(nodes2);
    OneNodePerPodAfter(cfg, nodes, pods, c, uuid);
    SameMembers(ripe2, ripe);
    RipenedOnce(after, waiting);
    RipenedOnce(nodes2, waiting);
    OldBindingsAreBindings(ripe, waiting);
    OldBindingsAreBindings(ripe2, waiting);
    OldBindingsAreBindings(nodes2, waiting);
    BindingIsDetermined(OldBindings(ripe2, waiting), OldBindings(ripe, waiting), ripe2, ripe, waiting);
    RipenedBindings(after, waiting);
    RipenedBindings(nodes2, waiting);
    BindingsAreRederived(cfg, nodes, pods, c, uuid);
  }

  /** The pools of the second round, whatever is available in the cloud by then. */
  lemma ExactPoolsAgain(cfg: Config, nodes: seq<Node>, pods: seq<Pod>, c: Choice, uuid: nat -> string,
                        cfg2: Config, nodes2: seq<Node>, unbound: seq<Node>)
    requires Follows(cfg, nodes, pods, c, uuid, nodes2) && cfg2 == cfg.(unavailable := cfg2.unavailable)
    requires Distinct(cfg.standby) && NonnegativeCounts(cfg.standby)
    requires multiset(unbound) == multiset(UnboundNodes(nodes2, Waiting(pods)))
    ensures var p := FillPools(cfg2, cfg.standby, unbound);
      p.left == [] && forall s :: s in cfg.standby ==> p.needed[s] == 0
  {
    hide NodesAfter, Round, PodsChosen, NodesChosen, SpecsChosen, UnboundNodes, Sum, FillPools, Waiting, Ripened;
    var o, waiting := Round(cfg, nodes, pods, c, uuid), Waiting(pods);
    forall k ensures Count(cfg2, k, unbound) == Wanted(k, cfg.standby) {
      SumAgrees(unbound, Indicator(cfg2, k), Indicator(cfg, k));
      SumIgnoresOrder(unbound, UnboundNodes(nodes2, waiting), Indicator(cfg, k));
      UnboundCount(cfg, k, nodes2, waiting);
      SameSums(cfg, k, nodes2, NodesAfter(nodes, waiting, o), waiting);
      PoolsAreExact(cfg, nodes, pods, c, uuid, k);
    }
    SameMembers(unbound, UnboundNodes(nodes2, waiting));
    forall n | n in unbound ensures n.spec.resources.volumeSize == cfg.defaultVolumeSize {
      var m2 := UnboundComesFrom(nodes2, waiting, n);
      var m := LeftByFirst(cfg, nodes, pods, c, uuid, nodes2, m2);
      UnboundAfterHasVolume(cfg, nodes, pods, c, uuid, m);
    }
    ExactPoolsAreStable(cfg2, cfg.standby, unbound);
  }

  lemma SameSums(cfg: Config, k: Class, nodes2: seq<Node>, after: seq<Node>, waiting: Pods)
    requires multiset(Ripened(nodes2)) == multiset(Ripened(after))
    ensures Sum(nodes2, UnboundIn(cfg, k, waiting)) == Sum(after, UnboundIn(cfg, k, waiting))
  {
    hide Sum, Ripened, UnboundIn;
    RipenedSum(cfg, k, nodes2, waiting);
    RipenedSum(cfg, k, after, waiting);
    SumIgnoresOrder(Ripened(nodes2), Ripened(after), UnboundIn(cfg, k, waiting));
  }

  lemma UnboundAfterHasVolume(cfg: Config, nodes: seq<Node>, pods: seq<Pod>, c: Choice, uuid: nat -> string, m: Node)
    requires ValidChoice(cfg, nodes, Waiting(pods), c) && "" !in Waiting(pods)
    requires m in NodesAfter(nodes, Waiting(pods), Round(cfg, nodes, pods, c, uuid)) && Unbound(m, Waiting(pods))
    ensures m.spec.resources.volumeSize == cfg.defaultVolumeSize
  {
    hide Match, FillPools, NodesForPods, NodesForPools, Flatten, OldBindings, BoundNodes, ValidChoice, Waiting,
         IdleNodes, StillNodes, Unbound, Round;
    UnboundAfter(cfg, nodes, pods, c, uuid, m);
  }

  lemma NoneNeeded(cfg: Config, order: seq<StandbySpec>, needed: map<StandbySpec, int>, uuid: nat -> string, k: nat)
    requires forall s :: s in order ==> s in needed && needed[s] == 0
    ensures NodesForPools(cfg, order, needed, uuid, k) == []
  {}

  /** Every node has a name, and so will every new one. */
  ghost predicate AllNamed(nodes: seq<Node>, uuid: nat -> string) {
    (forall n :: n in nodes ==> n.name != "") && (forall k: nat :: uuid(k) != "")
  }

  lemma {:induction false} NewNamed(cfg: Config, needy: seq<Pod>, uuid: nat -> string, k: nat, n: Node)
    requires n in NodesForPods(cfg, needy, uuid, k) && forall i: nat :: uuid(i) != ""
    ensures n.name != ""
  {
    var made := CreateNodeForPod(cfg, needy[0], uuid(k));
    if !(made.Some? && n == made.value) {
      NewNamed(cfg, needy[1..], uuid, if made.Some? then k + 1 else k, n);
    }
  }

  /** A bound node that a round leaves has a name. */
  lemma BoundNamed(cfg: Config, nodes: seq<Node>, pods: seq<Pod>, c: Choice, uuid: nat -> string, n: Node)
    requires ValidChoice(cfg, nodes, Waiting(pods), c) && "" !in Waiting(pods) && AllNamed(nodes, uuid)
    requires n in NodesAfter(nodes, Waiting(pods), Round(cfg, nodes, pods, c, uuid)) && StillBound(n, Waiting(pods))
    ensures n.name != ""
  {
    hide Match, NodesForPods, OldBindings, BoundNodes, PodsChosen, NodesChosen, SpecsChosen, Waiting, NodesAfter,
         UnboundNodes, FillPools, NodesForPools;
    var waiting := Waiting(pods);
    BoundAfter(cfg, nodes, pods, c, uuid, n);
    if n in nodes {
    } else if n in NodesForPods(cfg, Match(cfg, c.pods, c.nodes).needy, uuid, 0) {
      NewNamed(cfg, Match(cfg, c.pods, c.nodes).needy, uuid, 0, n);
    } else {
      var p := PairIsStillBound(cfg, nodes, waiting, c, n);
      PairsAreFromChoice(cfg, c, p);
      ChosenIsUnbound(c.nodes, nodes, waiting, p.node);
      var m := UnboundComesFrom(nodes, waiting, p.node);
    }
  }

  lemma ChosenIsUnbound(chosen: seq<Node>, nodes: seq<Node>, waiting: Pods, n: Node)
    requires NodesChosen(chosen, nodes, waiting) && n in chosen
    ensures n in UnboundNodes(nodes, waiting)
  {
    hide UnboundNodes;
    SameMembers(chosen, UnboundNodes(nodes, waiting));
  }

  /** No pod is left to be served. */
  lemma NoPodChosen(nodes: seq<Node>, waiting: Pods, chosen: seq<Pod>)
    requires BindingOf(OldBindings(nodes, waiting), nodes, waiting)
    requires PodsChosen(chosen, nodes, waiting) && forall n :: n in nodes && StillBound(n, waiting) ==> n.name != ""
    requires forall p :: p in waiting ==> p in OldBindings(nodes, waiting)
    ensures chosen == []
  {
    if chosen != [] {
      ChosenPodWaits(chosen, nodes, waiting, chosen[0]);
    }
  }

  /** A round with no pod to serve and exactly filled pools does nothing. */
  lemma QuietRound(cfg: Config, nodes: seq<Node>, pods: seq<Pod>, c: Choice, uuid: nat -> string)
    requires SpecsChosen(c.specs, cfg) && c.pods == []
    requires var p := FillPools(cfg, cfg.standby, c.nodes);
      p.left == [] && forall s :: s in cfg.standby ==> p.needed[s] == 0
    ensures var o := Round(cfg, nodes, pods, c, uuid);
      o.Start() == [] && o.stop == [] && o.bindings == OldBindings(nodes, Waiting(pods))
  {
    hide OldBindings, FillPools, NodesForPools, Waiting;
    NoneNeeded(cfg, c.specs, FillPools(cfg, cfg.standby, c.nodes).needed, uuid, 0);
  }

  /** Stability: once every waiting pod is bound, the next round starts nothing, stops nothing and
    * returns the same bindings, whatever the cloud's availability by then. */
  lemma Stability(cfg: Config, nodes: seq<Node>, pods: seq<Pod>, c: Choice, uuid: nat -> string,
                  cfg2: Config, nodes2: seq<Node>, pods2: seq<Pod>, c2: Choice, uuid2: nat -> string)
    requires Follows(cfg, nodes, pods, c, uuid, nodes2) && cfg2 == cfg.(unavailable := cfg2.unavailable)
    requires Distinct(cfg.standby) && NonnegativeCounts(cfg.standby)
    requires OneNodePerPod(nodes, Waiting(pods)) && AllNamed(nodes, uuid)
    requires forall p :: p in Waiting(pods) ==> p in Round(cfg, nodes, pods, c, uuid).bindings
    requires Waiting(pods2) == Waiting(pods) && ValidChoice(cfg2, nodes2, Waiting(pods2), c2)
    ensures var o2 := Round(cfg2, nodes2, pods2, c2, uuid2);
      o2.Start() == [] && o2.stop == [] && o2.bindings == Round(cfg, nodes, pods, c, uuid).bindings
  {
    hide OldBindings, FillPools, NodesForPools, Waiting, Round, OneNodePerPod, BindingOf, PodsChosen, SpecsChosen,
         NodesAfter, UnboundNodes, Ripened;
    SameBindingsAgain(cfg, nodes, pods, c, uuid, nodes2);
    forall n | n in nodes2 && StillBound(n, Waiting(pods)) ensures n.name != "" {
      var m := LeftByFirst(cfg, nodes, pods, c, uuid, nodes2, n);
      BoundNamed(cfg, nodes, pods, c, uuid, m);
    }
    NoPodChosen(nodes2, Waiting(pods), c2.pods);
    ExactPoolsAgain(cfg, nodes, pods, c, uuid, cfg2, nodes2, c2.nodes);
    QuietRound(cfg2, nodes2, pods2, c2, uuid2);
  }

  /** Specs that repeat are not stable: the one node wanted is there, and yet another is asked for. */
  lemma RepeatedSpecsOvershoot(cfg: Config, s: StandbySpec, n: Node)
    requires s.count == 1 && NodeMatchesStandbySpec(cfg, n.spec, s)
    ensures FillPools(cfg, [s], [n]).needed[s] == 0 && FillPools(cfg, [s, s], [n]).needed[s] == 1
  {
    var t := Take(cfg, s, [n], 1);
    assert [n][1..] == [] && Take(cfg, s, [], 0) == Taken([], [], 0);
    assert t == Taken([n], [], 0);
    FillStep(cfg, [s], [n]);
    FillStep(cfg, [s, s], [n]);
    FillStep(cfg, [s], []);
    assert [s][1..] == [] && [s, s][1..] == [s];
  }

  /** Nor are negative counts beside others of the same class: they swallow whatever is created. */
  lemma NegativeCountsSwallow(cfg: Config, s: StandbySpec, n: Node)
    requires s.count == 1 && NodeMatchesStandbySpec(cfg, n.spec, s)
    ensures var minus := s.(count := -1); var p := FillPools(cfg, [minus, s], [n]); p.left == [] && p.needed[s] == 1
  {
    var minus := s.(count := -1);
    assert [n][1..] == [] && Take(cfg, minus, [n], -1) == Taken([n], [], -2);
    FillStep(cfg, [minus, s], [n]);
    FillStep(cfg, [s], []);
    assert [s][1..] == [] && [minus, s][1..] == [s];
  }
}

/** Standby pools: what is kept, created and stopped for each spec. */
module NodeScalerPools {
  import opened ApiTypes
  import opened NodeScaler
  import opened Sums

  function Flatten(ss: seq<seq<Node>>): seq<Node> {
    if ss == [] then [] else ss[0] + Flatten(ss[1..])
  }

  lemma {:induction false} TakeConserves(cfg: Config, spec: StandbySpec, nodes: seq<Node>, needed: int)
    ensures var t := Take(cfg, spec, nodes, needed); multiset(t.kept) + multiset(t.left) == multiset(nodes)
  {
    hide NodeMatchesStandbySpec;
    if nodes != [] && needed != 0 {
      assert nodes == [nodes[0]] + nodes[1..];
      TakeConserves(cfg, spec, nodes[1..], if NodeMatchesStandbySpec(cfg, nodes[0].spec, spec) then needed - 1
        else needed);
    }
  }

  lemma {:induction false} FillConserves(cfg: Config, specs: seq<StandbySpec>, nodes: seq<Node>)
    ensures var p := FillPools(cfg, specs, nodes); multiset(Flatten(p.kept)) + multiset(p.left) == multiset(nodes)
  {
    if specs != [] {
      var t := Take(cfg, specs[0], nodes, specs[0].count);
      TakeConserves(cfg, specs[0], nodes, specs[0].count);
      FillConserves(cfg, specs[1..], t.left);
      var p := FillPools(cfg, specs[1..], t.left);
      assert ([t.kept] + p.kept)[1..] == p.kept;
    }
  }

  lemma {:induction false} TakeExhausts(cfg: Config, spec: StandbySpec, nodes: seq<Node>, needed: int)
    ensures var t := Take(cfg, spec, nodes, needed);
      t.needed != 0 ==> forall n :: n in t.left ==> !NodeMatchesStandbySpec(cfg, n.spec, spec)
  {
    hide NodeMatchesStandbySpec;
    if nodes != [] && needed != 0 {
      TakeExhausts(cfg, spec, nodes[1..], if NodeMatchesStandbySpec(cfg, nodes[0].spec, spec) then needed - 1
        else needed);
    }
  }

  /** A spec that is still short of nodes finds no node that it could use among those to be stopped. */
  lemma {:induction false} NeverStopWhileShort(cfg: Config, specs: seq<StandbySpec>, nodes: seq<Node>)
    ensures var p := FillPools(cfg, specs, nodes);
      forall s, n :: s in specs && p.needed[s] != 0 && n in p.left ==> !NodeMatchesStandbySpec(cfg, n.spec, s)
  {
    hide NodeMatchesStandbySpec;
    if specs != [] {
      var t := Take(cfg, specs[0], nodes, specs[0].count);
      var p := FillPools(cfg, specs[1..], t.left);
      TakeExhausts(cfg, specs[0], nodes, specs[0].count);
      NeverStopWhileShort(cfg, specs[1..], t.left);
      FillConserves(cfg, specs[1..], t.left);
      FillStep(cfg, specs, nodes);
      hide FillPools, Take, Flatten;
      forall s, n | s in specs && n in p.left && FillPools(cfg, specs, nodes).needed[s] != 0
        ensures !NodeMatchesStandbySpec(cfg, n.spec, s)
      {
        assert n in multiset(p.left) && n in multiset(t.left);
        assert s == specs[0] || s in specs[1..];
      }
    }
  }

  ghost predicate NonnegativeCounts(specs: seq<StandbySpec>) {
    forall i :: 0 <= i < |specs| ==> specs[i].count >= 0
  }

  /** For pairwise distinct specs, what is kept and what is still needed add up to the count. */
  lemma {:induction false} KeptPlusNeeded(cfg: Config, specs: seq<StandbySpec>, nodes: seq<Node>, i: nat)
    requires Distinct(specs) && i < |specs|
    ensures var p := FillPools(cfg, specs, nodes);
      && |p.kept[i]| + p.needed[specs[i]] == specs[i].count
      && (specs[i].count >= 0 ==> p.needed[specs[i]] >= 0)
  {
    var t := Take(cfg, specs[0], nodes, specs[0].count);
    if i > 0 { KeptPlusNeeded(cfg, specs[1..], t.left, i - 1); }
    FillStep(cfg, specs, nodes);
    hide FillPools, Take, Flatten;
    assert i == 0 ==> specs[0] !in specs[1..];
  }

  // ---- counting by class ----

  /** Specs that differ only in their count compete for the same nodes. */
  datatype Class = Class(instanceType: string, spot: bool)

  function ClassOf(s: StandbySpec): Class {
    Class(s.instanceType, s.spot)
  }

  predicate InClass(cfg: Config, n: NodeSpec, c: Class) {
    n.spot == c.spot && n.instanceType == c.instanceType && n.resources.volumeSize == cfg.defaultVolumeSize
  }

  function Indicator(cfg: Config, c: Class): Node -> int {
    (n: Node) => if InClass(cfg, n.spec, c) then 1 else 0
  }

  /** How many of the nodes are in the class. */
  function Count(cfg: Config, c: Class, nodes: seq<Node>): int {
    Sum(nodes, Indicator(cfg, c))
  }

  function Share(c: Class, s: StandbySpec, n: int): int {
    if ClassOf(s) == c then n else 0
  }

  function CountFor(c: Class): StandbySpec -> int {
    (s: StandbySpec) => Share(c, s, s.count)
  }

  /** How many nodes the specs of the class ask for. */
  function Wanted(c: Class, specs: seq<StandbySpec>): int {
    Sum(specs, CountFor(c))
  }

  function NeedFor(c: Class, needed: map<StandbySpec, int>): StandbySpec -> int {
    (s: StandbySpec) => if s in needed then Share(c, s, needed[s]) else 0
  }

  /** How many nodes the specs of the class are short of. */
  function Short(c: Class, specs: seq<StandbySpec>, needed: map<StandbySpec, int>): int {
    Sum(specs, NeedFor(c, needed))
  }

  lemma {:induction false} WantedNonnegative(c: Class, specs: seq<StandbySpec>)
    requires NonnegativeCounts(specs)
    ensures Wanted(c, specs) >= 0
  {
    if specs != [] { WantedNonnegative(c, specs[1..]); }
  }

  /** Taking for a spec changes the count of its own class only. */
  lemma {:induction false} TakeCounts(cfg: Config, spec: StandbySpec, nodes: seq<Node>, needed: nat, c: Class)
    ensures var t := Take(cfg, spec, nodes, needed);
      && Count(cfg, c, t.left) + Share(c, spec, |t.kept|) == Count(cfg, c, nodes)
      && Count(cfg, c, t.kept) == Share(c, spec, |t.kept|)
      && (c == ClassOf(spec) ==> t.needed == if Count(cfg, c, nodes) < needed then needed - Count(cfg, c, nodes) else 0)
  {
    CountNonnegative(cfg, c, nodes);
    if nodes != [] && needed != 0 {
      var matches := NodeMatchesStandbySpec(cfg, nodes[0].spec, spec);
      assert c == ClassOf(spec) ==> matches == InClass(cfg, nodes[0].spec, c);
      assert c != ClassOf(spec) ==> !(matches && InClass(cfg, nodes[0].spec, c));
      CountCons(cfg, c, nodes);
      hide NodeMatchesStandbySpec, InClass, Count;
      var t := Take(cfg, spec, nodes[1..], if matches then needed - 1 else needed);
      TakeCounts(cfg, spec, nodes[1..], if matches then needed - 1 else needed, c);
      if matches { CountCons(cfg, c, [nodes[0]] + t.kept); } else { CountCons(cfg, c, [nodes[0]] + t.left); }
    } else {
      assert Count(cfg, c, []) == 0;
    }
  }

  /** The pools after serving the first spec. */
  lemma FillStep(cfg: Config, specs: seq<StandbySpec>, nodes: seq<Node>)
    requires specs != []
    ensures var t := Take(cfg, specs[0], nodes, specs[0].count);
      var p := FillPools(cfg, specs[1..], t.left);
      && FillPools(cfg, specs, nodes) == Pool([t.kept] + p.kept, p.left, map[specs[0] := t.needed] + p.needed)
      && Flatten([t.kept] + p.kept) == t.kept + Flatten(p.kept)
  {}

  /** After a round, each class holds as many nodes, kept or still to be created, as the specs want. */
  lemma {:induction false} FillCounts(cfg: Config, specs: seq<StandbySpec>, nodes: seq<Node>, c: Class)
    requires Distinct(specs) && NonnegativeCounts(specs)
    ensures var p := FillPools(cfg, specs, nodes);
      Count(cfg, c, Flatten(p.kept)) + Short(c, specs, p.needed) == Wanted(c, specs)
  {
    if specs != [] {
      var t := Take(cfg, specs[0], nodes, specs[0].count);
      var p := FillPools(cfg, specs[1..], t.left);
      FillStep(cfg, specs, nodes);
      TakeCounts(cfg, specs[0], nodes, specs[0].count, c);
      FillCounts(cfg, specs[1..], t.left, c);
      SumConcat(t.kept, Flatten(p.kept), Indicator(cfg, c));
      hide FillPools, Take, Flatten, Indicator;
      var needed := map[specs[0] := t.needed] + p.needed;
      assert specs[0] !in specs[1..];
      ShortDependsOn(c, specs[1..], p.needed, needed);
      assert needed[specs[0]] == t.needed;
    }
  }

  lemma {:induction false} ShortDependsOn(c: Class, specs: seq<StandbySpec>, a: map<StandbySpec, int>,
                                          b: map<StandbySpec, int>)
    requires forall s :: s in specs ==> s in a && s in b && a[s] == b[s]
    ensures Short(c, specs, a) == Short(c, specs, b)
  {
    if specs != [] {
      ShortDependsOn(c, specs[1..], a, b);
    }
  }

  /** The nodes created for the pools, by class. */
  lemma {:induction false} CreatedCounts(cfg: Config, order: seq<StandbySpec>, needed: map<StandbySpec, int>,
                                         uuid: nat -> string, k: nat, c: Class)
    requires forall s :: s in order ==> s in needed && needed[s] >= 0
    ensures Count(cfg, c, NodesForPools(cfg, order, needed, uuid, k)) == Short(c, order, needed)
  {
    if order != [] {
      var r := StandbyNodes(cfg, order[0], needed[order[0]], uuid, k);
      var more := NodesForPools(cfg, order[1..], needed, uuid, k + |r|);
      assert NodesForPools(cfg, order, needed, uuid, k) == r + more;
      assert Short(c, order, needed) == Share(c, order[0], needed[order[0]]) + Short(c, order[1..], needed);
      hide StandbyNodes, NodesForPools, Indicator, Sum, NeedFor;
      StandbyCounts(cfg, order[0], needed[order[0]], uuid, k, c);
      CreatedCounts(cfg, order[1..], needed, uuid, k + |r|, c);
      SumConcat(r, more, Indicator(cfg, c));
    }
  }

  lemma {:induction false} StandbyCounts(cfg: Config, spec: StandbySpec, n: nat, uuid: nat -> string, k: nat, c: Class)
    ensures Count(cfg, c, StandbyNodes(cfg, spec, n, uuid, k)) == Share(c, spec, n)
  {
    if n > 0 {
      StandbyCounts(cfg, spec, n - 1, uuid, k + 1, c);
      var r := StandbyNodes(cfg, spec, n, uuid, k);
      assert r[1..] == StandbyNodes(cfg, spec, n - 1, uuid, k + 1);
    }
  }

  /** If the nodes are exactly as many, class by class, as the specs want, all are kept and none is missing. */
  lemma {:induction false} ExactPoolsAreStable(cfg: Config, specs: seq<StandbySpec>, nodes: seq<Node>)
    requires NonnegativeCounts(specs)
    requires forall c :: Count(cfg, c, nodes) == Wanted(c, specs)
    requires forall n :: n in nodes ==> n.spec.resources.volumeSize == cfg.defaultVolumeSize
    ensures var p := FillPools(cfg, specs, nodes); p.left == [] && forall s :: s in specs ==> p.needed[s] == 0
  {
    if specs == [] {
      if nodes != [] {
        var c := Class(nodes[0].spec.instanceType, nodes[0].spec.spot);
        assert Count(cfg, c, nodes) == Wanted(c, specs);
        CountNonnegative(cfg, c, nodes[1..]);
      }
    } else {
      var t := Take(cfg, specs[0], nodes, specs[0].count);
      var own := ClassOf(specs[0]);
      assert Count(cfg, own, nodes) == Wanted(own, specs);
      WantedNonnegative(own, specs[1..]);
      TakeCounts(cfg, specs[0], nodes, specs[0].count, own);
      forall c ensures Count(cfg, c, t.left) == Wanted(c, specs[1..]) {
        TakeCounts(cfg, specs[0], nodes, specs[0].count, c);
        assert Count(cfg, c, nodes) == Wanted(c, specs);
      }
      TakeConserves(cfg, specs[0], nodes, specs[0].count);
      forall n | n in t.left ensures n.spec.resources.volumeSize == cfg.defaultVolumeSize {
        assert n in multiset(t.left) && n in multiset(nodes);
      }
      ExactPoolsAreStable(cfg, specs[1..], t.left);
      FillStep(cfg, specs, nodes);
    }
  }

  lemma CountCons(cfg: Config, c: Class, nodes: seq<Node>)
    requires nodes != []
    ensures Count(cfg, c, nodes) == (if InClass(cfg, nodes[0].spec, c) then 1 else 0) + Count(cfg, c, nodes[1..])
    ensures forall x, s :: nodes == [x] + s ==> nodes[1..] == s
  {}

  lemma {:induction false} CountNonnegative(cfg: Config, c: Class, nodes: seq<Node>)
    ensures Count(cfg, c, nodes) >= 0
  {
    if nodes != [] { CountNonnegative(cfg, c, nodes[1..]); }
  }
}

/** BindingNodeScaler.Compute step by step: it updates the node objects it is given, and what it
  * returns is the outcome of a round. */
module NodeScalerCompute {
  import opened Wrappers
  import opened ApiTypes
  import opened Partition
  import opened Sums
  import opened NodeScaler
  import opened NodeScalerMatching
  import opened NodeScalerPools
  import opened NodeScalerRounds
  import opened NodeSelection

  /** A node as the scaler holds it: a pointer whose binding it overwrites. */
  class NodeRef {
    const name: string
    const spec: NodeSpec
    var phase: NodePhase
    var bound: string

    constructor (n: Node)
      ensures View() == n
    {
      name, spec, phase, bound := n.name, n.spec, n.phase, n.bound;
    }

    function View(): Node
      reads this
    {
      Node(name, spec, phase, bound)
    }
  }

  ghost function Views(s: seq<NodeRef>): (v: seq<Node>)
    reads s
    ensures |v| == |s| && forall i :: 0 <= i < |s| ==> v[i] == s[i].View()
  {
    if s == [] then [] else Views(s[..|s| - 1]) + [s[|s| - 1].View()]
  }

  lemma ViewsConcat(a: seq<NodeRef>, b: seq<NodeRef>)
    ensures Views(a + b) == Views(a) + Views(b)
  {}

  lemma ViewsIgnoreOrder(a: seq<NodeRef>, b: seq<NodeRef>)
    requires multiset(a) == multiset(b)
    ensures multiset(Views(a)) == multiset(Views(b))
  {
    hide Views;
    var m := map n | n in a :: n.View();
    forall x ensures x in a <==> x in b {
      assert x in a <==> x in multiset(a);
      assert x in b <==> x in multiset(b);
    }
    ApplyIgnoresOrder(a, b, m);
    assert Apply(a, m) == Views(a) && Apply(b, m) == Views(b);
  }

  lemma ViewsAre(s: seq<NodeRef>, v: seq<Node>)
    requires |v| == |s| && forall i :: 0 <= i < |s| ==> s[i].View() == v[i]
    ensures Views(s) == v
  {}

  lemma WithoutAt<T>(s: seq<T>, i: nat)
    requires i < |s|
    ensures |Without(s, i)| == |s| - 1
    ensures forall j :: 0 <= j < |s| - 1 ==> Without(s, i)[j] == s[if j < i then j else j + 1]
  {}

  // ---- the waiting pods ----

  method WaitingPods(pods: seq<Pod>) returns (w: map<string, Pod>)
    ensures w == Waiting(pods)
  {
    w := map[];
    for k := 0 to |pods|
      invariant w == Waiting(pods[..k])
    {
      assert pods[..k + 1][..k] == pods[..k];
      if pods[k].phase == PodWaiting {
        w := w[pods[k].name := pods[k]];
      }
    }
    assert pods[..|pods|] == pods;
  }

  // ---- old bindings ----

  /** The parts, as nodes. */
  lemma SelectViews(refs: seq<NodeRef>, before: seq<Node>, waiting: Pods)
    requires |refs| == |before| && forall i :: 0 <= i < |refs| ==> refs[i].View() == Cleared(before[i], waiting)
    ensures Views(Select(refs, before, waiting, Idle)) == IdleNodes(before)
    ensures Views(Select(refs, before, waiting, Still)) == StillNodes(before, waiting)
    ensures Views(Select(refs, before, waiting, Free)) == UnboundNodes(before, waiting)
  {
    hide Select, Views, Cleared;
    var view := map n | n in refs :: n.View();
    SelectIdle(refs, before, waiting, view);
    SelectStill(refs, before, waiting, view);
    SelectFree(refs, before, waiting, view);
  }

  /** What the first loop does with one node. */
  method RebindNode(node: NodeRef, waiting: Pods, bindings: map<string, string>, unbound: seq<NodeRef>,
                    dirty: map<string, NodeRef>)
    returns (bindings': map<string, string>, unbound': seq<NodeRef>, dirty': map<string, NodeRef>)
    modifies node
    ensures node.View() == Cleared(old(node.View()), waiting)
    ensures var n := old(node.View());
      && bindings' == (if StillBound(n, waiting) then bindings[n.bound := n.name] else bindings)
      && unbound' == (if PartOf(n, waiting) == Free then unbound + [node] else unbound)
      && dirty' == (if WasCleared(n, waiting) then dirty[n.name := node] else dirty)
  {
    bindings', unbound', dirty' := bindings, unbound, dirty;
    if node.phase == NodeCreating || node.phase == NodeCreated || node.phase == NodeAvailable {
      if node.bound != "" && node.bound in waiting {
        bindings' := bindings'[node.bound := node.name];
      } else {
        if node.bound != "" {
          node.bound := "";
          dirty' := dirty'[node.name := node];
        }
        unbound' := unbound' + [node];
      }
    }
  }

  lemma NothingYet(nodes: seq<NodeRef>, before: seq<Node>, waiting: Pods)
    requires |nodes| == |before|
    ensures OldBindings(before[..0], waiting) == map[] && Select(nodes[..0], before[..0], waiting, Free) == []
    ensures ClearedOnes(nodes[..0], before[..0], waiting) == map[]
  {}

  /** Bindings to pods that do not wait are cleared; the others are collected. */
  method Rebind(nodes: seq<NodeRef>, waiting: Pods)
    returns (bindings: map<string, string>, unbound: seq<NodeRef>, dirty: map<string, NodeRef>)
    requires Distinct(nodes)
    modifies nodes
    ensures bindings == OldBindings(old(Views(nodes)), waiting)
    ensures unbound == Select(nodes, old(Views(nodes)), waiting, Free)
    ensures dirty == ClearedOnes(nodes, old(Views(nodes)), waiting)
    ensures forall j :: 0 <= j < |nodes| ==> nodes[j].View() == Cleared(old(nodes[j].View()), waiting)
  {
    hide Views, StillBound, Cleared, WasCleared, PartOf, OldBindings, Select, ClearedOnes;
    ghost var before := Views(nodes);
    bindings, unbound, dirty := map[], [], map[];
    NothingYet(nodes, before, waiting);
    for k := 0 to |nodes|
      invariant forall j :: 0 <= j < k ==> nodes[j].View() == Cleared(before[j], waiting)
      invariant forall j :: k <= j < |nodes| ==> nodes[j].View() == before[j]
      invariant bindings == OldBindings(before[..k], waiting)
      invariant unbound == Select(nodes[..k], before[..k], waiting, Free)
      invariant dirty == ClearedOnes(nodes[..k], before[..k], waiting)
    {
      OldBindingsNext(before, waiting, k);
      SelectNext(nodes, before, waiting, Free, k);
      ClearedOnesNext(nodes, before, waiting, k);
      bindings, unbound, dirty := RebindNode(nodes[k], waiting, bindings, unbound, dirty);
    }
    assert before[..|nodes|] == before && nodes[..|nodes|] == nodes;
  }

  // ---- the pods that need a node ----

  /** Go iterates the map in an arbitrary order. */
  method UnboundPods(waiting: Pods, bindings: map<string, string>) returns (r: seq<Pod>)
    requires forall p :: p in waiting ==> waiting[p].name == p
    ensures Distinct(r)
    ensures forall p :: p in r <==> NeedsNode(p.name, waiting, bindings) && waiting[p.name] == p
  {
    r := [];
    var todo := waiting.Keys;
    while todo != {}
      invariant todo <= waiting.Keys
      invariant Distinct(r)
      invariant forall p :: p in r <==> NeedsNode(p.name, waiting, bindings) && waiting[p.name] == p && p.name !in todo
    {
      var name :| name in todo;
      todo := todo - {name};
      if name !in bindings || bindings[name] == "" {
        r := r + [waiting[name]];
      }
    }
  }

  method Partitioned<T>(s: seq<T>, isFront: T -> bool) returns (r: seq<T>)
    ensures FrontFirst(r, isFront) && multiset(r) == multiset(s)
  {
    var a := new T[|s|](i requires 0 <= i < |s| => s[i]);
    assert a[..] == s;
    PartitionSlice(a, isFront);
    r := a[..];
  }

  // ---- matching ----

  method FindMatch(cfg: Config, pod: Pod, nodes: seq<NodeRef>) returns (i: nat)
    ensures i == FirstMatch(cfg, pod.spec, Views(nodes))
  {
    i := 0;
    while i < |nodes| && !PodMatchesNode(cfg, pod.spec, nodes[i].spec)
      invariant i <= |nodes|
      invariant forall j :: 0 <= j < i ==> !PodMatchesNode(cfg, pod.spec, nodes[j].spec)
    {
      i := i + 1;
    }
  }

  /** A matching of the first pods, followed by one of the rest. */
  function Joined(pairs: seq<Pair>, needy: seq<Pod>, m: Matching): Matching {
    Matching(pairs + m.pairs, needy + m.needy, m.left)
  }

  lemma JoinedStep(cfg: Config, pairs: seq<Pair>, needy: seq<Pod>, pods: seq<Pod>, nodes: seq<Node>)
    requires pods != []
    ensures var i := FirstMatch(cfg, pods[0].spec, nodes); var m := Match(cfg, pods[1..], Remaining(cfg, pods, nodes));
      Joined(pairs, needy, Match(cfg, pods, nodes))
        == if i < |nodes| then Joined(pairs + [Pair(pods[0], nodes[i])], needy, m)
          else Joined(pairs, needy + [pods[0]], m)
  {}

  ghost function ByName(refs: seq<NodeRef>): map<string, NodeRef> {
    if refs == [] then map[] else ByName(refs[..|refs| - 1])[refs[|refs| - 1].name := refs[|refs| - 1]]
  }

  lemma ByNameSnoc(refs: seq<NodeRef>, n: NodeRef)
    ensures ByName(refs + [n]) == ByName(refs)[n.name := n]
  {}

  lemma BoundSnoc(pairs: seq<Pair>, p: Pair)
    ensures BoundNodes(pairs + [p]) == BoundNodes(pairs) + [BoundNode(p)]
    ensures PairBindings(pairs + [p]) == PairBindings(pairs)[p.pod.name := p.node.name]
  {}

  lemma ViewsSnoc(s: seq<NodeRef>, n: NodeRef)
    ensures Views(s + [n]) == Views(s) + [n.View()]
  {}

  lemma TakeOne(nodes: seq<NodeRef>, taken: seq<NodeRef>, free: seq<NodeRef>, i: nat)
    requires Distinct(nodes) && i < |free| && multiset(taken) + multiset(free) == multiset(nodes)
    ensures Distinct(Without(free, i)) && multiset(taken + [free[i]]) + multiset(Without(free, i)) == multiset(nodes)
  {
    WithoutOne(free, i);
    hide Without;
    DistinctPart(Without(free, i), multiset(taken + [free[i]]), nodes);
  }

  /** The state of the matching loop. */
  datatype Progress = Progress(needy: seq<Pod>, free: seq<NodeRef>, bindings: map<string, string>,
    dirty: map<string, NodeRef>)

  /** The pairs made since `start` are in the map and their nodes, no longer free, are marked dirty. */
  ghost predicate InProgress(start: Progress, nodes: seq<NodeRef>, p: Progress, taken: seq<NodeRef>, pairs: seq<Pair>) {
    && Distinct(p.free) && multiset(taken) + multiset(p.free) == multiset(nodes)
    && p.bindings == start.bindings + PairBindings(pairs) && p.dirty == start.dirty + ByName(taken)
  }

  lemma TookOne(pod: Pod, nodes: seq<NodeRef>, start: Progress, p: Progress, p': Progress, taken: seq<NodeRef>,
                pairs: seq<Pair>, i: nat, node: Node)
    requires Distinct(nodes) && InProgress(start, nodes, p, taken, pairs)
    requires i < |p.free| && p'.free == Without(p.free, i) && node.name == p.free[i].name
    requires p'.bindings == p.bindings[pod.name := node.name] && p'.dirty == p.dirty[node.name := p.free[i]]
    ensures InProgress(start, nodes, p', taken + [p.free[i]], pairs + [Pair(pod, node)])
  {
    hide Without, PairBindings, BoundNodes, ByName;
    var pair, n := Pair(pod, node), p.free[i];
    TakeOne(nodes, taken, p.free, i);
    BoundSnoc(pairs, pair);
    ByNameSnoc(taken, n);
    UpdateSum(start.bindings, PairBindings(pairs), pod.name, node.name);
    UpdateSum(start.dirty, ByName(taken), n.name, n);
  }

  lemma UpdateSum<K, V>(a: map<K, V>, b: map<K, V>, k: K, v: V)
    ensures (a + b)[k := v] == a + b[k := v]
  {}

  lemma Disjoint(start: Progress, nodes: seq<NodeRef>, p: Progress, taken: seq<NodeRef>, pairs: seq<Pair>)
    requires Distinct(nodes) && InProgress(start, nodes, p, taken, pairs)
    ensures Distinct(p.free) && forall j :: 0 <= j < |taken| ==> taken[j] !in p.free
  {
    DistinctPart(taken, multiset(p.free), nodes);
    forall j | 0 <= j < |taken| ensures taken[j] !in p.free {
      assert taken[j] in taken;
    }
  }

  /** Only the nodes taken have changed. */
  ghost predicate OnlyTaken(nodes: seq<NodeRef>, taken: seq<NodeRef>, before: seq<Node>)
    reads nodes
  {
    |nodes| == |before| && forall j :: 0 <= j < |nodes| && nodes[j] !in taken ==> nodes[j].View() == before[j]
  }

  /** One turn of the matching loop, with the nodes taken and the pairs made so far. */
  method MatchNext(cfg: Config, pods: seq<Pod>, ghost nodes: seq<NodeRef>, p: Progress, ghost start: Progress,
                   ghost taken: seq<NodeRef>, ghost pairs: seq<Pair>, ghost before: seq<Node>)
    returns (p': Progress, ghost taken': seq<NodeRef>, ghost pairs': seq<Pair>)
    requires pods != [] && Distinct(nodes) && InProgress(start, nodes, p, taken, pairs)
      && Views(taken) == BoundNodes(pairs)
    requires OnlyTaken(nodes, taken, before)
    modifies nodes
    ensures InProgress(start, nodes, p', taken', pairs') && Views(taken') == BoundNodes(pairs')
    ensures OnlyTaken(nodes, taken', before)
    ensures Joined(pairs', p'.needy, Match(cfg, pods[1..], Views(p'.free)))
      == Joined(pairs, p.needy, Match(cfg, pods, old(Views(p.free))))
  {
    hide Match, FirstMatch, Joined, InProgress, Views, Without, Distinct, BoundNodes;
    ghost var views := Views(p.free);
    var i := FindMatch(cfg, pods[0], p.free);
    JoinedStep(cfg, pairs, p.needy, pods, views);
    if i < |p.free| {
      var node := p.free[i];
      p' := Progress(p.needy, Without(p.free, i), p.bindings[pods[0].name := node.name], p.dirty[node.name := node]);
      TookOne(pods[0], nodes, start, p, p', taken, pairs, i, views[i]);
      ViewsWithout(p.free, i);
      TakenOnce(start, nodes, p, taken, pairs, i);
      BoundSnoc(pairs, Pair(pods[0], views[i]));
      node.bound := pods[0].name;
      ViewsAre(taken, BoundNodes(pairs));
      ViewsAre(p'.free, Without(views, i));
      ViewsSnoc(taken, node);
      taken', pairs' := taken + [node], pairs + [Pair(pods[0], views[i])];
    } else {
      taken', pairs' := taken, pairs;
      p' := p.(needy := p.needy + [pods[0]]);
      TookNone(start, nodes, p, p', taken, pairs);
    }
  }

  lemma ViewsWithout(s: seq<NodeRef>, i: nat)
    requires i < |s|
    ensures Views(Without(s, i)) == Without(Views(s), i)
  {
    hide Views;
    WithoutAt(s, i);
    WithoutAt(Views(s), i);
    hide Without;
    ViewsAre(Without(s, i), Without(Views(s), i));
  }

  lemma TakenOnce(start: Progress, nodes: seq<NodeRef>, p: Progress, taken: seq<NodeRef>, pairs: seq<Pair>, i: nat)
    requires Distinct(nodes) && InProgress(start, nodes, p, taken, pairs) && i < |p.free|
    ensures p.free[i] in nodes
    ensures forall j :: 0 <= j < |taken| ==> taken[j] != p.free[i]
    ensures forall j :: 0 <= j < |Without(p.free, i)| ==> Without(p.free, i)[j] != p.free[i]
  {
    FreeAreNodes(start, nodes, p, taken, pairs);
    Disjoint(start, nodes, p, taken, pairs);
    WithoutAt(p.free, i);
  }

  lemma TookNone(start: Progress, nodes: seq<NodeRef>, p: Progress, p': Progress, taken: seq<NodeRef>, pairs: seq<Pair>)
    requires InProgress(start, nodes, p, taken, pairs) && p' == p.(needy := p'.needy)
    ensures InProgress(start, nodes, p', taken, pairs)
  {}

  method MatchPods(cfg: Config, pods: seq<Pod>, nodes: seq<NodeRef>, bindings: map<string, string>,
                   dirty: map<string, NodeRef>)
    returns (p: Progress, ghost taken: seq<NodeRef>)
    requires Distinct(nodes)
    modifies nodes
    ensures var m := Match(cfg, pods, old(Views(nodes)));
      && p.needy == m.needy && Views(p.free) == m.left && p.bindings == bindings + PairBindings(m.pairs)
      && Views(taken) == BoundNodes(m.pairs)
    ensures multiset(taken) + multiset(p.free) == multiset(nodes)
    ensures OnlyTaken(nodes, taken, old(Views(nodes)))
    ensures p.dirty == dirty + ByName(taken)
  {
    p, taken := Progress([], nodes, bindings, dirty), [];
    ghost var start, pairs: seq<Pair>, all := p, [], Match(cfg, pods, Views(nodes));
    assert pods[0..] == pods;
    assert all == Joined(pairs, p.needy, all);
    ghost var before := Views(nodes);
    ProgressStarts(p);
    assert OnlyTaken(nodes, [], before);
    hide Match, Views, Joined, OnlyTaken, InProgress, BoundNodes, PairBindings, ByName, Distinct;
    for k := 0 to |pods|
      invariant all == Joined(pairs, p.needy, Match(cfg, pods[k..], Views(p.free)))
      invariant InProgress(start, nodes, p, taken, pairs) && Views(taken) == BoundNodes(pairs)
      invariant OnlyTaken(nodes, taken, before)
    {
      assert pods[k..][1..] == pods[k + 1..];
      p, taken, pairs := MatchNext(cfg, pods[k..], nodes, p, start, taken, pairs, before);
    }
    assert pods[|pods|..] == [];
    NoPodsLeft(cfg, pairs, p.needy, Views(p.free));
    ProgressMade(start, nodes, p, taken, pairs);
  }

  lemma ProgressMade(start: Progress, nodes: seq<NodeRef>, p: Progress, taken: seq<NodeRef>, pairs: seq<Pair>)
    requires InProgress(start, nodes, p, taken, pairs)
    ensures multiset(taken) + multiset(p.free) == multiset(nodes)
    ensures p.bindings == start.bindings + PairBindings(pairs) && p.dirty == start.dirty + ByName(taken)
  {}

  lemma ProgressStarts(p: Progress)
    requires Distinct(p.free)
    ensures InProgress(p, p.free, p, [], []) && Views([]) == BoundNodes([])
  {}

  lemma FreeAreNodes(start: Progress, nodes: seq<NodeRef>, p: Progress, taken: seq<NodeRef>, pairs: seq<Pair>)
    requires InProgress(start, nodes, p, taken, pairs)
    ensures forall j :: 0 <= j < |p.free| ==> p.free[j] in nodes
  {
    forall j | 0 <= j < |p.free| ensures p.free[j] in nodes {
      assert p.free[j] in multiset(p.free);
      assert p.free[j] in multiset(nodes);
    }
  }

  lemma NoPodsLeft(cfg: Config, pairs: seq<Pair>, needy: seq<Pod>, nodes: seq<Node>)
    ensures Joined(pairs, needy, Match(cfg, [], nodes)) == Matching(pairs, needy, nodes)
  {}

  // ---- new nodes for the pods left over ----

  /** Nodes have been made for the first `j` pods. */
  ghost predicate Creating(cfg: Config, needy: seq<Pod>, uuid: nat -> string, j: nat, made: seq<Node>,
                           bindings0: map<string, string>, bindings: map<string, string>) {
    && j <= |needy| && NodesForPods(cfg, needy, uuid, 0) == made + NodesForPods(cfg, needy[j..], uuid, |made|)
    && bindings == bindings0 + NewBindings(made)
  }

  lemma CreatingNext(cfg: Config, needy: seq<Pod>, uuid: nat -> string, j: nat, made: seq<Node>,
                     bindings0: map<string, string>, bindings: map<string, string>)
    requires Creating(cfg, needy, uuid, j, made, bindings0, bindings) && j < |needy|
    ensures match CreateNodeForPod(cfg, needy[j], uuid(|made|))
      case Some(n) => Creating(cfg, needy, uuid, j + 1, made + [n], bindings0, bindings[needy[j].name := n.name])
      case None => Creating(cfg, needy, uuid, j + 1, made, bindings0, bindings)
  {
    assert needy[j..][1..] == needy[j + 1..];
    NodesForPodsStep(cfg, made, needy[j..], uuid);
    var node := CreateNodeForPod(cfg, needy[j], uuid(|made|));
    assert node.Some? ==> node.value.bound == needy[j].name;
    hide NodesForPods, NewBindings, CreateNodeForPod;
    if node.Some? {
      NewBindingsSnoc(made, node.value);
      UpdateSum(bindings0, NewBindings(made), needy[j].name, node.value.name);
    }
  }

  method CreateForPods(cfg: Config, needy: seq<Pod>, uuid: nat -> string, bindings0: map<string, string>)
    returns (made: seq<Node>, bindings: map<string, string>)
    ensures made == NodesForPods(cfg, needy, uuid, 0)
    ensures bindings == bindings0 + NewBindings(made)
  {
    made, bindings := [], bindings0;
    assert needy[0..] == needy && needy[|needy|..] == [];
    for j := 0 to |needy|
      invariant Creating(cfg, needy, uuid, j, made, bindings0, bindings)
    {
      CreatingNext(cfg, needy, uuid, j, made, bindings0, bindings);
      hide Creating, CreateNodeForPod, NodesForPods, NewBindings;
      var node := CreateNodeForPod(cfg, needy[j], uuid(|made|));
      if node.Some? {
        bindings := bindings[needy[j].name := node.value.name];
        made := made + [node.value];
      }
    }
  }

  lemma NodesForPodsStep(cfg: Config, made: seq<Node>, needy: seq<Pod>, uuid: nat -> string)
    requires needy != []
    ensures var node := CreateNodeForPod(cfg, needy[0], uuid(|made|));
      made + NodesForPods(cfg, needy, uuid, |made|)
        == if node.Some? then (made + [node.value]) + NodesForPods(cfg, needy[1..], uuid, |made| + 1)
           else made + NodesForPods(cfg, needy[1..], uuid, |made|)
  {}

  lemma NewBindingsSnoc(made: seq<Node>, n: Node)
    ensures NewBindings(made + [n]) == NewBindings(made)[n.bound := n.name]
  {}

  // ---- standby pools ----

  function Prepended(kept: seq<Node>, left: seq<Node>, t: Taken): Taken {
    Taken(kept + t.kept, left + t.left, t.needed)
  }

  lemma PrependedStep(cfg: Config, spec: StandbySpec, kept: seq<Node>, left: seq<Node>, nodes: seq<Node>, needed: int)
    requires nodes != [] && needed != 0
    ensures Prepended(kept, left, Take(cfg, spec, nodes, needed))
      == if NodeMatchesStandbySpec(cfg, nodes[0].spec, spec)
        then Prepended(kept + [nodes[0]], left, Take(cfg, spec, nodes[1..], needed - 1))
         else Prepended(kept, left + [nodes[0]], Take(cfg, spec, nodes[1..], needed))
  {}

  /** The walk over the free nodes has come to position `i`. */
  ghost predicate Walking(cfg: Config, spec: StandbySpec, nodes: seq<NodeRef>, kept: seq<NodeRef>, free: seq<NodeRef>,
                          i: nat, needed: int)
    reads nodes, kept, free
  {
    && i <= |free| && multiset(kept) + multiset(free) == multiset(nodes)
    && Take(cfg, spec, Views(nodes), spec.count)
      == Prepended(Views(kept), Views(free[..i]), Take(cfg, spec, Views(free[i..]), needed))
  }

  lemma WalkStarts(cfg: Config, spec: StandbySpec, nodes: seq<NodeRef>)
    ensures Walking(cfg, spec, nodes, [], nodes, 0, spec.count)
  {}

  lemma ViewsFrom(free: seq<NodeRef>, i: nat)
    requires i < |free|
    ensures Views(free[i..]) != [] && Views(free[i..])[0] == free[i].View()
      && Views(free[i..])[1..] == Views(free[i + 1..])
    ensures Views(free[..i + 1]) == Views(free[..i]) + [free[i].View()]
  {}

  lemma WithoutParts<T>(free: seq<T>, i: nat)
    requires i < |free|
    ensures |Without(free, i)| == |free| - 1 && Without(free, i)[..i] == free[..i]
      && Without(free, i)[i..] == free[i + 1..]
  {}

  lemma OneLess<T>(free: seq<T>, i: nat)
    requires i < |free|
    ensures |Without(free, i)| == |free| - 1
  {}

  lemma OneMoreKept<T>(kept: seq<T>, free: seq<T>, i: nat)
    requires i < |free|
    ensures multiset(kept + [free[i]]) + multiset(Without(free, i)) == multiset(kept) + multiset(free)
  {
    WithoutOne(free, i);
    hide Without;
  }

  lemma WalkStep(cfg: Config, spec: StandbySpec, nodes: seq<NodeRef>, kept: seq<NodeRef>, free: seq<NodeRef>, i: nat,
                 needed: int)
    requires Walking(cfg, spec, nodes, kept, free, i, needed) && i < |free| && needed != 0
    ensures if NodeMatchesStandbySpec(cfg, free[i].spec, spec)
      then Walking(cfg, spec, nodes, kept + [free[i]], Without(free, i), i, needed - 1)
      else Walking(cfg, spec, nodes, kept, free, i + 1, needed)
  {
    ViewsFrom(free, i);
    PrependedStep(cfg, spec, Views(kept), Views(free[..i]), Views(free[i..]), needed);
    ViewsSnoc(kept, free[i]);
    OneMoreKept(kept, free, i);
    WithoutParts(free, i);
    hide Views, Take, Prepended, NodeMatchesStandbySpec, Without;
  }

  lemma WalkDone(cfg: Config, spec: StandbySpec, nodes: seq<NodeRef>, kept: seq<NodeRef>, free: seq<NodeRef>, i: nat,
                 needed: int)
    requires Walking(cfg, spec, nodes, kept, free, i, needed) && (i == |free| || needed == 0)
    ensures Take(cfg, spec, Views(nodes), spec.count) == Taken(Views(kept), Views(free), needed)
    ensures multiset(kept) + multiset(free) == multiset(nodes)
  {
    assert free[..i] + free[i..] == free;
    ViewsConcat(free[..i], free[i..]);
    hide Views;
  }

  /** One turn of the walk. */
  method Walk(cfg: Config, spec: StandbySpec, ghost nodes: seq<NodeRef>, ghost kept: seq<NodeRef>, free: seq<NodeRef>,
              i: nat, needed: int)
    returns (ghost kept': seq<NodeRef>, free': seq<NodeRef>, i': nat, needed': int)
    requires i < |free| && needed != 0 && Walking(cfg, spec, nodes, kept, free, i, needed)
    ensures Walking(cfg, spec, nodes, kept', free', i', needed') && i' <= |free'| && |free'| - i' == |free| - i - 1
  {
    WalkStep(cfg, spec, nodes, kept, free, i, needed);
    OneLess(free, i);
    hide Walking, Take, Views, Without, NodeMatchesStandbySpec;
    if NodeMatchesStandbySpec(cfg, free[i].spec, spec) {
      kept', free', i', needed' := kept + [free[i]], Without(free, i), i, needed - 1;
    } else {
      kept', free', i', needed' := kept, free, i + 1, needed;
    }
  }

  /** Serves one spec, removing the nodes it keeps from the list while walking over it. */
  method TakeFor(cfg: Config, spec: StandbySpec, nodes: seq<NodeRef>)
    returns (needed: int, free: seq<NodeRef>, ghost kept: seq<NodeRef>)
    ensures Take(cfg, spec, Views(nodes), spec.count) == Taken(Views(kept), Views(free), needed)
    ensures multiset(kept) + multiset(free) == multiset(nodes)
  {
    needed, free, kept := spec.count, nodes, [];
    var i: nat := 0;
    WalkStarts(cfg, spec, nodes);
    hide Walking, Take, Views;
    while i < |free| && needed != 0
      invariant i <= |free| && Walking(cfg, spec, nodes, kept, free, i, needed)
      decreases |free| - i
    {
      kept, free, i, needed := Walk(cfg, spec, nodes, kept, free, i, needed);
    }
    WalkDone(cfg, spec, nodes, kept, free, i, needed);
  }

  /** The pools served so far, and those still to be served. */
  ghost predicate Filling(cfg: Config, nodes: seq<NodeRef>, k: nat, kept: seq<NodeRef>, pools: seq<seq<Node>>,
                          free: seq<NodeRef>, needed: map<StandbySpec, int>)
    reads nodes, kept, free
  {
    && k <= |cfg.standby| && multiset(kept) + multiset(free) == multiset(nodes) && Views(kept) == Flatten(pools)
    && var p := FillPools(cfg, cfg.standby[k..], Views(free));
       FillPools(cfg, cfg.standby, Views(nodes)) == Pool(pools + p.kept, p.left, needed + p.needed)
  }

  lemma {:induction false} FlattenSnoc(pools: seq<seq<Node>>, s: seq<Node>)
    ensures Flatten(pools + [s]) == Flatten(pools) + s
  {
    if pools == [] {
      assert [] + [s] == [s];
      assert [s][1..] == [];
    } else {
      assert (pools + [s])[1..] == pools[1..] + [s];
      FlattenSnoc(pools[1..], s);
    }
  }

  lemma FillNext(cfg: Config, nodes: seq<NodeRef>, k: nat, kept: seq<NodeRef>, pools: seq<seq<Node>>,
                 free: seq<NodeRef>, needed: map<StandbySpec, int>,
                 taken: seq<NodeRef>, free': seq<NodeRef>, n: int)
    requires k < |cfg.standby| && Filling(cfg, nodes, k, kept, pools, free, needed)
    requires var spec := cfg.standby[k];
      Take(cfg, spec, Views(free), spec.count) == Taken(Views(taken), Views(free'), n)
        && multiset(taken) + multiset(free') == multiset(free)
    ensures Filling(cfg, nodes, k + 1, kept + taken, pools + [Views(taken)], free', needed[cfg.standby[k] := n])
  {
    var rest := cfg.standby[k..];
    assert rest[0] == cfg.standby[k] && rest[1..] == cfg.standby[k + 1..];
    FillStep(cfg, rest, Views(free));
    FlattenSnoc(pools, Views(taken));
    ViewsConcat(kept, taken);
    MoreKept(kept, taken, free', free, nodes);
    hide FillPools, Take, Views, Flatten;
    var p := FillPools(cfg, cfg.standby[k + 1..], Views(free'));
    MorePools(pools, Views(taken), p.kept);
    MoreNeeded(needed, cfg.standby[k], n, p.needed);
  }

  lemma MoreKept<T>(kept: seq<T>, taken: seq<T>, free': seq<T>, free: seq<T>, nodes: seq<T>)
    requires multiset(kept) + multiset(free) == multiset(nodes) && multiset(taken) + multiset(free') == multiset(free)
    ensures multiset(kept + taken) + multiset(free') == multiset(nodes)
  {}

  lemma MorePools<T>(a: seq<T>, x: T, b: seq<T>)
    ensures a + ([x] + b) == (a + [x]) + b
  {}

  lemma MoreNeeded<K, V>(a: map<K, V>, k: K, v: V, b: map<K, V>)
    ensures a + (map[k := v] + b) == a[k := v] + b
  {}

  lemma FillStarts(cfg: Config, nodes: seq<NodeRef>)
    ensures Filling(cfg, nodes, 0, [], [], nodes, map[])
  {
    assert cfg.standby[0..] == cfg.standby;
    var p := FillPools(cfg, cfg.standby, Views(nodes));
    hide FillPools;
    assert [] + p.kept == p.kept && map[] + p.needed == p.needed;
  }

  lemma FillDone(cfg: Config, nodes: seq<NodeRef>, kept: seq<NodeRef>, pools: seq<seq<Node>>, free: seq<NodeRef>,
                 needed: map<StandbySpec, int>)
    requires Filling(cfg, nodes, |cfg.standby|, kept, pools, free, needed)
    ensures var p := FillPools(cfg, cfg.standby, Views(nodes));
      needed == p.needed && Views(free) == p.left && Views(kept) == Flatten(p.kept)
    ensures multiset(kept) + multiset(free) == multiset(nodes)
  {
    hide FillPools, Views, Flatten;
    assert cfg.standby[|cfg.standby|..] == [];
    NothingToFill(cfg, pools, Views(free), needed);
  }

  lemma NothingToFill(cfg: Config, pools: seq<seq<Node>>, nodes: seq<Node>, needed: map<StandbySpec, int>)
    ensures var p := FillPools(cfg, [], nodes);
      Pool(pools + p.kept, p.left, needed + p.needed) == Pool(pools, nodes, needed)
  {}

  method FillAll(cfg: Config, nodes: seq<NodeRef>)
    returns (needed: map<StandbySpec, int>, free: seq<NodeRef>, ghost kept: seq<NodeRef>)
    ensures var p := FillPools(cfg, cfg.standby, Views(nodes));
      needed == p.needed && Views(free) == p.left && Views(kept) == Flatten(p.kept)
    ensures multiset(kept) + multiset(free) == multiset(nodes)
  {
    needed, free, kept := map[], nodes, [];
    ghost var pools: seq<seq<Node>> := [];
    FillStarts(cfg, nodes);
    hide Filling, FillPools, Take, Views, Flatten;
    for k := 0 to |cfg.standby|
      invariant Filling(cfg, nodes, k, kept, pools, free, needed)
    {
      var n, free', taken := TakeFor(cfg, cfg.standby[k], free);
      FillNext(cfg, nodes, k, kept, pools, free, needed, taken, free', n);
      needed, free, kept, pools := needed[cfg.standby[k] := n], free', kept + taken, pools + [Views(taken)];
    }
    FillDone(cfg, nodes, kept, pools, free, needed);
  }

  lemma {:induction false} NodesForPoolsSnoc(cfg: Config, order: seq<StandbySpec>, s: StandbySpec,
                                             needed: map<StandbySpec, int>, uuid: nat -> string, k: nat)
    requires (forall x :: x in order ==> x in needed) && s in needed
    ensures var before := NodesForPools(cfg, order, needed, uuid, k);
      NodesForPools(cfg, order + [s], needed, uuid, k) == before + StandbyNodes(cfg, s, needed[s], uuid, k + |before|)
  {
    hide StandbyNodes;
    if order == [] {
      assert order + [s] == [s] && [s][1..] == [];
    } else {
      assert (order + [s])[1..] == order[1..] + [s];
      NodesForPoolsSnoc(cfg, order[1..], s, needed, uuid, k + |StandbyNodes(cfg, order[0], needed[order[0]], uuid, k)|);
    }
  }

  method CreateStandby(cfg: Config, spec: StandbySpec, n: int, uuid: nat -> string, k: nat) returns (made: seq<Node>)
    ensures made == StandbyNodes(cfg, spec, n, uuid, k)
  {
    made := [];
    var i := 0;
    while i < n
      invariant i == |made| && (i <= n || i == 0)
      invariant forall j :: 0 <= j < i ==> made[j] == CreateNodeForStandbySpec(cfg, spec, uuid(k + j))
    {
      made := made + [CreateNodeForStandbySpec(cfg, spec, uuid(k + i))];
      i := i + 1;
    }
  }

  lemma NoneDistinct<T>()
    ensures Distinct<T>([])
  {}

  lemma DistinctSnoc<T>(s: seq<T>, x: T)
    requires Distinct(s) && x !in s
    ensures Distinct(s + [x])
  {}

  /** Go iterates the map of missing nodes in an arbitrary order. */
  method CreateForPools(cfg: Config, needed: map<StandbySpec, int>, uuid: nat -> string, k: nat)
    returns (made: seq<Node>, ghost order: seq<StandbySpec>)
    ensures Distinct(order) && forall s :: s in order <==> s in needed
    ensures made == NodesForPools(cfg, order, needed, uuid, k)
  {
    made, order := [], [];
    assert made == NodesForPools(cfg, order, needed, uuid, k);
    hide NodesForPools, StandbyNodes, Distinct;
    NoneDistinct<StandbySpec>();
    var todo := needed.Keys;
    while todo != {}
      invariant todo <= needed.Keys && Distinct(order)
      invariant forall s :: s in order <==> s in needed && s !in todo
      invariant made == NodesForPools(cfg, order, needed, uuid, k)
    {
      var spec :| spec in todo;
      todo := todo - {spec};
      NodesForPoolsSnoc(cfg, order, spec, needed, uuid, k);
      DistinctSnoc(order, spec);
      var more := CreateStandby(cfg, spec, needed[spec], uuid, k + |made|);
      made := made + more;
      order := order + [spec];
    }
  }

  // ---- the whole computation ----

  predicate SpotRef(n: NodeRef) {
    n.spec.spot
  }

  lemma ChosenNodes(unbound: seq<NodeRef>, ordered: seq<NodeRef>, nodes: seq<Node>, waiting: Pods)
    requires Views(unbound) == UnboundNodes(nodes, waiting)
    requires multiset(ordered) == multiset(unbound) && FrontFirst(ordered, SpotRef)
    ensures NodesChosen(Views(ordered), nodes, waiting)
  {
    hide Views, UnboundNodes;
    ViewsIgnoreOrder(ordered, unbound);
  }

  lemma ChosenPods(unbound: seq<Pod>, ordered: seq<Pod>, nodes: seq<Node>, waiting: Pods)
    requires Distinct(unbound) && multiset(ordered) == multiset(unbound) && FrontFirst(ordered, Placed)
    requires forall p :: p in unbound <==>
      NeedsNode(p.name, waiting, OldBindings(nodes, waiting)) && waiting[p.name] == p
    ensures PodsChosen(ordered, nodes, waiting)
  {
    hide OldBindings, NeedsNode, Placed, FrontFirst;
    DistinctPart(ordered, multiset{}, unbound);
    forall p ensures p in ordered <==> p in unbound {
      assert p in ordered <==> p in multiset(ordered);
      assert p in unbound <==> p in multiset(unbound);
    }
    assert forall i :: 0 <= i < |ordered| ==> ordered[i] in unbound;
  }

  /** Steps 1 and 2: the pods and nodes to be matched, in the order in which they will be. */
  method Gather(nodes: seq<NodeRef>, waiting: Pods)
    returns (bindings: map<string, string>, pods: seq<Pod>, free: seq<NodeRef>, dirty: map<string, NodeRef>,
             ghost idle: seq<NodeRef>, ghost still: seq<NodeRef>)
    requires Distinct(nodes) && forall p :: p in waiting ==> waiting[p].name == p
    modifies nodes
    ensures bindings == OldBindings(old(Views(nodes)), waiting)
    ensures PodsChosen(pods, old(Views(nodes)), waiting) && NodesChosen(Views(free), old(Views(nodes)), waiting)
    ensures Views(idle) == IdleNodes(old(Views(nodes))) && Views(still) == StillNodes(old(Views(nodes)), waiting)
    ensures multiset(idle) + multiset(still) + multiset(free) == multiset(nodes)
    ensures dirty == ClearedOnes(nodes, old(Views(nodes)), waiting)
    ensures forall j :: 0 <= j < |nodes| ==> nodes[j].View() == Cleared(old(nodes[j].View()), waiting)
  {
    ghost var before := Views(nodes);
    hide Views, OldBindings, Select, IdleNodes, StillNodes, UnboundNodes, ClearedOnes, Distinct, Cleared, PodsChosen,
         NodesChosen, NeedsNode;
    var unbound;
    bindings, unbound, dirty := Rebind(nodes, waiting);
    var unboundPods := UnboundPods(waiting, bindings);
    free := Partitioned(unbound, SpotRef);
    pods := Partitioned(unboundPods, Placed);
    idle, still := Select(nodes, before, waiting, Idle), Select(nodes, before, waiting, Still);
    SelectViews(nodes, before, waiting);
    SelectParts(nodes, before, waiting);
    ChosenNodes(unbound, free, before, waiting);
    ChosenPods(unboundPods, pods, before, waiting);
  }

  /** Steps 3 to 5, for the given pods and free nodes. */
  method Allocate(cfg: Config, pods: seq<Pod>, nodes: seq<NodeRef>, bindings: map<string, string>,
                  dirty: map<string, NodeRef>, uuid: nat -> string)
    returns (start: seq<Node>, stop: seq<NodeRef>, bindings': map<string, string>, dirty': map<string, NodeRef>,
             ghost taken: seq<NodeRef>, ghost kept: seq<NodeRef>, ghost specs: seq<StandbySpec>)
    requires Distinct(nodes)
    modifies nodes
    ensures SpecsChosen(specs, cfg)
    ensures var m := Match(cfg, pods, old(Views(nodes))); var forPods := NodesForPods(cfg, m.needy, uuid, 0);
      var pool := FillPools(cfg, cfg.standby, m.left);
      && start == forPods + NodesForPools(cfg, specs, pool.needed, uuid, |forPods|)
      && Views(stop) == pool.left && Views(kept) == Flatten(pool.kept) && Views(taken) == BoundNodes(m.pairs)
      && bindings' == bindings + PairBindings(m.pairs) + NewBindings(forPods)
    ensures multiset(taken) + multiset(kept) + multiset(stop) == multiset(nodes)
    ensures dirty' == dirty + ByName(taken) && OnlyTaken(nodes, taken, old(Views(nodes)))
  {
    hide Views, Match, FillPools, NodesForPods, NodesForPools, PairBindings, NewBindings, ByName, Flatten, BoundNodes,
         Distinct, NodeRef.View;
    var p;
    p, taken := MatchPods(cfg, pods, nodes, bindings, dirty);
    dirty' := p.dirty;
    var forPods, needed, forPools;
    forPods, bindings' := CreateForPods(cfg, p.needy, uuid, p.bindings);
    needed, stop, kept := FillAll(cfg, p.free);
    forPools, specs := CreateForPools(cfg, needed, uuid, |forPods|);
    start := forPods + forPools;
    SpecsAreChosen(specs, cfg);
  }

  lemma SpecsAreChosen(specs: seq<StandbySpec>, cfg: Config)
    requires Distinct(specs) && forall s :: s in specs <==> s in cfg.standby
    ensures SpecsChosen(specs, cfg)
  {}

  /** The references that are not free keep the nodes they show while others are matched. */
  lemma OthersKeep(nodes: seq<NodeRef>, part: seq<NodeRef>, other: seq<NodeRef>, free: seq<NodeRef>)
    requires Distinct(nodes) && multiset(part) + multiset(other) + multiset(free) == multiset(nodes)
    ensures Distinct(free)
    ensures forall j :: 0 <= j < |free| ==> free[j] in nodes
    ensures forall j :: 0 <= j < |part| ==> part[j] !in free
    ensures forall j :: 0 <= j < |other| ==> other[j] !in free
  {
    DistinctPart(free, multiset(part) + multiset(other), nodes);
    forall j | 0 <= j < |free|
      ensures free[j] in nodes { assert free[j] in multiset(free); assert free[j] in multiset(nodes); }
    forall j | 0 <= j < |part| ensures part[j] !in free { assert part[j] in multiset(part) + multiset(other); }
    forall j | 0 <= j < |other| ensures other[j] !in free { assert other[j] in multiset(part) + multiset(other); }
  }

  lemma AllParts(nodes: seq<NodeRef>, idle: seq<NodeRef>, still: seq<NodeRef>, free: seq<NodeRef>, taken: seq<NodeRef>,
                 kept: seq<NodeRef>, stop: seq<NodeRef>)
    requires multiset(idle) + multiset(still) + multiset(free) == multiset(nodes)
    requires multiset(taken) + multiset(kept) + multiset(stop) == multiset(free)
    ensures multiset(idle + still + taken + kept) + multiset(stop) == multiset(nodes)
  {}

  lemma ViewsOfParts(idle: seq<NodeRef>, still: seq<NodeRef>, taken: seq<NodeRef>, kept: seq<NodeRef>)
    ensures Views(idle + still + taken + kept) == Views(idle) + Views(still) + Views(taken) + Views(kept)
  {
    hide Views;
    ViewsConcat(idle + still + taken, kept);
    ViewsConcat(idle + still, taken);
    ViewsConcat(idle, still);
  }

  lemma {:induction false} ByNameIs(refs: seq<NodeRef>)
    ensures forall x :: x in ByName(refs) ==> ByName(refs)[x] in refs && ByName(refs)[x].name == x
  {
    if refs != [] { ByNameIs(refs[..|refs| - 1]); }
  }

  /** A reference that changed, because its binding was cleared or because it was taken, is dirty. */
  lemma ChangedIsDirty(nodes: seq<NodeRef>, before: seq<Node>, waiting: Pods, taken: seq<NodeRef>, j: nat)
    requires |nodes| == |before| && j < |nodes| && nodes[j].name == before[j].name
    requires nodes[j] in taken || Cleared(before[j], waiting) != before[j]
    ensures nodes[j].name in ClearedOnes(nodes, before, waiting) + ByName(taken)
  {}

  lemma DirtyAreNodes(nodes: seq<NodeRef>, before: seq<Node>, waiting: Pods, taken: seq<NodeRef>,
                      rest: multiset<NodeRef>, x: string)
    requires |nodes| == |before| && forall j :: 0 <= j < |nodes| ==> nodes[j].name == before[j].name
    requires multiset(taken) + rest == multiset(nodes)
    ensures var dirty := ClearedOnes(nodes, before, waiting) + ByName(taken); x in dirty ==>
      dirty[x] in nodes && dirty[x].name == x
  {
    hide ByName, ClearedOnes;
    ByNameIs(taken);
    if x in ByName(taken) {
      assert ByName(taken)[x] in multiset(taken);
      assert ByName(taken)[x] in multiset(nodes);
    } else if x in ClearedOnes(nodes, before, waiting) {
      var j := ClearedOneIs(nodes, before, waiting, x);
    }
  }

  /** One round, up to writing the dirty nodes back.  `c` records the orders taken, and `rest` the
    * references that stay. */
  method ComputeRound(cfg: Config, nodes: seq<NodeRef>, pods: seq<Pod>, uuid: nat -> string)
    returns (start: seq<Node>, stop: seq<NodeRef>, bindings: map<string, string>, dirty: map<string, NodeRef>,
             ghost c: Choice, ghost rest: seq<NodeRef>)
    requires Distinct(nodes)
    modifies nodes
    ensures ValidChoice(cfg, old(Views(nodes)), Waiting(pods), c)
    ensures var o := Round(cfg, old(Views(nodes)), pods, c, uuid);
      && start == o.Start() && Views(stop) == o.stop && bindings == o.bindings
      && Views(rest) + start == NodesAfter(old(Views(nodes)), Waiting(pods), o)
    ensures multiset(rest) + multiset(stop) == multiset(nodes)
    ensures forall j :: 0 <= j < |nodes| && nodes[j].View() != old(nodes[j].View()) ==> nodes[j].name in dirty
    ensures forall x :: x in dirty ==> dirty[x] in nodes && dirty[x].name == x
  {
    hide Views, Waiting, OldBindings, IdleNodes, StillNodes, UnboundNodes, Match, FillPools, NodesForPods,
         NodesForPools, ClearedOnes, PairBindings, NewBindings, ByName, Flatten, BoundNodes, Distinct, Cleared,
         OnlyTaken, PodsChosen, NodesChosen, SpecsChosen;
    ghost var before := Views(nodes);
    var waiting := WaitingPods(pods);
    var bindings1, chosen, free, dirty1, idle, still := Gather(nodes, waiting);
    OthersKeep(nodes, idle, still, free);
    c := Choice(chosen, Views(free), []);
    ghost var taken, kept, specs;
    start, stop, bindings, dirty, taken, kept, specs := Allocate(cfg, chosen, free, bindings1, dirty1, uuid);
    c := c.(specs := specs);
    ViewsAre(idle, IdleNodes(before));
    ViewsAre(still, StillNodes(before, waiting));
    rest := idle + still + taken + kept;
    AllParts(nodes, idle, still, free, taken, kept, stop);
    ViewsOfParts(idle, still, taken, kept);
    forall j | 0 <= j < |nodes| && nodes[j].View() != before[j] ensures nodes[j].name in dirty {
      if nodes[j] !in taken && nodes[j] in free { NotTaken(free, taken, c.nodes, nodes[j]); }
      ChangedIsDirty(nodes, before, waiting, taken, j);
    }
    forall x | x in dirty ensures dirty[x] in nodes && dirty[x].name == x {
      DirtyAreNodes(nodes, before, waiting, taken, multiset(idle) + multiset(still) + multiset(kept) + multiset(stop),
        x);
    }
  }

  lemma NotTaken(free: seq<NodeRef>, taken: seq<NodeRef>, before: seq<Node>, n: NodeRef)
    requires OnlyTaken(free, taken, before) && n in free && n !in taken
    ensures exists i :: 0 <= i < |free| && free[i] == n && n.View() == before[i]
  {}

  // ---- writing the new bindings back ----

  function NamesOf(nodes: seq<Node>): set<string> {
    set n | n in nodes :: n.name
  }

  /** The nodes that the references show. */
  function Shown(dirty: map<string, NodeRef>): map<string, Node>
    reads dirty.Values
  {
    map x | x in dirty :: dirty[x].View()
  }

  /** Each node sent is a dirty one, and none is sent twice. */
  ghost predicate SentFrom(sent: seq<Node>, dirty: map<string, Node>) {
    && (forall n :: n in sent ==> n.name in dirty && n == dirty[n.name])
    && (forall i, j :: 0 <= i < j < |sent| ==> sent[i].name != sent[j].name)
  }

  /** All but the nodes in `todo` have been sent. */
  ghost predicate Sending(sent: seq<Node>, dirty: map<string, Node>, todo: set<string>) {
    SentFrom(sent, dirty) && todo <= dirty.Keys && NamesOf(sent) == dirty.Keys - todo && |todo| + |sent| == |dirty|
  }

  lemma SendingNext(sent: seq<Node>, dirty: map<string, Node>, todo: set<string>, n: Node)
    requires Sending(sent, dirty, todo) && n.name in todo && n == dirty[n.name]
    ensures Sending(sent + [n], dirty, todo - {n.name})
  {
    var all := dirty.Keys;
    assert NamesOf(sent + [n]) == NamesOf(sent) + {n.name};
    assert all - (todo - {n.name}) == (all - todo) + {n.name};
    assert forall i :: 0 <= i < |sent| ==> sent[i].name in NamesOf(sent);
  }

  lemma SendingStarts(dirty: map<string, Node>)
    ensures Sending([], dirty, dirty.Keys)
  {}

  /** Writes the dirty nodes in an arbitrary order; `inTime` of the writes begin before the deadline.
    * `sent` are the statuses handed to the registry, whose errors are only logged. */
  method WriteBack(dirty: map<string, Node>, inTime: nat) returns (done: bool, sent: seq<Node>)
    requires forall x :: x in dirty ==> dirty[x].name == x
    ensures SentFrom(sent, dirty)
    ensures done <==> |dirty| <= inTime
    ensures if done then NamesOf(sent) == dirty.Keys else |sent| == inTime
  {
    hide Sending, SentFrom, NamesOf;
    sent := [];
    var todo := dirty.Keys;
    SendingStarts(dirty);
    while todo != {} && |sent| < inTime
      invariant todo <= dirty.Keys && |sent| <= inTime && Sending(sent, dirty, todo)
    {
      var name :| name in todo;
      SendingNext(sent, dirty, todo, dirty[name]);
      todo, sent := todo - {name}, sent + [dirty[name]];
    }
    SendingEnds(sent, dirty, todo, inTime);
    return todo == {}, sent;
  }

  lemma SendingEnds(sent: seq<Node>, dirty: map<string, Node>, todo: set<string>, inTime: nat)
    requires Sending(sent, dirty, todo) && |sent| <= inTime && (todo == {} || |sent| == inTime)
    ensures SentFrom(sent, dirty) && (todo == {} <==> |dirty| <= inTime) && (todo == {} ==> NamesOf(sent) == dirty.Keys)
  {}

  /** What a round that meets its deadline returns. */
  datatype Plan = Plan(start: seq<Node>, stop: seq<NodeRef>, bindings: map<string, string>)

  /** BindingNodeScaler.Compute.  A plan is returned if and only if the deadline is met; every node
    * whose binding changed has then been handed to the registry as the round leaves it. */
  method Compute(cfg: Config, nodes: seq<NodeRef>, pods: seq<Pod>, uuid: nat -> string, inTime: nat)
    returns (plan: Option<Plan>, sent: seq<Node>, ghost c: Choice, ghost rest: seq<NodeRef>,
             ghost dirty: map<string, NodeRef>)
    requires Distinct(nodes)
    modifies nodes
    ensures ValidChoice(cfg, old(Views(nodes)), Waiting(pods), c)
    ensures plan.Some? ==> var o := Round(cfg, old(Views(nodes)), pods, c, uuid);
      && plan.value.start == o.Start() && Views(plan.value.stop) == o.stop && plan.value.bindings == o.bindings
      && Views(rest) + plan.value.start == NodesAfter(old(Views(nodes)), Waiting(pods), o)
      && multiset(rest) + multiset(plan.value.stop) == multiset(nodes)
    ensures forall j :: 0 <= j < |nodes| && nodes[j].View() != old(nodes[j].View()) ==> nodes[j].name in dirty
    ensures forall x :: x in dirty ==> dirty[x] in nodes && dirty[x].name == x
    ensures SentFrom(sent, Shown(dirty)) && (plan.Some? ==> NamesOf(sent) == dirty.Keys)
    ensures plan.Some? <==> |dirty| <= inTime
    ensures plan.Some? && NamedApart(nodes) ==>
      forall j :: 0 <= j < |nodes| && nodes[j].View() != old(nodes[j].View()) ==> nodes[j].View() in sent
  {
    hide Views, Waiting, NodesAfter, Round, ValidChoice, Distinct, SentFrom, NamesOf;
    var start, stop, bindings, marked;
    start, stop, bindings, marked, c, rest := ComputeRound(cfg, nodes, pods, uuid);
    dirty := marked;
    assert Shown(marked).Keys == marked.Keys;
    var done;
    done, sent := WriteBack(Shown(marked), inTime);
    plan := if done then Some(Plan(start, stop, bindings)) else None;
    if done && NamedApart(nodes) {
      forall j | 0 <= j < |nodes| && nodes[j].name in dirty ensures nodes[j].View() in sent {
        IsSent(nodes, dirty, sent, j);
      }
    }
  }

  /** No two of the references are to nodes of the same name. */
  ghost predicate NamedApart(nodes: seq<NodeRef>) {
    forall i, j :: 0 <= i < j < |nodes| ==> nodes[i].name != nodes[j].name
  }

  lemma IsSent(nodes: seq<NodeRef>, dirty: map<string, NodeRef>, sent: seq<Node>, j: nat)
    requires j < |nodes| && nodes[j].name in dirty && NamedApart(nodes) && NamesOf(sent) == dirty.Keys
    requires SentFrom(sent, Shown(dirty)) && forall x :: x in dirty ==> dirty[x] in nodes && dirty[x].name == x
    ensures nodes[j].View() in sent
  {
    var i :| 0 <= i < |nodes| && nodes[i] == dirty[nodes[j].name];
    assert i == j;
    assert nodes[j].name in NamesOf(sent);
    var n :| n in sent && n.name == nodes[j].name;
    assert n == Shown(dirty)[n.name];
  }
}

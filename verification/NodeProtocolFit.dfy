/** Every node that is ever handed out fits the pod it is handed to, even through a stale binding map. */
module NodeProtocolFit {
  import opened Wrappers
  import opened ApiTypes
  import opened NodeScaler
  import opened NodeScalerMatching
  import opened NodeScalerPools
  import opened NodeScalerRounds
  import opened NodeScalerStability
  import opened NodeScalerBindings
  import opened NodeProtocol
  import opened NodeProtocolSafety
  import opened NodeProtocolRuns

  /** Pods have names, and their spot policy is Always or Never. */
  ghost predicate Ordinary(w: World) {
    "" !in w.pods && forall p :: p in w.pods ==> !w.pods[p].spot.SpotOther?
  }

  type Issued = map<string, NodeSpec>

  /** The copy is of a node known under that spec, and fits the pod it names. */
  ghost predicate Fit(w: World, issued: Issued, n: Node) {
    && n.name in issued && issued[n.name] == n.spec
    && (n.bound in w.pods ==> Suits(w.cfg, w.pods[n.bound], n.spec))
  }

  ghost predicate FitMap(w: World, issued: Issued, b: map<string, string>) {
    forall p :: p in b ==> p in w.pods && b[p] in issued && Suits(w.cfg, w.pods[p], issued[b[p]])
  }

  ghost predicate FitJob(w: World, issued: Issued, j: Job) {
    match j
    case Publishing(b) => FitMap(w, issued, b)
    case Created(_) => true
    case Purging(_) => true
    case ReturnUnused(_) => true
    case ReturnUsed(_) => true
    case _ => Fit(w, issued, j.copy)
  }

  ghost predicate FitDispatcher(w: World, issued: Issued, d: Dispatcher) {
    d.Chosen? ==> Fit(w, issued, d.copy) && d.pod in w.pods && Suits(w.cfg, w.pods[d.pod], d.copy.spec)
  }

  /** Whatever is stored, held or published fits. */
  ghost predicate AllFit(w: World, s: State) {
    && (forall name :: name in s.store ==> Fit(w, s.issued, s.store[name].node))
    && (forall id :: id in s.jobs ==> FitJob(w, s.issued, s.jobs[id]))
    && FitMap(w, s.issued, s.published) && FitDispatcher(w, s.issued, s.dispatcher)
  }

  ghost predicate FitEffect(w: World, issued: Issued, e: Effect) {
    match e
    case Writes(n) => Fit(w, issued, n)
    case Creates(n) => Fit(w, issued, n)
    case Publishes(b) => FitMap(w, issued, b)
    case _ => true
  }

  // ---- goroutines ----

  lemma IntentFits(w: World, issued: Issued, j: Job, good: bool)
    requires Ordinary(w) && FitJob(w, issued, j)
    ensures FitEffect(w, issued, Intent(j, good))
  {}

  lemma FollowFits(w: World, s: State, j: Job, good: bool)
    requires Ordinary(w) && FitJob(w, s.issued, j)
      && forall name :: name in s.store ==> Fit(w, s.issued, s.store[name].node)
    ensures var f := Follow(s, j, good); f.Some? ==> FitJob(w, s.issued, f.value)
  {}

  lemma CommitFits(w: World, s: State, n: Node, claimant: string, name: string)
    requires Registered(s) && Fit(w, s.issued, n) && name in s.store && Fit(w, s.issued, s.store[name].node)
    ensures var t := Commit(s, n, claimant); name in t.store && Fit(w, s.issued, t.store[name].node)
  {}

  lemma PerformFits(w: World, s: State, e: Effect)
    requires Registered(s) && FitEffect(w, s.issued, e)
      && (forall x :: x in s.store ==> Fit(w, s.issued, s.store[x].node)) && FitMap(w, s.issued, s.published)
    ensures var t := Perform(s, e);
      FitMap(w, s.issued, t.published) && forall name :: name in t.store ==> Fit(w, s.issued, t.store[name].node)
  {}

  lemma WorkFits(w: World, s: State, id: nat, good: bool)
    requires Ordinary(w) && Registered(s) && AllFit(w, s) && id in s.jobs
    ensures AllFit(w, Work(s, id, good))
  {
    var j := s.jobs[id];
    var e := Intent(j, good);
    hide Intent, Follow, Perform, Fit, FitJob, FitMap, FitDispatcher, FitEffect, Registered;
    IntentFits(w, s.issued, j, good);
    FollowFits(w, s, j, good);
    PerformElse(s, e);
    PerformFits(w, s, e);
  }

  // ---- scaling rounds ----

  /** A node that a round leaves or stops is one it was given or one it starts, under the same spec. */
  ghost predicate ComesFrom(n: Node, nodes: seq<Node>) {
    exists m :: m in nodes && m.name == n.name && m.spec == n.spec
  }

  lemma ChosenComesFrom(chosen: seq<Node>, nodes: seq<Node>, waiting: Pods, n: Node)
    requires NodesChosen(chosen, nodes, waiting) && n in chosen
    ensures ComesFrom(n, nodes)
  {
    hide UnboundNodes;
    assert n in multiset(chosen);
    var m := UnboundComesFrom(nodes, waiting, n);
  }

  lemma LeftComesFrom(w: World, i: Input, n: Node)
    requires ValidInput(w.cfg, i)
    requires var o := RoundOf(w, i); n in o.stop || n in Flatten(o.pool.kept)
    ensures ComesFrom(n, i.nodes) && n.bound == ""
  {
    hide Match, FillPools, NodesForPods, NodesForPools, Flatten, OldBindings, PodsChosen, NodesChosen, SpecsChosen,
         Waiting;
    var o := RoundOf(w, i);
    FillConserves(At(w.cfg, i), w.cfg.standby, o.matching.left);
    MatchConserves(At(w.cfg, i), i.choice.pods, i.choice.nodes);
    if n in o.stop { MemberOfPart(o.stop, multiset(Flatten(o.pool.kept)), o.matching.left, n); }
    if n in Flatten(o.pool.kept) { MemberOfPart(Flatten(o.pool.kept), multiset(o.stop), o.matching.left, n); }
    MemberOfPart(o.matching.left, multiset(PairNodes(o.matching.pairs)), i.choice.nodes, n);
    ChosenComesFrom(i.choice.nodes, i.nodes, Waiting(i.pods), n);
    ChosenNodeIsUnbound(i.choice.nodes, i.nodes, Waiting(i.pods), n);
  }

  lemma AfterComesFrom(w: World, i: Input, n: Node)
    requires ValidInput(w.cfg, i) && n in After(w.cfg, i)
    ensures n in RoundOf(w, i).Start() || ComesFrom(n, i.nodes)
  {
    hide Match, FillPools, NodesForPods, NodesForPools, Flatten, OldBindings, PodsChosen, NodesChosen, SpecsChosen,
         Waiting, IdleNodes, StillNodes, BoundNodes;
    var o, waiting := RoundOf(w, i), Waiting(i.pods);
    StillNodesAre(i.nodes, waiting);
    if n in BoundNodes(o.matching.pairs) {
      var p := PairIsStillBound(At(w.cfg, i), i.nodes, waiting, i.choice, n);
      PairsAreFromChoice(At(w.cfg, i), i.choice, p);
      ChosenComesFrom(i.choice.nodes, i.nodes, waiting, p.node);
    } else if n in Flatten(o.pool.kept) {
      LeftComesFrom(w, i, n);
    }
  }

  /** The facts about a round's input that fitting needs. */
  ghost predicate FitInput(w: World, issued: Issued, i: Input) {
    && (forall n :: n in i.nodes ==> Fit(w, issued, n))
    && (forall p :: p in i.pods ==> p.name in w.pods && w.pods[p.name] == p.spec)
  }

  /** What fits does not depend on what is available. */
  lemma AnyAvailability(cfg: Config, i: Input, pod: PodSpec, node: NodeSpec)
    ensures Suits(At(cfg, i), pod, node) == Suits(cfg, pod, node)
  {}

  lemma AfterFits(w: World, issued: Issued, i: Input, n: Node)
    requires Ordinary(w) && ValidInput(w.cfg, i) && FitInput(w, issued, i) && n in After(w.cfg, i)
      && StillBound(n, Waiting(i.pods))
    ensures n.bound in w.pods && Suits(w.cfg, w.pods[n.bound], n.spec)
  {
    hide Round, NodesAfter, Suits, ValidChoice;
    var waiting := Waiting(i.pods);
    assert forall p :: p in waiting ==> w.pods[p] == waiting[p].spec;
    forall p, n ensures Suits(At(w.cfg, i), p, n) == Suits(w.cfg, p, n) {
      AnyAvailability(w.cfg, i, p, n);
    }
    RoundFits(At(w.cfg, i), i.nodes, i.pods, i.choice, i.uuid);
  }

  lemma NewJobFits(w: World, s: State, a: Action, j: Job)
    requires Ordinary(w) && a.Scale? && Enabled(w, s, a) && Registered(s) && FitInput(w, s.issued, a.input)
      && RoundJob(w, a.input, j)
    ensures FitJob(w, s.issued + Specs(RoundOf(w, a.input).Start()), j)
  {
    hide Round, NodesAfter, Suits, PodsChosen, NodesChosen, SpecsChosen, Specs, Waiting;
    var i := a.input;
    var o, issued := RoundOf(w, i), s.issued + Specs(RoundOf(w, i).Start());
    if j.Publishing? {
      BindingsFit(w, s, a);
    } else if j.Stopping? || (j.Dirty? && j.copy in o.stop) {
      LeftComesFrom(w, i, j.copy);
      KnownStays(w, s, a, j.copy);
    } else {
      assert j.copy in After(w.cfg, i) by { StartIsAfter(w, i, j.copy); }
      AfterKnown(w, s, a, j.copy);
      if j.copy.bound in w.pods {
        if j.Creating? { StartIsNew(w, s, a, j.copy); }
        LiveAreBound(w.cfg, i, j.copy);
        AfterFits(w, s.issued, i, j.copy);
      }
    }
  }

  lemma StartIsAfter(w: World, i: Input, n: Node)
    requires ValidInput(w.cfg, i)
    ensures n in RoundOf(w, i).Start() ==> n in After(w.cfg, i)
  {}

  lemma KnownStays(w: World, s: State, a: Action, n: Node)
    requires a.Scale? && Enabled(w, s, a) && FitInput(w, s.issued, a.input) && ComesFrom(n, a.input.nodes)
    ensures var issued := s.issued + Specs(RoundOf(w, a.input).Start()); n.name in issued && issued[n.name] == n.spec
  {
    hide Round, Suits, ValidChoice, Specs, Waiting, RoundJob;
    var m :| m in a.input.nodes && m.name == n.name && m.spec == n.spec;
    assert Fit(w, s.issued, m);
    if n.name in Specs(RoundOf(w, a.input).Start()) { SpecsAreNew(w, s, a, n.name); }
  }

  lemma AfterKnown(w: World, s: State, a: Action, n: Node)
    requires a.Scale? && Enabled(w, s, a) && FitInput(w, s.issued, a.input) && n in After(w.cfg, a.input)
    ensures var issued := s.issued + Specs(RoundOf(w, a.input).Start()); n.name in issued && issued[n.name] == n.spec
  {
    hide Round, NodesAfter, Suits, ValidChoice, Specs, Waiting, RoundJob, Fit;
    AfterComesFrom(w, a.input, n);
    if n in RoundOf(w, a.input).Start() {
      StartIsNew(w, s, a, n);
    } else {
      KnownStays(w, s, a, n);
    }
  }

  /** The map that a round publishes binds pods to nodes that fit them. */
  lemma BindingsFit(w: World, s: State, a: Action)
    requires Ordinary(w) && a.Scale? && Enabled(w, s, a) && FitInput(w, s.issued, a.input)
    ensures FitMap(w, s.issued + Specs(RoundOf(w, a.input).Start()), RoundOf(w, a.input).bindings)
  {
    hide Round, NodesAfter, Suits, PodsChosen, NodesChosen, SpecsChosen, Specs, Waiting, RoundJob, Fit,
         StillBound, OldBindings;
    var i := a.input;
    var b, issued, after, waiting :=
      RoundOf(w, i).bindings, s.issued + Specs(RoundOf(w, i).Start()), After(w.cfg, i), Waiting(i.pods);
    BindingsAreRederived(At(w.cfg, i), i.nodes, i.pods, i.choice, i.uuid);
    OldBindingsAreReadOff(after, waiting);
    forall p | p in b ensures p in w.pods && b[p] in issued && Suits(w.cfg, w.pods[p], issued[b[p]]) {
      var n :| n in after && StillBound(n, waiting) && n.bound == p && n.name == b[p];
      AfterKnown(w, s, a, n);
      AfterFits(w, s.issued, i, n);
    }
  }

  lemma IssuedMore(w: World, s: State, more: Issued)
    requires AllFit(w, s) && forall x :: x in more ==> x !in s.issued
    ensures AllFit(w, s.(issued := s.issued + more))
  {
    hide Suits, Fit, FitMap, FitJob;
    var t := s.(issued := s.issued + more);
    forall id | id in t.jobs ensures FitJob(w, t.issued, t.jobs[id]) { FitMore(w, s.issued, t.issued, s.jobs[id]); }
    forall name | name in t.store
      ensures Fit(w, t.issued, t.store[name].node) { FitNodeMore(w, s.issued, t.issued, s.store[name].node); }
    FitMore(w, s.issued, t.issued, Publishing(s.published)) by { FitPublished(w, s.issued, s.published); }
    FitPublished(w, t.issued, s.published);
    if s.dispatcher.Chosen? { FitNodeMore(w, s.issued, t.issued, s.dispatcher.copy); }
  }

  lemma FitPublished(w: World, issued: Issued, b: map<string, string>)
    ensures FitJob(w, issued, Publishing(b)) <==> FitMap(w, issued, b)
  {}

  lemma FitNodeMore(w: World, issued: Issued, more: Issued, n: Node)
    requires Fit(w, issued, n) && forall x :: x in issued ==> x in more && more[x] == issued[x]
    ensures Fit(w, more, n)
  {}

  lemma FitMore(w: World, issued: Issued, more: Issued, j: Job)
    requires FitJob(w, issued, j) && forall x :: x in issued ==> x in more && more[x] == issued[x]
    ensures FitJob(w, more, j)
  {}

  lemma ScaleFits(w: World, s: State, a: Action)
    requires Ordinary(w) && a.Scale? && Enabled(w, s, a) && Registered(s) && AllFit(w, s)
    ensures AllFit(w, Next(w, s, a))
  {
    hide RoundOf, Specs, ValidInput, Fit, FitJob, FitMap, FitDispatcher, RoundJob, Registered;
    var t, more := Next(w, s, a), Specs(RoundOf(w, a.input).Start());
    forall x | x in more ensures x !in s.issued { SpecsAreNew(w, s, a, x); }
    IssuedMore(w, s, more);
    forall id | id in a.newJobs ensures FitJob(w, t.issued, a.newJobs[id]) { NewJobFits(w, s, a, a.newJobs[id]); }
  }

  // ---- the dispatcher and the rest ----

  lemma RequestFits(w: World, s: State, pod: string)
    requires pod in s.published && s.published[pod] in s.store && Registered(s) && AllFit(w, s)
    ensures AllFit(w, AfterRequest(s, pod))
  {
    hide Suits, FitJob;
    assert RegisteredNode(s, s.published[pod]);
  }

  lemma ClaimFits(w: World, s: State)
    requires s.dispatcher.Chosen? && Registered(s) && AllFit(w, s)
    ensures AllFit(w, AfterClaim(s))
    ensures ClaimSucceeds(s) ==> var d := s.dispatcher; var t := AfterClaim(s);
      d.copy.name in t.store && Suits(w.cfg, w.pods[d.pod], t.store[d.copy.name].node.spec)
  {
    var d, t := s.dispatcher, AfterClaim(s);
    var n := d.copy.(phase := NodeClaimed, bound := d.pod);
    assert Fit(w, s.issued, n);
    assert d.copy.name in s.store ==> RegisteredNode(s, d.copy.name);
    CommitAt(s, n, d.pod, n.name);
    hide Commit, Suits, Fit, FitJob, FitMap, Registered;
    forall name | name in t.store ensures Fit(w, s.issued, t.store[name].node) {
      CommitAt(s, n, d.pod, name);
      CommitFits(w, s, n, d.pod, name);
    }
  }

  lemma NextFits(w: World, s: State, a: Action)
    requires Ordinary(w) && Enabled(w, s, a) && Registered(s) && AllFit(w, s)
    ensures AllFit(w, Next(w, s, a))
  {
    hide Suits, Fit, FitMap, Work, Commit, Registered, RoundOf, Specs, ValidInput, RoundJob;
    if a.Step? {
      WorkFits(w, s, a.id, a.good);
    } else if a.Scale? {
      ScaleFits(w, s, a);
    } else if a.Request? {
      RequestFits(w, s, a.pod);
    } else if a.Claim? {
      ClaimFits(w, s);
    } else {
      OthersFit(w, s, a);
    }
  }

  lemma OthersFit(w: World, s: State, a: Action)
    requires Enabled(w, s, a) && AllFit(w, s)
      && (a.Return? || a.Reap? || a.Mark? || a.Resume? || a.StopCreating? || a.Collect?)
    ensures AllFit(w, Next(w, s, a))
  {
    hide Suits, Fit, FitMap, Work, Commit, FitDispatcher;
  }

  lemma {:induction false} FitAlways(w: World, run: seq<State>, actions: seq<Action>, k: nat)
    requires Ordinary(w) && IsRun(w, run, actions) && k < |run| && AllFit(w, run[0])
    ensures AllFit(w, run[k])
  {
    hide Registered, CreatedOnce, Owned, Next, Enabled, AllFit;
    if k > 0 {
      FitAlways(w, run, actions, k - 1);
      InvAlways(w, run, actions, k - 1);
      assert Enabled(w, run[k - 1], actions[k - 1]) && run[k - 1 + 1] == Next(w, run[k - 1], actions[k - 1]);
      NextFits(w, run[k - 1], actions[k - 1]);
    }
  }

  /** In every run, a node handed to a pod fits the pod. */
  lemma DispensedNodeFits(w: World, run: seq<State>, actions: seq<Action>, k: nat)
    requires Ordinary(w) && IsRun(w, run, actions) && AllFit(w, run[0])
    requires k < |actions| && actions[k].Claim? && ClaimSucceeds(run[k])
    ensures var d := run[k].dispatcher; var t := run[k + 1];
      d.pod in w.pods && d.copy.name in t.store && t.store[d.copy.name].node.bound == d.pod
      && Suits(w.cfg, w.pods[d.pod], t.store[d.copy.name].node.spec)
  {
    FitAlways(w, run, actions, k);
    InvAlways(w, run, actions, k);
    ClaimFits(w, run[k]);
    ClaimTakesUnowned(run[k]);
    hide Suits;
  }

  /** Runs may start from an empty registry. */
  lemma EmptyRegistry(w: World)
    ensures var s := State(map[], map[], Ready, map[], map[], {}, map[]); Inv(s) && AllOwned(s) && AllFit(w, s)
  {}
}

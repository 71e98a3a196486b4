/** What the phase table lets happen: each goroutine does its job when nobody interferes, and any node
  * that a round starts can live through all phases, from Creating to its removal. */
module NodeProtocolLife {
  import opened Wrappers
  import opened ApiTypes
  import opened NodeScaler
  import opened NodeScalerRounds
  import opened NodeScalerBindings
  import opened NodeProtocol
  import opened NodeProtocolSafety
  import opened NodeProtocolRuns

  // ---- the table ----

  /** The steps of a node in service. */
  predicate InService(from: NodePhase, to: NodePhase) {
    || (from == NodeCreating && to == NodeCreated)
    || ((from == NodeCreating || from == NodeCreated || from == NodeCleaning) && to == NodeAvailable)
    || (from == NodeAvailable && to == NodeClaimed)
    || ((from == NodeCreated || from == NodeClaimed) && to == NodeCleaning)
  }

  predicate Leaving(phase: NodePhase) {
    phase == NodeTerminating || phase == NodeTerminated
  }

  /** A phase may stay; a node in service may go on; and a node may leave from everywhere, but not
    * come back. */
  lemma TableMeans(from: NodePhase, to: NodePhase)
    ensures ValidStateChange(from, to) <==>
      || to == from
      || (InService(from, to) && !Leaving(from))
      || (Leaving(to) && from != NodeTerminated)
  {}

  // ---- one step of one goroutine, seen from one node ----

  function NodeAt(s: State, name: string): Option<Node> {
    if name in s.store then Some(s.store[name].node) else None
  }

  function JobAt(s: State, id: nat): Option<Job> {
    if id in s.jobs then Some(s.jobs[id]) else None
  }

  /** The status that a stored node has after a write. */
  function Overwritten(node: Node, n: Node): Node {
    if ValidStateChange(node.phase, n.phase) then node.(phase := n.phase, bound := n.bound) else node
  }

  function EffectOn(node: Option<Node>, e: Effect, name: string): Option<Node> {
    match e
    case Writes(n) => if n.name == name && node.Some? then Some(Overwritten(node.value, n)) else node
    case Creates(n) => if n.name == name && node.None? then Some(n) else node
    case Purges(x) => if x == name then None else node
    case _ => node
  }

  lemma PerformAt(s: State, e: Effect, name: string)
    ensures var t := Perform(s, e);
      && NodeAt(t, name) == EffectOn(NodeAt(s, name), e, name) && t.jobs == s.jobs && t.dispatcher == s.dispatcher
      && t.published == if e.Publishes? then e.bindings else s.published
  {
    hide ValidStateChange;
  }

  lemma SetJobAt(s: State, id: nat, j: Option<Job>)
    ensures var t := SetJob(s, id, j);
      && t == s.(jobs := t.jobs) && JobAt(t, id) == j
      && forall x: nat :: x != id ==> JobAt(t, x) == JobAt(s, x)
  {}

  lemma WorkAt(s: State, id: nat, good: bool, name: string)
    requires id in s.jobs
    ensures var t := Work(s, id, good); var e := Intent(s.jobs[id], good);
      && NodeAt(t, name) == EffectOn(NodeAt(s, name), e, name)
      && JobAt(t, id) == Follow(s, s.jobs[id], good) && (forall x: nat :: x != id ==> JobAt(t, x) == JobAt(s, x))
      && t.dispatcher == s.dispatcher && t.published == if e.Publishes? then e.bindings else s.published
  {
    hide Intent, Follow, Perform, SetJob, EffectOn;
    var e := Intent(s.jobs[id], good);
    PerformAt(s, e, name);
    SetJobAt(Perform(s, e), id, Follow(s, s.jobs[id], good));
  }

  // ---- stopping and returning ----

  /** A goroutine about to stop a node marks it Terminating, unless the node is Terminated or gone; then
    * it goes on to remove it. */
  lemma StopSucceeds(s: State, id: nat, good: bool, good': bool)
    requires id in s.jobs && s.jobs[id].Stopping? && s.jobs[id].copy.name in s.store
    ensures
      var name := s.jobs[id].copy.name;
      var t := Work(s, id, good);
      if s.Phase(name) == NodeTerminated then NodeAt(t, name) == NodeAt(s, name) && id !in t.jobs
      else
        && name in t.store && t.Phase(name) == NodeTerminating && id in t.jobs && t.jobs[id] == Purging(name)
        && NodeAt(Work(t, id, good'), name) == None && id !in Work(t, id, good').jobs
  {
    hide Work;
    var name, t := s.jobs[id].copy.name, Work(s, id, good);
    WorkAt(s, id, good, name);
    if s.Phase(name) != NodeTerminated { WorkAt(t, id, good', name); }
  }

  /** Purging a node removes it, whatever its phase. */
  lemma PurgeSucceeds(s: State, id: nat, good: bool)
    requires id in s.jobs && s.jobs[id].Purging?
    ensures NodeAt(Work(s, id, good), s.jobs[id].name) == None && id !in Work(s, id, good).jobs
  {
    hide Work;
    WorkAt(s, id, good, s.jobs[id].name);
  }

  /** A node that is returned unused is Available again unless it was Claimed or is leaving; then it is
    * returned as used. */
  lemma UnusedIsAvailable(s: State, id: nat, good: bool, good': bool)
    requires id in s.jobs && s.jobs[id].ReturnUnused? && s.jobs[id].name in s.store
      && s.store[s.jobs[id].name].node.name == s.jobs[id].name
    ensures
      var name := s.jobs[id].name;
      var t := Work(s, id, good);
      && id in t.jobs && NodeAt(t, name) == NodeAt(s, name)
      && var u := Work(t, id, good');
         if s.Phase(name) in {NodeCreating, NodeCreated, NodeAvailable, NodeCleaning} then
           NodeAt(u, name) == Some(s.store[name].node.(phase := NodeAvailable, bound := "")) && id !in u.jobs
         else NodeAt(u, name) == NodeAt(s, name) && id in u.jobs && u.jobs[id] == ReturnUsed(name)
  {
    hide Work;
    var name, t := s.jobs[id].name, Work(s, id, good);
    WorkAt(s, id, good, name);
    WorkAt(t, id, good', name);
  }

  /** A node that is returned used is Cleaning if it was Created, Claimed or Cleaning, without its pod;
    * in any case it is then stopped. */
  lemma UsedIsStopped(s: State, id: nat, good: bool, good': bool)
    requires id in s.jobs && s.jobs[id].ReturnUsed? && s.jobs[id].name in s.store
      && s.store[s.jobs[id].name].node.name == s.jobs[id].name
    ensures
      var name := s.jobs[id].name;
      var t := Work(s, id, good);
      && id in t.jobs && NodeAt(t, name) == NodeAt(s, name)
      && var u, node := Work(t, id, good'), s.store[name].node;
         && id in u.jobs && u.jobs[id] == Stopping(node.(phase := NodeCleaning, bound := ""))
         && NodeAt(u, name) == Some(
              if s.Phase(name) in {NodeCreated, NodeClaimed, NodeCleaning} then
                node.(phase := NodeCleaning, bound := "")
              else node)
  {
    hide Work;
    var name, t := s.jobs[id].name, Work(s, id, good);
    WorkAt(s, id, good, name);
    WorkAt(t, id, good', name);
  }

  /** A node that does not start is removed at once; one that does not run or is not healthy is stopped. */
  lemma FailedStart(s: State, id: nat, good: bool)
    requires id in s.jobs && (s.jobs[id].Starting? || s.jobs[id].Running? || s.jobs[id].Healthy?)
    ensures
      var n, t := s.jobs[id].copy, Work(s, id, false);
      && id in t.jobs && NodeAt(t, n.name) == NodeAt(s, n.name)
      && if s.jobs[id].Starting? then
           t.jobs[id] == Purging(n.name) && NodeAt(Work(t, id, good), n.name) == None
         else t.jobs[id] == Stopping(n)
  {
    hide Work;
    var n, t := s.jobs[id].copy, Work(s, id, false);
    WorkAt(s, id, false, n.name);
    WorkAt(t, id, good, n.name);
  }

  /** A starter does not care whether its first two writes are accepted; without a node it does not begin. */
  lemma StarterGoesOnAnyway(s: State, id: nat, good: bool)
    requires id in s.jobs
    ensures
      var j, t := s.jobs[id], Work(s, id, good);
      && (j.Started? ==> JobAt(t, id) == Some(Running(j.copy.(phase := NodeCreated))))
      && (j.Running? && good ==> JobAt(t, id) == Some(Healthy(j.copy)))
      && (j.Creating? && (!good || j.copy.name in s.store) ==> id !in t.jobs && t.store == s.store)
      && (j.Created? && j.name !in s.store ==> id !in t.jobs)
  {
    hide Work;
    WorkAt(s, id, good, "");
    if s.jobs[id].Creating? { NoCreation(s, id, good); }
  }

  lemma NoCreation(s: State, id: nat, good: bool)
    requires id in s.jobs && s.jobs[id].Creating?
    ensures !good || s.jobs[id].copy.name in s.store ==> Work(s, id, good).store == s.store
  {}

  /** A node whose starter cannot make it Available is stopped. */
  lemma RefusedStart(s: State, id: nat)
    requires id in s.jobs && s.jobs[id].Healthy? && s.jobs[id].copy.name in s.store
    ensures
      var n, t := s.jobs[id].copy, Work(s, id, true);
      if s.Phase(n.name) in {NodeCreating, NodeCreated, NodeAvailable, NodeCleaning} then
        && NodeAt(t, n.name) == Some(s.store[n.name].node.(phase := NodeAvailable, bound := n.bound)) && id !in t.jobs
      else
        && NodeAt(t, n.name) == NodeAt(s, n.name)
        && id in t.jobs && t.jobs[id].Stopping? && t.jobs[id].copy.name == n.name
  {
    hide Work;
    WorkAt(s, id, true, s.jobs[id].copy.name);
  }

  // ---- after a restart, and for nodes marked for termination ----

  /** When the controller restarts, nothing is at work; yet no stored node is left behind.  One that was
    * being created is stopped, one that was created or cleaned is waited for, and one that is
    * Terminated is removed. */
  lemma RestartRecovers(w: World, s: State, id: nat, name: string)
    requires id !in s.jobs && name in s.store
    ensures var stop := StopCreating(id, name);
      s.Phase(name) == NodeCreating ==>
        Enabled(w, s, stop) && JobAt(Next(w, s, stop), id) == Some(Stopping(s.store[name].node))
    ensures var wait, look := Resume(id, name, false), Resume(id, name, true);
      s.Phase(name) in {NodeCreated, NodeCleaning} ==>
        && Enabled(w, s, wait) && JobAt(Next(w, s, wait), id) == Some(Running(s.store[name].node))
        && Enabled(w, s, look) && JobAt(Next(w, s, look), id) == Some(Healthy(s.store[name].node))
    ensures var collect := Collect(id, name);
      s.Phase(name) == NodeTerminated ==>
        Enabled(w, s, collect) && JobAt(Next(w, s, collect), id) == Some(Purging(name))
  {
    hide Work, ScaleEnabled, RoundOf;
  }

  /** A node marked for termination is reaped: its pod, if it has one, is taken off, if that is possible,
    * and in any case it is stopped. */
  lemma MarkedIsReaped(w: World, s: State, id: nat, name: string, removed: bool)
    requires id !in s.jobs && name in s.store && s.store[name].node.name == name && s.Phase(name) != NodeTerminated
    ensures
      var node, t := s.store[name].node, AfterMark(s, name);
      && Enabled(w, s, Mark(name)) && Next(w, s, Mark(name)) == t && Enabled(w, t, Reap(id, name))
      && var u := Next(w, t, Reap(id, name));
         if node.bound == "" then JobAt(u, id) == Some(Stopping(node))
         else
           && id in u.jobs
           && var v, kept := Work(u, id, removed), if removed then node.(bound := "") else node;
              JobAt(v, id) == Some(Stopping(kept)) && NodeAt(v, name) == Some(kept)
  {
    hide Work, ScaleEnabled, RoundOf;
    var t := AfterMark(s, name);
    var u := Next(w, t, Reap(id, name));
    WorkAt(u, id, removed, name);
  }

  // ---- the life of a node ----

  /** A node that a round starts, a pod that the round binds to it, and the goroutines that start it,
    * publish the bindings, return it and resume the wait for it. */
  datatype Cast = Cast(
    node: Node, pod: string, bindings: map<string, string>, starter: nat, publisher: nat, returner: nat, resumer: nat)
  {
    predicate Apart() {
      && starter != publisher && starter != returner && starter != resumer && publisher != returner
      && publisher != resumer && returner != resumer
    }

    function In(phase: NodePhase): Node {
      node.(phase := phase)
    }

    function Claimed(): Node {
      node.(phase := NodeClaimed, bound := pod)
    }

    function Freed(phase: NodePhase): Node {
      node.(phase := phase, bound := "")
    }
  }

  /** What matters of a state: the stored node, the four goroutines, the dispatcher, and whether it is
    * known that the pod's binding is published. */
  datatype Scene = Scene(
    stored: Option<Node>, starter: Option<Job>, publisher: Option<Job>, returner: Option<Job>, resumer: Option<Job>,
    dispatcher: Dispatcher, published: bool)

  predicate Plays(c: Cast, s: State, e: Scene) {
    && NodeAt(s, c.node.name) == e.stored && s.dispatcher == e.dispatcher
    && JobAt(s, c.starter) == e.starter && JobAt(s, c.publisher) == e.publisher
    && JobAt(s, c.returner) == e.returner && JobAt(s, c.resumer) == e.resumer
    && (e.published ==> c.pod in s.published && s.published[c.pod] == c.node.name)
  }

  /** The node is new, and the bindings give it to the pod. */
  predicate Begins(c: Cast) {
    c.Apart() && c.node.phase == NodeCreating && c.pod != "" && c.pod in c.bindings && c.bindings[c.pod] == c.node.name
  }

  /** The scenes in the life of the node, from the round that starts it on. */
  function Life(c: Cast, k: nat): Scene
    requires k <= 16
  {
    var name, pub := c.node.name, Some(Publishing(c.bindings));
    var creating, created, available := Some(c.In(NodeCreating)), Some(c.In(NodeCreated)), Some(c.In(NodeAvailable));
    var claimed, cleaning := Some(c.Claimed()), Some(c.Freed(NodeCleaning));
    var stop := Some(Stopping(c.Freed(NodeCleaning)));
    if k == 0 then Scene(None, Some(Creating(c.node)), pub, None, None, Ready, false)
    else if k == 1 then Scene(creating, Some(Created(name)), pub, None, None, Ready, false)
    else if k == 2 then Scene(creating, Some(Starting(c.node)), pub, None, None, Ready, false)
    else if k == 3 then Scene(creating, Some(Started(c.node)), pub, None, None, Ready, false)
    else if k == 4 then Scene(created, Some(Running(c.In(NodeCreated))), pub, None, None, Ready, false)
    else if k == 5 then Scene(created, Some(Healthy(c.In(NodeCreated))), pub, None, None, Ready, false)
    else if k == 6 then Scene(available, None, pub, None, None, Ready, false)
    else if k == 7 then Scene(available, None, None, None, None, Ready, true)
    else if k == 8 then Scene(available, None, None, None, None, Chosen(c.In(NodeAvailable), c.pod), true)
    else if k == 9 then Scene(claimed, None, None, None, None, Ready, true)
    else if k == 10 then Scene(claimed, None, None, Some(ReturnUsed(name)), None, Ready, true)
    else if k == 11 then Scene(claimed, None, None, Some(Used(c.Claimed())), None, Ready, true)
    else if k == 12 then Scene(cleaning, None, None, stop, None, Ready, true)
    else if k == 13 then Scene(cleaning, None, None, stop, Some(Healthy(c.Freed(NodeCleaning))), Ready, true)
    else if k == 14 then Scene(Some(c.Freed(NodeAvailable)), None, None, stop, None, Ready, true)
    else if k == 15 then Scene(Some(c.Freed(NodeTerminating)), None, None, Some(Purging(name)), None, Ready, true)
    else Scene(None, None, None, None, None, Ready, true)
  }

  /** What leads from each scene to the next. */
  function Deed(c: Cast, k: nat): Action
    requires k < 16
  {
    if k < 6 then Step(c.starter, true)
    else if k == 6 then Step(c.publisher, true)
    else if k == 7 then Request(c.pod)
    else if k == 8 then Claim
    else if k == 9 then Return(c.returner, c.node.name, false)
    else if k == 10 || k == 11 then Step(c.returner, true)
    else if k == 12 then Resume(c.resumer, c.node.name, true)
    else if k == 13 then Step(c.resumer, true)
    else Step(c.returner, true)
  }

  ghost predicate GoesOn(w: World, c: Cast, s: State, k: nat)
    requires k < 16
  {
    Enabled(w, s, Deed(c, k)) && Plays(c, Next(w, s, Deed(c, k)), Life(c, k + 1))
  }

  lemma StepNext(w: World, s: State, id: nat, good: bool)
    requires id in s.jobs
    ensures Enabled(w, s, Step(id, good)) && Next(w, s, Step(id, good)) == Work(s, id, good)
  {
    hide Work, ScaleEnabled, RoundOf;
  }

  lemma StarterGoesOn(w: World, c: Cast, s: State, k: nat)
    requires Begins(c) && k < 6 && Plays(c, s, Life(c, k))
    ensures GoesOn(w, c, s, k)
  {
    hide Work, Next, Enabled;
    WorkAt(s, c.starter, true, c.node.name);
    StepNext(w, s, c.starter, true);
  }

  lemma PublisherGoesOn(w: World, c: Cast, s: State)
    requires Begins(c) && Plays(c, s, Life(c, 6))
    ensures GoesOn(w, c, s, 6)
  {
    hide Work, Next, Enabled;
    WorkAt(s, c.publisher, true, c.node.name);
    StepNext(w, s, c.publisher, true);
  }

  lemma ReturnerGoesOn(w: World, c: Cast, s: State, k: nat)
    requires Begins(c) && k in {10, 11} && Plays(c, s, Life(c, k))
    ensures GoesOn(w, c, s, k)
  {
    hide Work, Next, Enabled;
    WorkAt(s, c.returner, true, c.node.name);
    StepNext(w, s, c.returner, true);
  }

  lemma ReturnerEnds(w: World, c: Cast, s: State, k: nat)
    requires Begins(c) && k in {14, 15} && Plays(c, s, Life(c, k))
    ensures GoesOn(w, c, s, k)
  {
    hide Work, Next, Enabled;
    WorkAt(s, c.returner, true, c.node.name);
    StepNext(w, s, c.returner, true);
  }

  lemma ResumerGoesOn(w: World, c: Cast, s: State)
    requires Begins(c) && Plays(c, s, Life(c, 13))
    ensures GoesOn(w, c, s, 13)
  {
    hide Work, Next, Enabled;
    WorkAt(s, c.resumer, true, c.node.name);
    StepNext(w, s, c.resumer, true);
  }

  lemma OthersGoOn(w: World, c: Cast, s: State, k: nat)
    requires Begins(c) && k in {7, 8, 9, 12} && Plays(c, s, Life(c, k))
    ensures GoesOn(w, c, s, k)
  {
    hide Work, ScaleEnabled, RoundOf;
  }

  lemma LifeGoesOn(w: World, c: Cast, s: State, k: nat)
    requires Begins(c) && k < 16 && Plays(c, s, Life(c, k))
    ensures GoesOn(w, c, s, k)
  {
    hide GoesOn, Plays, Begins, Life, Deed;
    if k < 6 { StarterGoesOn(w, c, s, k); }
    else if k == 6 { PublisherGoesOn(w, c, s); }
    else if k == 10 || k == 11 { ReturnerGoesOn(w, c, s, k); }
    else if k == 13 { ResumerGoesOn(w, c, s); }
    else if k >= 14 { ReturnerEnds(w, c, s, k); }
    else { OthersGoOn(w, c, s, k); }
  }

  ghost predicate Follows(w: World, s: State, a: Action, t: State) {
    Enabled(w, s, a) && t == Next(w, s, a)
  }

  lemma AsRun(w: World, run: seq<State>, actions: seq<Action>)
    requires |run| == |actions| + 1 && Inv(run[0])
    requires forall k :: 0 <= k < |actions| ==> Follows(w, run[k], actions[k], run[k + 1])
    ensures IsRun(w, run, actions)
  {
    hide Inv, Enabled, Next;
    forall k | 0 <= k < |actions|
      ensures Enabled(w, run[k], actions[k]) && run[k + 1] == Next(w, run[k], actions[k])
    {
      assert Follows(w, run[k], actions[k], run[k + 1]);
    }
  }

  /** The rest of the life, from scene `k` on. */
  lemma {:induction false} RestOfLife(w: World, c: Cast, s: State, k: nat)
    returns (run: seq<State>)
    requires Begins(c) && k <= 16 && Plays(c, s, Life(c, k))
    ensures |run| == 17 - k && run[0] == s
    ensures forall j :: 0 <= j < 16 - k ==> Follows(w, run[j], Deed(c, k + j), run[j + 1])
    ensures forall j :: 0 <= j <= 16 - k ==> Plays(c, run[j], Life(c, k + j))
    decreases 16 - k
  {
    hide Plays, Begins, Life, Deed, Enabled, Next;
    run := [s];
    if k < 16 {
      LifeGoesOn(w, c, s, k);
      var rest := RestOfLife(w, c, Next(w, s, Deed(c, k)), k + 1);
      run := [s] + rest;
      forall j | 0 <= j < 16 - k ensures Follows(w, run[j], Deed(c, k + j), run[j + 1]) {
        if j > 0 { assert Follows(w, rest[j - 1], Deed(c, k + 1 + (j - 1)), rest[j - 1 + 1]); }
      }
      forall j | 0 <= j <= 16 - k ensures Plays(c, run[j], Life(c, k + j)) {
        if j > 0 { assert Plays(c, rest[j - 1], Life(c, k + 1 + (j - 1))); }
      }
    }
  }

  // ---- the round that starts it ----

  lemma {:induction false} PodNodesAreCreating(cfg: Config, needy: seq<Pod>, uuid: nat -> string, k: nat, n: Node)
    requires n in NodesForPods(cfg, needy, uuid, k)
    ensures n.phase == NodeCreating
  {
    match CreateNodeForPod(cfg, needy[0], uuid(k)) {
      case Some(m) => if n != m { PodNodesAreCreating(cfg, needy[1..], uuid, k + 1, n); }
      case None => PodNodesAreCreating(cfg, needy[1..], uuid, k, n);
    }
  }

  lemma {:induction false} PoolNodesAreCreating(
    cfg: Config, order: seq<StandbySpec>, needed: map<StandbySpec, int>, uuid: nat -> string, k: nat, n: Node)
    requires (forall s :: s in order ==> s in needed) && n in NodesForPools(cfg, order, needed, uuid, k)
    ensures n.phase == NodeCreating
  {
    var r := StandbyNodes(cfg, order[0], needed[order[0]], uuid, k);
    if n !in r { PoolNodesAreCreating(cfg, order[1..], needed, uuid, k + |r|, n); }
  }

  lemma StartIsCreating(w: World, i: Input, n: Node)
    requires ValidInput(w.cfg, i) && n in RoundOf(w, i).Start()
    ensures n.phase == NodeCreating
  {
    hide Match, FillPools, NodesForPods, NodesForPools, Waiting, OldBindings, PodsChosen, NodesChosen;
    var o, cfg := RoundOf(w, i), At(w.cfg, i);
    if n in o.forPods {
      PodNodesAreCreating(cfg, o.matching.needy, i.uuid, 0, n);
    } else {
      SpecsAreNeeded(cfg, i.choice, o);
      PoolNodesAreCreating(cfg, i.choice.specs, o.pool.needed, i.uuid, |o.forPods|, n);
    }
  }

  /** The round starts the node for the pod, with goroutines that are not at work yet. */
  ghost predicate StartsFor(w: World, s: State, a: Action, c: Cast) {
    && a.Scale? && Enabled(w, s, a) && s.dispatcher == Ready && c.Apart() && c.pod != ""
    && c.starter in a.newJobs && a.newJobs[c.starter] == Creating(c.node)
    && c.publisher in a.newJobs && a.newJobs[c.publisher] == Publishing(c.bindings)
    && c.pod in c.bindings && c.bindings[c.pod] == c.node.name
    && c.returner !in s.jobs && c.returner !in a.newJobs && c.resumer !in s.jobs && c.resumer !in a.newJobs
  }

  lemma BeginsWith(w: World, s: State, a: Action, c: Cast)
    requires Inv(s) && StartsFor(w, s, a, c)
    ensures Begins(c) && PhaseAt(s, c.node.name) == None
    ensures Enabled(w, s, a) && Plays(c, Next(w, s, a), Life(c, 0))
  {
    hide RoundOf, ValidInput, Specs, NewNames, CreatedOnce, Owned;
    assert RoundJob(w, a.input, a.newJobs[c.starter]);
    StartIsCreating(w, a.input, c.node);
    StartIsNew(w, s, a, c.node);
    forall name | name in s.store ensures name != c.node.name { assert RegisteredNode(s, name); }
  }

  /** Whatever a round decides may be carried out: every node it starts is created, every node it stops is
    * stopped, every live node it leaves or stops is written, and its bindings are published. */
  lemma RoundIsCarriedOut(w: World, s: State, i: Input, id: nat, n: Node)
    requires ScaleEnabled(w, s, i, map[]) && id !in s.jobs
    ensures n in RoundOf(w, i).Start() ==> ScaleEnabled(w, s, i, map[id := Creating(n)])
    ensures n in RoundOf(w, i).stop ==> ScaleEnabled(w, s, i, map[id := Stopping(n)])
    ensures n.phase in {NodeCreating, NodeCreated, NodeAvailable} && n in After(w.cfg, i) + RoundOf(w, i).stop ==>
      ScaleEnabled(w, s, i, map[id := Dirty(n)])
    ensures ScaleEnabled(w, s, i, map[id := Publishing(RoundOf(w, i).bindings)])
  {
    hide RoundOf, ValidInput, NewNames, After;
  }

  function PhaseAt(s: State, name: string): Option<NodePhase> {
    if name in s.store then Some(s.Phase(name)) else None
  }

  /** The phases of the node, state by state. */
  function LifePhases(): (p: seq<Option<NodePhase>>)
    ensures |p| == 18 && p[0] == None
  {
    [ None, None, Some(NodeCreating), Some(NodeCreating), Some(NodeCreating), Some(NodeCreated), Some(NodeCreated),
      Some(NodeAvailable), Some(NodeAvailable), Some(NodeAvailable), Some(NodeClaimed), Some(NodeClaimed),
      Some(NodeClaimed), Some(NodeCleaning), Some(NodeCleaning), Some(NodeAvailable), Some(NodeTerminating), None ]
  }

  function LifeActions(a: Action, c: Cast): seq<Action> {
    [a] + seq(16, k requires 0 <= k < 16 => Deed(c, k))
  }

  lemma PhaseOfScene(c: Cast, s: State, k: nat)
    requires k <= 16 && Plays(c, s, Life(c, k))
    ensures PhaseAt(s, c.node.name) == LifePhases()[k + 1]
    ensures k == 9 ==> NodeAt(s, c.node.name) == Some(c.Claimed())
    ensures k == 12 ==> NodeAt(s, c.node.name) == Some(c.Freed(NodeCleaning))
  {
    hide ValidStateChange;
  }

  /** Undisturbed, every node that a round starts for a pod is created, becomes Available, is claimed for
    * the pod, returned and cleaned, is Available again when the wait for it is resumed, and is removed
    * by the goroutine that returned it. */
  lemma WholeLife(w: World, s: State, a: Action, c: Cast) returns (run: seq<State>)
    requires Inv(s) && StartsFor(w, s, a, c)
    ensures IsRun(w, run, LifeActions(a, c)) && |run| == 18 && run[0] == s
    ensures forall k :: 0 <= k < 18 ==> PhaseAt(run[k], c.node.name) == LifePhases()[k]
    ensures NodeAt(run[10], c.node.name) == Some(c.Claimed())
    ensures NodeAt(run[13], c.node.name) == Some(c.Freed(NodeCleaning))
  {
    hide Inv, StartsFor, Next, Enabled, Plays, Life, Deed, LifePhases, Begins, PhaseAt;
    BeginsWith(w, s, a, c);
    var rest := RestOfLife(w, c, Next(w, s, a), 0);
    run := [s] + rest;
    var actions := LifeActions(a, c);
    forall k | 0 <= k < 17 ensures Follows(w, run[k], actions[k], run[k + 1]) {
      if k > 0 { assert Follows(w, rest[k - 1], Deed(c, 0 + (k - 1)), rest[k - 1 + 1]); }
    }
    forall k | 1 <= k < 18 ensures PhaseAt(run[k], c.node.name) == LifePhases()[k] {
      assert Plays(c, rest[k - 1], Life(c, 0 + (k - 1)));
      PhaseOfScene(c, rest[k - 1], k - 1);
    }
    AsRun(w, run, actions);
    assert Plays(c, rest[9], Life(c, 0 + 9)) && Plays(c, rest[12], Life(c, 0 + 12));
    PhaseOfScene(c, rest[9], 9);
    PhaseOfScene(c, rest[12], 12);
  }

  // ---- such a round exists ----

  /** A registry without nodes, and a waiting pod that the cloud can serve. */
  datatype Beginning = Beginning(
    w: World, pod: Pod, uuid: nat -> string, unavailable: (string, bool, bool, string) -> bool)
  {
    ghost predicate Valid() {
      && w.cfg.standby == [] && pod.name != "" && pod.phase == PodWaiting
      && pod.name in w.pods && w.pods[pod.name] == pod.spec && NewNames(uuid, map[])
      && CreateNodeForPod(At(w.cfg, Met()), pod, uuid(0)).Some?
    }

    function Met(): Input {
      Input([], [pod], Choice([pod], [], []), uuid, unavailable)
    }

    ghost function Made(): Node
      requires Valid()
    {
      CreateNodeForPod(At(w.cfg, Met()), pod, uuid(0)).value
    }

    ghost function Actors(): Cast
      requires Valid()
    {
      Cast(Made(), pod.name, map[pod.name := Made().name], 0, 1, 2, 3)
    }

    ghost function First(): Action
      requires Valid()
    {
      Scale(Met(), map[0 := Creating(Made()), 1 := Publishing(Actors().bindings)])
    }
  }

  const NoNodes := State(map[], map[], Ready, map[], map[], {}, map[])

  lemma FirstInput(f: Beginning)
    requires f.Valid()
    ensures ValidInput(f.w.cfg, f.Met())
  {
    hide NewNames, CreateNodeForPod;
    assert Waiting([f.pod]) == map[f.pod.name := f.pod];
    assert NeedsNode(f.pod.name, Waiting([f.pod]), OldBindings([], Waiting([f.pod])));
  }

  lemma FirstOutcome(f: Beginning)
    requires f.Valid()
    ensures ValidInput(f.w.cfg, f.Met())
    ensures RoundOf(f.w, f.Met()).Start() == [f.Made()]
    ensures RoundOf(f.w, f.Met()).bindings == f.Actors().bindings
  {
    FirstInput(f);
    CreatedNodeIsAsAsked(At(f.w.cfg, f.Met()), f.pod, f.uuid(0));
    hide NewNames, CreateNodeForPod, Waiting, ValidChoice;
    var cfg := At(f.w.cfg, f.Met());
    assert Match(cfg, [f.pod], []) == Matching([], [f.pod], []);
    assert FillPools(cfg, [], []) == Pool([], [], map[]);
    assert NodesForPods(cfg, [f.pod], f.uuid, 0) == [f.Made()];
    assert NewBindings([f.Made()]) == f.Actors().bindings;
  }

  lemma FirstJobs(w: World, i: Input, p: Pod, n: Node, b: map<string, string>)
    requires ValidInput(w.cfg, i) && i.nodes == [] && i.pods == [p] && NewNames(i.uuid, map[])
    requires p.name in w.pods && w.pods[p.name] == p.spec
    requires RoundOf(w, i).Start() == [n] && RoundOf(w, i).bindings == b
    ensures ScaleEnabled(w, NoNodes, i, map[0 := Creating(n), 1 := Publishing(b)])
  {
    hide NewNames, RoundOf, ValidInput;
  }

  lemma Empty()
    ensures Inv(NoNodes)
  {}

  /** A life can begin: the first round starts a node for the pod. */
  lemma FirstRound(f: Beginning)
    requires f.Valid()
    ensures Inv(NoNodes) && StartsFor(f.w, NoNodes, f.First(), f.Actors())
  {
    hide NewNames, RoundOf, ValidInput, CreateNodeForPod, Inv, ScaleEnabled, Next;
    Empty();
    FirstOutcome(f);
    FirstJobs(f.w, f.Met(), f.pod, f.Made(), f.Actors().bindings);
  }
}

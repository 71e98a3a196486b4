/** The life of nodes in the registry: scaler, dispatcher, starters, cleaners and reaper write whole
  * statuses from copies they read earlier, each write a compare-and-swap guarded by the phase table. */
module NodeProtocol {
  import opened Wrappers
  import opened ApiTypes
  import opened NodeScaler
  import opened NodeScalerBindings

  // ---- the registry ----

  datatype Stored = Stored(node: Node, terminate: bool)

  predicate ValidStateChange(old_: NodePhase, new_: NodePhase) {
    match old_
    case NodeCreating => new_ in {NodeCreating, NodeCreated, NodeAvailable, NodeTerminating, NodeTerminated}
    case NodeCreated => new_ in {NodeCreated, NodeAvailable, NodeCleaning, NodeTerminating, NodeTerminated}
    case NodeAvailable => new_ in {NodeAvailable, NodeClaimed, NodeTerminating, NodeTerminated}
    case NodeClaimed => new_ in {NodeClaimed, NodeCleaning, NodeTerminating, NodeTerminated}
    case NodeCleaning => new_ in {NodeAvailable, NodeCleaning, NodeTerminating, NodeTerminated}
    case NodeTerminating => new_ in {NodeTerminating, NodeTerminated}
    case NodeTerminated => new_ in {NodeTerminated}
  }

  datatype NodeError = InvalidStateChange(from: NodePhase, to: NodePhase)

  /** The modifier that UpdateStatus hands to AtomicUpdate: the stored status becomes the caller's;
    * name, spec and terminate flag stay. */
  function UpdateStatus(caller: Node): Stored -> Result<Stored, NodeError> {
    (stored: Stored) =>
      if ValidStateChange(stored.node.phase, caller.phase) then
        Ok(stored.(node := stored.node.(phase := caller.phase, bound := caller.bound)))
      else Err(InvalidStateChange(stored.node.phase, caller.phase))
  }

  // ---- the actors ----

  /** What a goroutine is about to do; `copy` is its own copy of the node. */
  datatype Job =
    | Creating(copy: Node)    // scaler: about to create the node in the registry
    | Created(name: string)   // scaler: about to read back the node it created
    | Starting(copy: Node)    // starter: waiting for the cloud to start the instance
    | Started(copy: Node)     // starter: about to write Created
    | Running(copy: Node)     // starter: waiting for the instance to run
    | Healthy(copy: Node)     // starter: waiting for the instance to be healthy
    | Dirty(copy: Node)       // scaler: about to write a changed binding
    | Stopping(copy: Node)    // about to write Terminating
    | Purging(name: string)   // waiting for the cloud to stop the instance, then purging the node
    | Ejecting(copy: Node)    // reaper: about to take the pod off the node
    | ReturnUnused(name: string) | Unused(copy: Node)  // cleanUnusedNode before and after its read
    | ReturnUsed(name: string) | Used(copy: Node)      // cleanUsedNode before and after its read
    | Publishing(bindings: map<string, string>)        // scaler: about to hand over the bindings

  /** The one goroutine that hands out nodes. */
  datatype Dispatcher = Ready | Chosen(copy: Node, pod: string)

  /** `issued` holds the specs of all names ever made up for a node, `created` the names ever
    * written to the registry, and `owner` the pod that claimed the node since it last became Claimed. */
  datatype State = State(
    store: map<string, Stored>, jobs: map<nat, Job>, dispatcher: Dispatcher, published: map<string, string>,
    issued: map<string, NodeSpec>, created: set<string>, owner: map<string, string>)
  {
    function Owner(name: string): string {
      if name in owner then owner[name] else ""
    }

    function Phase(name: string): NodePhase
      requires name in store
    {
      store[name].node.phase
    }
  }

  predicate Accepted(s: State, n: Node) {
    n.name in s.store && UpdateStatus(n)(s.store[n.name]).Ok?
  }

  /** UpdateStatus(n), by anyone; `claimant` is the pod it is claimed for, if it is. */
  function Commit(s: State, n: Node, claimant: string): State {
    if !Accepted(s, n) then s else
      var stays := n.phase == NodeClaimed && s.Phase(n.name) == NodeClaimed;
      s.(store := s.store[n.name := UpdateStatus(n)(s.store[n.name]).value],
         owner := s.owner[n.name := if claimant != "" then claimant else if stays then s.Owner(n.name) else ""])
  }

  /** What a goroutine does to the shared state. */
  datatype Effect =
    | Nothing | Writes(node: Node) | Creates(node: Node) | Purges(name: string)
    | Publishes(bindings: map<string, string>)

  /** `good` is what the cloud, the instance or the pod registry answers. */
  function Intent(j: Job, good: bool): Effect {
    match j
    case Creating(n) => if good then Creates(n) else Nothing
    case Started(n) => Writes(n.(phase := NodeCreated))
    case Running(n) => if good then Writes(n) else Nothing
    case Healthy(n) => if good then Writes(n.(phase := NodeAvailable)) else Nothing
    case Dirty(n) => Writes(n)
    case Stopping(n) => Writes(n.(phase := NodeTerminating))
    case Purging(name) => Purges(name)
    case Ejecting(n) => if good then Writes(n.(bound := "")) else Nothing
    case Unused(n) => Writes(n.(phase := NodeAvailable, bound := ""))
    case Used(n) => Writes(n.(phase := NodeCleaning, bound := ""))
    case Publishing(b) => Publishes(b)
    case _ => Nothing
  }

  predicate Succeeds(s: State, e: Effect) {
    match e
    case Writes(n) => Accepted(s, n)
    case Creates(n) => n.name !in s.store
    case _ => true
  }

  function Perform(s: State, e: Effect): State {
    match e
    case Nothing => s
    case Writes(n) => Commit(s, n, "")
    case Creates(n) =>
      if n.name in s.store then s else s.(store := s.store[n.name := Stored(n, false)], created := s.created + {n.name})
    case Purges(name) => s.(store := s.store - {name})
    case Publishes(b) => s.(published := b)
  }

  /** How the goroutine goes on, if it does. */
  function Follow(s: State, j: Job, good: bool): Option<Job> {
    var e := Intent(j, good);
    var ok := Succeeds(s, e);
    match j
    case Creating(n) => if good && ok then Some(Created(n.name)) else None
    case Created(name) => if name in s.store then Some(Starting(s.store[name].node)) else None
    case Starting(n) => Some(if good then Started(n) else Purging(n.name))
    case Started(n) => Some(Running(e.node))
    case Running(n) => Some(if good then Healthy(n) else Stopping(n))
    case Healthy(n) => if !good then Some(Stopping(n)) else if ok then None else Some(Stopping(e.node))
    case Stopping(n) => if ok then Some(Purging(n.name)) else None
    case Ejecting(n) => Some(Stopping(if good then e.node else n))
    case ReturnUnused(name) => if name in s.store then Some(Unused(s.store[name].node)) else None
    case Unused(n) => if ok then None else Some(ReturnUsed(n.name))
    case ReturnUsed(name) => if name in s.store then Some(Used(s.store[name].node)) else None
    case Used(n) => Some(Stopping(e.node))
    case _ => None
  }

  function SetJob(s: State, id: nat, j: Option<Job>): State {
    s.(jobs := if j.Some? then s.jobs[id := j.value] else s.jobs - {id})
  }

  /** One step of a goroutine. */
  function Work(s: State, id: nat, good: bool): State
    requires id in s.jobs
  {
    SetJob(Perform(s, Intent(s.jobs[id], good)), id, Follow(s, s.jobs[id], good))
  }

  datatype Action =
    | Step(id: nat, good: bool)
    | Scale(input: Input, newJobs: map<nat, Job>)
    | Request(pod: string)
    | Claim
    | Return(id: nat, name: string, unused: bool)
    | Reap(id: nat, name: string)
    | Mark(name: string)
    | Resume(id: nat, name: string, addressed: bool)
    | StopCreating(id: nat, name: string)
    | Collect(id: nat, name: string)

  /** What is fixed during a run: the configuration, except for the cloud's answer about
    * availability, which every round has anew, and the specs of the pods. */
  datatype World = World(cfg: Config, pods: map<string, PodSpec>)

  ghost function RoundOf(w: World, i: Input): Outcome
    requires ValidInput(w.cfg, i)
  {
    OutcomeOf(w.cfg, i)
  }

  /** The work that a scaling round leaves to be done. */
  ghost predicate RoundJob(w: World, i: Input, j: Job)
    requires ValidInput(w.cfg, i)
  {
    var o := RoundOf(w, i);
    match j
    case Creating(n) => n in o.Start()
    case Dirty(n) => AvailableOrBaking(n) && (n in After(w.cfg, i) || n in o.stop)
    case Stopping(n) => n in o.stop
    case Publishing(b) => b == o.bindings
    case _ => false
  }

  function Specs(nodes: seq<Node>): map<string, NodeSpec> {
    if nodes == [] then map[] else Specs(nodes[..|nodes| - 1])[nodes[|nodes| - 1].name := nodes[|nodes| - 1].spec]
  }

  predicate SameBirth(j: Job, j': Job) {
    j.Creating? && j'.Creating? && j.copy.name == j'.copy.name
  }

  /** UUIDs do not repeat, and are not in use. */
  ghost predicate NewNames(uuid: nat -> string, issued: map<string, NodeSpec>) {
    (forall k: nat, l: nat :: k < l ==> uuid(k) != uuid(l)) && (forall k: nat :: uuid(k) !in issued)
  }

  /** A round on nodes as they are stored now and on some list of pods, with new names for new nodes. */
  ghost predicate ScaleEnabled(w: World, s: State, i: Input, newJobs: map<nat, Job>) {
    && ValidInput(w.cfg, i) && newJobs.Keys !! s.jobs.Keys
    && (forall n :: n in i.nodes ==> n.name in s.store && s.store[n.name].node == n)
    && (forall p :: p in i.pods ==> p.name in w.pods && w.pods[p.name] == p.spec)
    && NewNames(i.uuid, s.issued)
    && (forall id :: id in newJobs ==> RoundJob(w, i, newJobs[id]))
    && (forall id, id' :: id in newJobs && id' in newJobs && SameBirth(newJobs[id], newJobs[id']) ==> id == id')
  }

  ghost predicate Enabled(w: World, s: State, a: Action) {
    match a
    case Step(id, _) => id in s.jobs
    case Scale(i, newJobs) => ScaleEnabled(w, s, i, newJobs)
    case Request(pod) =>
      && s.dispatcher == Ready && pod != "" && pod in s.published && s.published[pod] in s.store
      && s.Phase(s.published[pod]) == NodeAvailable
    case Claim => s.dispatcher.Chosen?
    case Return(id, _, _) => id !in s.jobs
    case Reap(id, name) => id !in s.jobs && name in s.store && s.store[name].terminate
      && s.Phase(name) != NodeTerminated
    case Mark(name) => name in s.store
    case Resume(id, name, _) => id !in s.jobs && name in s.store && s.Phase(name) in {NodeCreated, NodeCleaning}
    case StopCreating(id, name) => id !in s.jobs && name in s.store && s.Phase(name) == NodeCreating
    case Collect(id, name) => id !in s.jobs && name in s.store && s.Phase(name) == NodeTerminated
  }

  /** requestNode reads the bound node, and finds it Available. */
  function AfterRequest(s: State, pod: string): State
    requires pod in s.published && s.published[pod] in s.store
  {
    s.(dispatcher := Chosen(s.store[s.published[pod]].node, pod))
  }

  /** bindNodeToPod writes the copy read before. */
  function AfterClaim(s: State): State
    requires s.dispatcher.Chosen?
  {
    var d := s.dispatcher;
    Commit(s, d.copy.(phase := NodeClaimed, bound := d.pod), d.pod).(dispatcher := Ready)
  }

  function AfterMark(s: State, name: string): State
    requires name in s.store
  {
    s.(store := s.store[name := s.store[name].(terminate := true)])
  }

  ghost function Next(w: World, s: State, a: Action): State
    requires Enabled(w, s, a)
  {
    match a
    case Step(id, good) => Work(s, id, good)
    case Scale(i, newJobs) => s.(jobs := s.jobs + newJobs, issued := s.issued + Specs(RoundOf(w, i).Start()))
    case Request(pod) => AfterRequest(s, pod)
    case Claim => AfterClaim(s)
    case Return(id, name, unused) => SetJob(s, id, Some(if unused then ReturnUnused(name) else ReturnUsed(name)))
    case Reap(id, name) =>
      var n := s.store[name].node;
      SetJob(s, id, Some(if n.bound != "" then Ejecting(n) else Stopping(n)))
    case Mark(name) => AfterMark(s, name)
    case Resume(id, name, addressed) =>
      var n := s.store[name].node;
      SetJob(s, id, Some(if addressed then Healthy(n) else Running(n)))
    case StopCreating(id, name) => SetJob(s, id, Some(Stopping(s.store[name].node)))
    case Collect(id, name) => SetJob(s, id, Some(Purging(name)))
  }
}

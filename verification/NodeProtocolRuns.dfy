/** Safety of whole runs of the node protocol: life times and exclusive claims. */
module NodeProtocolRuns {
  import opened Wrappers
  import opened ApiTypes
  import opened NodeScalerBindings
  import opened NodeProtocol
  import opened NodeProtocolSafety

  // ---- every step keeps the invariant ----

  lemma NewJobKeeps(s: State, id: nat, j: Job)
    requires Inv(s) && id !in s.jobs && Harmless(j) && !j.Creating?
    ensures Inv(SetJob(s, id, Some(j)))
  {
    var jobs := s.jobs[id := j];
    hide Harmless, RegisteredNode, OwnedNode;
    JobsKeepRegistered(s, jobs);
    JobsKeepOwned(s, jobs);
    var t := s.(jobs := jobs);
    assert forall i :: i in t.jobs && t.jobs[i].Creating? ==> i in s.jobs && t.jobs[i] == s.jobs[i];
    forall i | i in t.jobs && t.jobs[i].Creating?
      ensures Unborn(t, t.jobs[i].copy) { assert Unborn(s, s.jobs[i].copy); }
  }

  lemma RequestKeeps(s: State, pod: string)
    requires pod != "" && pod in s.published && s.published[pod] in s.store
      && s.Phase(s.published[pod]) == NodeAvailable && Inv(s)
    ensures Inv(AfterRequest(s, pod))
  {
    var t := AfterRequest(s, pod);
    assert RegisteredNode(s, s.published[pod]) && OwnedNode(s, s.published[pod]);
    forall name | name in t.store
      ensures RegisteredNode(t, name) && OwnedNode(t, name) { assert RegisteredNode(s, name) && OwnedNode(s, name); }
    assert forall name :: t.Owner(name) == s.Owner(name);
    JobsKeepOnce(s, t);
  }

  lemma MarkKeeps(s: State, name: string)
    requires name in s.store && Inv(s)
    ensures Inv(AfterMark(s, name))
  {
    var t := AfterMark(s, name);
    forall x | x in t.store
      ensures RegisteredNode(t, x) && OwnedNode(t, x) { assert RegisteredNode(s, x) && OwnedNode(s, x); }
    assert forall x :: t.Owner(x) == s.Owner(x);
    JobsKeepOnce(s, t);
  }

  lemma NextKeeps(w: World, s: State, a: Action)
    requires Enabled(w, s, a) && Inv(s)
    ensures Inv(Next(w, s, a))
  {
    hide Inv, Work, Commit;
    match a
    case Step(id, good) => WorkKeeps(s, id, good);
    case Scale(_, _) => ScaleKeeps(w, s, a);
    case Request(pod) => RequestKeeps(s, pod);
    case Claim => ClaimKeeps(s);
    case Mark(name) => MarkKeeps(s, name);
    case Return(id, name, unused) => NewJobKeeps(s, id, if unused then ReturnUnused(name) else ReturnUsed(name));
    case Reap(id, name) =>
      var n := s.store[name].node;
      NewJobKeeps(s, id, if n.bound != "" then Ejecting(n) else Stopping(n));
    case Resume(id, name, addressed) =>
      var n := s.store[name].node;
      NewJobKeeps(s, id, if addressed then Healthy(n) else Running(n));
    case StopCreating(id, name) => NewJobKeeps(s, id, Stopping(s.store[name].node));
    case Collect(id, name) => NewJobKeeps(s, id, Purging(name));
  }

  ghost predicate IsRun(w: World, run: seq<State>, actions: seq<Action>) {
    && |run| == |actions| + 1 && Inv(run[0])
    && (forall k :: 0 <= k < |actions| ==> Enabled(w, run[k], actions[k]) && run[k + 1] == Next(w, run[k], actions[k]))
  }

  lemma {:induction false} InvAlways(w: World, run: seq<State>, actions: seq<Action>, k: nat)
    requires IsRun(w, run, actions) && k < |run|
    ensures Inv(run[k])
  {
    hide Inv, Next, Enabled;
    if k > 0 {
      InvAlways(w, run, actions, k - 1);
      assert Enabled(w, run[k - 1], actions[k - 1]) && run[k - 1 + 1] == Next(w, run[k - 1], actions[k - 1]);
      NextKeeps(w, run[k - 1], actions[k - 1]);
    }
  }

  // ---- life times ----

  /** The stored state of one node across one step of anybody. */
  ghost predicate NodeMoves(s: State, t: State, name: string) {
    && (name in s.created ==> name in t.created && (name in t.store ==> name in s.store))
    && (name in s.store && name in t.store ==> ValidStateChange(s.Phase(name), t.Phase(name)))
    && (name in s.store && name in t.store && s.Phase(name) == NodeClaimed == t.Phase(name) && s.Owner(name) != "" ==>
        t.Owner(name) == s.Owner(name))
  }

  lemma PerformMoves(s: State, e: Effect, name: string)
    requires Inv(s) && (e.Creates? ==> Unborn(s, e.node))
    ensures NodeMoves(s, Perform(s, e), name)
  {
    if e.Writes? { CommitAt(s, e.node, "", name); }
    hide Commit, Registered, CreatedOnce, Owned;
  }

  lemma WorkMoves(s: State, id: nat, good: bool, name: string)
    requires Inv(s) && id in s.jobs
    ensures NodeMoves(s, Work(s, id, good), name)
  {
    var e := Intent(s.jobs[id], good);
    assert e.Creates? ==> s.jobs[id].Creating? && e.node == s.jobs[id].copy;
    assert s.jobs[id].Creating? ==> Unborn(s, s.jobs[id].copy);
    hide Inv, Intent, Follow, Perform;
    PerformMoves(s, e, name);
  }

  lemma ClaimMoves(s: State, name: string)
    requires Inv(s) && s.dispatcher.Chosen?
    ensures NodeMoves(s, AfterClaim(s), name)
  {
    var d := s.dispatcher;
    CommitAt(s, d.copy.(phase := NodeClaimed, bound := d.pod), d.pod, name);
    hide Commit, Registered, CreatedOnce;
  }

  /** Phases follow the table, what is purged stays purged, and a Claimed node keeps its owner. */
  lemma StepMoves(w: World, s: State, a: Action, name: string)
    requires Enabled(w, s, a) && Inv(s)
    ensures NodeMoves(s, Next(w, s, a), name)
  {
    hide Inv, NodeMoves, Next, Enabled, Work;
    if a.Step? {
      NextIsWork(w, s, a);
      WorkMoves(s, a.id, a.good, name);
    } else if a.Claim? {
      NextIsWork(w, s, a);
      ClaimMoves(s, name);
    } else {
      OthersMove(w, s, a, name);
    }
  }

  lemma NextIsWork(w: World, s: State, a: Action)
    requires Enabled(w, s, a)
    ensures a.Step? ==> a.id in s.jobs && Next(w, s, a) == Work(s, a.id, a.good)
    ensures a.Claim? ==> s.dispatcher.Chosen? && Next(w, s, a) == AfterClaim(s)
  {}

  lemma OthersMove(w: World, s: State, a: Action, name: string)
    requires Enabled(w, s, a) && !a.Step? && !a.Claim?
    ensures NodeMoves(s, Next(w, s, a), name)
  {
    hide Next, Enabled;
    OthersKeepNodes(w, s, a);
  }

  /** The other steps change no phase, no binding and no owner. */
  lemma OthersKeepNodes(w: World, s: State, a: Action)
    requires Enabled(w, s, a) && !a.Step? && !a.Claim?
    ensures var t := Next(w, s, a);
      && t.created == s.created && t.owner == s.owner && t.store.Keys == s.store.Keys
      && forall name :: name in s.store ==> t.store[name].node == s.store[name].node
  {
    hide Work, Commit, RoundOf, Specs, RoundJob, ValidInput;
  }

  lemma RunMoves(w: World, run: seq<State>, actions: seq<Action>, k: nat, name: string)
    requires IsRun(w, run, actions) && k < |actions|
    ensures NodeMoves(run[k], run[k + 1], name)
  {
    InvAlways(w, run, actions, k);
    hide Inv, Next, Enabled, NodeMoves;
    assert Enabled(w, run[k], actions[k]) && run[k + 1] == Next(w, run[k], actions[k]);
    StepMoves(w, run[k], actions[k], name);
  }

  /** A node that was created and is gone from the registry never comes back, whatever is pending. */
  lemma {:induction false} PurgedForever(w: World, run: seq<State>, actions: seq<Action>, i: nat, j: nat, name: string)
    requires IsRun(w, run, actions) && i <= j < |run| && name in run[i].created && name !in run[i].store
    ensures name in run[j].created && name !in run[j].store
  {
    hide IsRun;
    if i < j {
      PurgedForever(w, run, actions, i, j - 1, name);
      RunLength(w, run, actions);
      RunMoves(w, run, actions, j - 1, name);
    }
  }

  lemma RunLength(w: World, run: seq<State>, actions: seq<Action>)
    requires IsRun(w, run, actions)
    ensures |run| == |actions| + 1
    ensures forall k, name :: 0 <= k < |run| && name in run[k].store ==> name in run[k].created
  {
    forall k, name | 0 <= k < |run| && name in run[k].store ensures name in run[k].created {
      InvAlways(w, run, actions, k);
      assert RegisteredNode(run[k], name);
    }
  }

  /** Nothing returns from Terminating. */
  lemma {:induction false} TerminatingForever(w: World, run: seq<State>, actions: seq<Action>, i: nat, j: nat,
                                              name: string)
    requires IsRun(w, run, actions) && i <= j < |run| && name in run[i].store
    requires run[i].Phase(name) in {NodeTerminating, NodeTerminated}
    ensures name in run[j].store ==> run[j].Phase(name) in {NodeTerminating, NodeTerminated}
  {
    hide IsRun;
    if i < j {
      RunLength(w, run, actions);
      TerminatingForever(w, run, actions, i, j - 1, name);
      if name in run[j].store {
        if name !in run[j - 1].store {
          assert name in run[i].created;
          CreatedForever(w, run, actions, i, j - 1, name);
        }
        RunMoves(w, run, actions, j - 1, name);
      }
    }
  }

  lemma {:induction false} CreatedForever(w: World, run: seq<State>, actions: seq<Action>, i: nat, j: nat, name: string)
    requires IsRun(w, run, actions) && i <= j < |run| && name in run[i].created
    ensures name in run[j].created
  {
    hide IsRun;
    if i < j {
      RunLength(w, run, actions);
      CreatedForever(w, run, actions, i, j - 1, name);
      RunMoves(w, run, actions, j - 1, name);
    }
  }

  // ---- exclusive claims ----

  /** The node is in the registry and Claimed. */
  predicate ClaimedAt(s: State, name: string) {
    name in s.store && s.Phase(name) == NodeClaimed
  }

  /** While a node stays Claimed, it does not pass from one pod to another. */
  lemma {:induction false} OwnerKept(w: World, run: seq<State>, actions: seq<Action>, i: nat, j: nat, name: string)
    requires IsRun(w, run, actions) && i <= j < |run|
    requires forall k :: i <= k <= j ==> ClaimedAt(run[k], name)
    requires run[i].Owner(name) != ""
    ensures run[j].Owner(name) == run[i].Owner(name)
  {
    hide IsRun;
    if i < j {
      RunLength(w, run, actions);
      OwnerKept(w, run, actions, i, j - 1, name);
      RunMoves(w, run, actions, j - 1, name);
      assert ClaimedAt(run[j - 1], name) && ClaimedAt(run[j], name);
    }
  }

  function BoundPod(s: State, name: string): string {
    if name in s.store then s.store[name].node.bound else ""
  }

  lemma ExclusiveOwner(w: World, run: seq<State>, actions: seq<Action>, i: nat, j: nat, name: string)
    requires IsRun(w, run, actions) && i <= j < |run|
    requires forall k :: i <= k <= j ==> ClaimedAt(run[k], name)
    ensures var p, q := BoundPod(run[i], name), BoundPod(run[j], name); p != "" && q != "" ==> p == q
  {
    assert ClaimedAt(run[i], name) && ClaimedAt(run[j], name);
    InvAlways(w, run, actions, i);
    InvAlways(w, run, actions, j);
    assert OwnedNode(run[i], name) && OwnedNode(run[j], name);
    if BoundPod(run[i], name) != "" { OwnerKept(w, run, actions, i, j, name); }
  }

  /** The dispatcher's write goes through. */
  predicate ClaimSucceeds(s: State) {
    s.dispatcher.Chosen? && Accepted(s, s.dispatcher.copy.(phase := NodeClaimed, bound := s.dispatcher.pod))
  }

  /** A node that is handed out was Available, or Claimed by nobody; it then belongs to the pod that asked. */
  lemma ClaimTakesUnowned(s: State)
    requires Inv(s) && ClaimSucceeds(s)
    ensures var name := s.dispatcher.copy.name; var t := AfterClaim(s);
      && name in s.store && (s.Phase(name) == NodeAvailable
        || (s.Phase(name) == NodeClaimed && s.store[name].node.bound == "" && s.Owner(name) == ""))
      && ClaimedAt(t, name) && t.store[name].node.bound == s.dispatcher.pod == t.Owner(name)
  {
    var d := s.dispatcher;
    assert OwnedNode(s, d.copy.name);
    CommitAt(s, d.copy.(phase := NodeClaimed, bound := d.pod), d.pod, d.copy.name);
  }

  // ---- nodes that are Claimed by nobody ----

  /** The node is Claimed, and no pod has claimed it since it became so. */
  predicate Unowned(s: State, name: string) {
    ClaimedAt(s, name) && s.Owner(name) == ""
  }

  ghost predicate AllOwned(s: State) {
    forall name :: !Unowned(s, name)
  }

  /** What a step does to the shared state, if it is one of a goroutine. */
  function EffectOf(s: State, a: Action): Effect {
    if a.Step? && a.id in s.jobs then Intent(s.jobs[a.id], a.good) else Nothing
  }

  /** The reaper writes a copy of the node that it read while the node was Claimed, and the node is
    * now Available. */
  predicate StaleEjection(s: State, a: Action, name: string) {
    && a.Step? && a.good && a.id in s.jobs && s.jobs[a.id].Ejecting?
    && s.jobs[a.id].copy.name == name && s.jobs[a.id].copy.phase == NodeClaimed
    && name in s.store && s.Phase(name) == NodeAvailable
  }

  /** The node is handed out, taken to a phase other than Claimed, or purged. */
  predicate Releases(s: State, a: Action, name: string) {
    var e := EffectOf(s, a);
    || (a.Claim? && ClaimSucceeds(s) && s.dispatcher.copy.name == name)
    || (e.Writes? && e.node.name == name && e.node.phase != NodeClaimed && Accepted(s, e.node))
    || e == Purges(name)
  }

  lemma EjectionWrites(s: State, a: Action, name: string)
    requires Inv(s)
    ensures var e := EffectOf(s, a);
      && (e.Creates? ==> Unborn(s, e.node))
      && (StaleEjection(s, a, name) <==>
          e.Writes? && e.node.name == name && e.node.phase == NodeClaimed && name in s.store
            && s.Phase(name) == NodeAvailable)
  {}

  lemma PerformDisowns(s: State, e: Effect, name: string)
    requires Owned(s) && (e.Creates? ==> Unborn(s, e.node))
    ensures Unowned(Perform(s, e), name) <==>
      || (e.Writes? && e.node.name == name && e.node.phase == NodeClaimed && name in s.store
          && s.Phase(name) == NodeAvailable)
      || (Unowned(s, name) && e != Purges(name) &&
          !(e.Writes? && e.node.name == name && e.node.phase != NodeClaimed && Accepted(s, e.node)))
  {
    if e.Writes? { CommitAt(s, e.node, "", name); }
    hide Commit;
  }

  lemma ClaimDisowns(s: State, name: string)
    requires Owned(s) && s.dispatcher.Chosen?
    ensures Unowned(AfterClaim(s), name) <==> Unowned(s, name) && !(ClaimSucceeds(s) && s.dispatcher.copy.name == name)
  {
    var d := s.dispatcher;
    CommitAt(s, d.copy.(phase := NodeClaimed, bound := d.pod), d.pod, name);
    hide Commit;
  }

  /** A step leaves a node Claimed by nobody exactly if it is a stale ejection of the node, or the
    * node was so before and is not released. */
  lemma UnownedStep(w: World, s: State, a: Action, name: string)
    requires Enabled(w, s, a) && Inv(s)
    ensures Unowned(Next(w, s, a), name) <==> StaleEjection(s, a, name) || (Unowned(s, name) && !Releases(s, a, name))
  {
    hide Next, Enabled, Work, Perform, Intent, Accepted, AfterClaim, ClaimSucceeds, Registered, CreatedOnce;
    NextIsWork(w, s, a);
    EjectionWrites(s, a, name);
    if a.Step? {
      var e := EffectOf(s, a);
      PerformDisowns(s, e, name);
      WorkIsPerform(s, a.id, a.good, name);
    } else if a.Claim? {
      ClaimDisowns(s, name);
    } else {
      OthersKeepNodes(w, s, a);
    }
  }

  lemma WorkIsPerform(s: State, id: nat, good: bool, name: string)
    requires id in s.jobs
    ensures Unowned(Work(s, id, good), name) <==> Unowned(Perform(s, Intent(s.jobs[id], good)), name)
  {
    hide Perform, Intent, Follow;
  }

  /** A stale ejection of the node came before state `k`, and the node was not released since. */
  ghost predicate EjectedBefore(run: seq<State>, actions: seq<Action>, k: nat, name: string)
    requires k <= |actions| < |run|
  {
    exists i :: 0 <= i < k && StaleEjection(run[i], actions[i], name) && KeptSince(run, actions, i + 1, k, name)
  }

  ghost predicate KeptSince(run: seq<State>, actions: seq<Action>, i: nat, k: nat, name: string)
    requires k <= |actions| < |run|
  {
    forall j :: i <= j < k ==> !Releases(run[j], actions[j], name)
  }

  /** In every run, a node is Claimed by nobody exactly if it was so at the start or was ejected by a
    * stale write, and has not been released since. */
  lemma {:induction false} UnownedExactly(w: World, run: seq<State>, actions: seq<Action>, k: nat, name: string)
    requires IsRun(w, run, actions) && k < |run|
    ensures Unowned(run[k], name) <==>
      EjectedBefore(run, actions, k, name) || (Unowned(run[0], name) && KeptSince(run, actions, 0, k, name))
  {
    hide Inv, Next, Enabled, StaleEjection, Releases, Unowned;
    if k > 0 {
      var s, a := run[k - 1], actions[k - 1];
      UnownedExactly(w, run, actions, k - 1, name);
      InvAlways(w, run, actions, k - 1);
      assert Enabled(w, s, a) && run[k - 1 + 1] == Next(w, s, a);
      UnownedStep(w, s, a, name);
      EjectedNext(run, actions, k - 1, name);
    }
  }

  lemma EjectedNext(run: seq<State>, actions: seq<Action>, k: nat, name: string)
    requires k < |actions| < |run|
    ensures EjectedBefore(run, actions, k + 1, name) <==>
      StaleEjection(run[k], actions[k], name)
        || (EjectedBefore(run, actions, k, name) && !Releases(run[k], actions[k], name))
  {
    hide StaleEjection, Releases;
    if StaleEjection(run[k], actions[k], name) {
      assert KeptSince(run, actions, k + 1, k + 1, name);
    } else if EjectedBefore(run, actions, k, name) && !Releases(run[k], actions[k], name) {
      var i :| 0 <= i < k && StaleEjection(run[i], actions[i], name) && KeptSince(run, actions, i + 1, k, name);
      assert KeptSince(run, actions, i + 1, k + 1, name);
    }
    if EjectedBefore(run, actions, k + 1, name) && !StaleEjection(run[k], actions[k], name) {
      var i :| 0 <= i < k + 1 && StaleEjection(run[i], actions[i], name) && KeptSince(run, actions, i + 1, k + 1, name);
      assert KeptSince(run, actions, i + 1, k, name);
    }
  }

  /** In every interleaving a node handed out has no owner, and the hand-out is a transition from
    * Available exactly if no stale ejection of this very node came before, unless the node was
    * released since, and the run did not start with the node Claimed by nobody. */
  lemma ExclusiveClaim(w: World, run: seq<State>, actions: seq<Action>, k: nat)
    requires IsRun(w, run, actions) && k < |actions| && actions[k].Claim? && ClaimSucceeds(run[k])
    ensures var name := run[k].dispatcher.copy.name;
      && name in run[k].store && run[k].Owner(name) == "" && ClaimedAt(run[k + 1], name)
      && (run[k].Phase(name) == NodeAvailable <==>
          !EjectedBefore(run, actions, k, name) && !(Unowned(run[0], name) && KeptSince(run, actions, 0, k, name)))
      && (run[k].Phase(name) != NodeAvailable ==> ClaimedAt(run[k], name) && BoundPod(run[k], name) == "")
  {
    var name := run[k].dispatcher.copy.name;
    InvAlways(w, run, actions, k);
    ClaimTakesUnowned(run[k]);
    assert OwnedNode(run[k], name);
    UnownedExactly(w, run, actions, k, name);
    assert Enabled(w, run[k], actions[k]) && run[k + 1] == Next(w, run[k], actions[k]);
    hide Inv, EjectedBefore, KeptSince, Commit;
  }
}

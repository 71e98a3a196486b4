/** What every interleaving of the node protocol keeps. */
module NodeProtocolSafety {
  import opened Wrappers
  import opened ApiTypes
  import opened NodeScaler
  import opened NodeScalerRounds
  import opened NodeScalerBindings
  import opened NodeProtocol
  import Etcd

  // ---- invariants ----

  ghost predicate RegisteredNode(s: State, name: string)
    requires name in s.store
  {
    name in s.created && name in s.issued && s.store[name].node.name == name
      && s.store[name].node.spec == s.issued[name]
  }

  /** The stored nodes carry their own name, were created, and keep the spec they were made with. */
  ghost predicate Registered(s: State) {
    && (forall name :: name in s.created ==> name in s.issued)
    && (forall name :: name in s.store ==> RegisteredNode(s, name))
  }

  /** The node is still to be created, under a name not yet used. */
  ghost predicate Unborn(s: State, n: Node) {
    n.name in s.issued && s.issued[n.name] == n.spec && n.name !in s.created && AvailableOrBaking(n)
  }

  /** A name is created at most once. */
  ghost predicate CreatedOnce(s: State) {
    && (forall id :: id in s.jobs && s.jobs[id].Creating? ==> Unborn(s, s.jobs[id].copy))
    && (forall id, id' :: id in s.jobs && id' in s.jobs && SameBirth(s.jobs[id], s.jobs[id']) ==> id == id')
  }

  /** No goroutine but the dispatcher writes a Claimed status that names a pod. */
  predicate Harmless(j: Job) {
    match j
    case Running(n) => n.phase != NodeClaimed
    case Dirty(n) => n.phase != NodeClaimed
    case _ => true
  }

  ghost predicate OwnedNode(s: State, name: string)
    requires name in s.store
  {
    if s.Phase(name) == NodeClaimed then s.store[name].node.bound in {"", s.Owner(name)} else s.Owner(name) == ""
  }

  /** A Claimed node is bound to its owner or to nobody; others have no owner, and neither has a
    * node that the dispatcher is about to claim. */
  ghost predicate Owned(s: State) {
    && (forall name :: name in s.store ==> OwnedNode(s, name))
    && (s.dispatcher.Chosen? ==> s.dispatcher.pod != "" && s.Owner(s.dispatcher.copy.name) == "")
    && (forall name :: name !in s.created ==> s.Owner(name) == "")
    && (forall id :: id in s.jobs ==> Harmless(s.jobs[id]))
  }

  ghost predicate Inv(s: State) {
    Registered(s) && CreatedOnce(s) && Owned(s)
  }

  // ---- what a single write keeps ----

  lemma CommitKeepsRegistered(s: State, n: Node, claimant: string)
    requires Registered(s)
    ensures Registered(Commit(s, n, claimant))
  {}

  /** A write changes phase, binding and owner of its node, and nothing else. */
  lemma CommitAt(s: State, n: Node, claimant: string, name: string)
    ensures var t := Commit(s, n, claimant);
      && (name in t.store <==> name in s.store) && t.created == s.created && t.issued == s.issued
      && t.jobs == s.jobs && t.dispatcher == s.dispatcher && t.published == s.published
      && (name != n.name || !Accepted(s, n) ==>
          t.Owner(name) == s.Owner(name) && (name in s.store ==> t.store[name] == s.store[name]))
      && (name == n.name && Accepted(s, n) ==>
            && ValidStateChange(s.Phase(name), n.phase)
            && t.store[name] == s.store[name].(node := s.store[name].node.(phase := n.phase, bound := n.bound))
            && t.Owner(name) ==
               if claimant != "" then claimant
               else if n.phase == NodeClaimed && s.Phase(name) == NodeClaimed then s.Owner(name) else "")
  {}

  lemma CommitKeepsOwned(s: State, n: Node)
    requires Owned(s) && (n.phase == NodeClaimed ==> n.bound == "")
    ensures Owned(Commit(s, n, ""))
  {
    var t := Commit(s, n, "");
    hide Commit;
    CommitAt(s, n, "", n.name);
    forall name | name in t.store ensures OwnedNode(t, name) {
      CommitAt(s, n, "", name);
      assert OwnedNode(s, name);
    }
    if s.dispatcher.Chosen? { CommitAt(s, n, "", s.dispatcher.copy.name); }
    forall name | name !in t.created ensures t.Owner(name) == "" { CommitAt(s, n, "", name); }
  }

  lemma PerformKeepsRegistered(s: State, e: Effect)
    requires Registered(s) && (e.Creates? ==> Unborn(s, e.node))
    ensures Registered(Perform(s, e))
  {}

  lemma PerformKeepsOwned(s: State, e: Effect)
    requires Owned(s) && (e.Creates? ==> Unborn(s, e.node))
      && (e.Writes? && e.node.phase == NodeClaimed ==> e.node.bound == "")
    ensures Owned(Perform(s, e))
  {
    if e.Writes? { CommitKeepsOwned(s, e.node); }
    hide Commit;
    var t := Perform(s, e);
    if !e.Writes? {
      forall name | name in t.store ensures OwnedNode(t, name) { assert name in s.store ==> OwnedNode(s, name); }
    }
  }

  // ---- goroutines ----

  lemma IntentIsHarmless(j: Job, good: bool)
    requires Harmless(j)
    ensures var e := Intent(j, good); e.Writes? && e.node.phase == NodeClaimed ==> e.node.bound == ""
    ensures var e := Intent(j, good); e.Creates? ==> j.Creating? && e.node == j.copy
  {}

  lemma FollowIsHarmless(s: State, j: Job, good: bool)
    requires Harmless(j)
    ensures var f := Follow(s, j, good); f.Some? ==> Harmless(f.value) && !f.value.Creating?
  {}

  lemma PerformElse(s: State, e: Effect)
    ensures var t := Perform(s, e);
      && t.jobs == s.jobs && t.issued == s.issued && t.dispatcher == s.dispatcher
      && (!e.Publishes? ==> t.published == s.published)
      && t.created == if e.Creates? && e.node.name !in s.store then s.created + {e.node.name} else s.created
  {}

  lemma WorkKeeps(s: State, id: nat, good: bool)
    requires Inv(s) && id in s.jobs
    ensures Inv(Work(s, id, good))
  {
    var j := s.jobs[id];
    var e, f := Intent(j, good), Follow(s, j, good);
    IntentIsHarmless(j, good);
    FollowIsHarmless(s, j, good);
    hide Intent, Follow, Perform, Harmless, RegisteredNode, OwnedNode;
    PerformKeepsRegistered(s, e);
    PerformKeepsOwned(s, e);
    PerformElse(s, e);
    var t := Perform(s, e);
    JobsKeepRegistered(t, SetJob(t, id, f).jobs);
    JobsKeepOwned(t, SetJob(t, id, f).jobs);
    JobsKeepCreatedOnce(s, t, id, f);
  }

  lemma JobsKeepRegistered(s: State, jobs: map<nat, Job>)
    requires Registered(s)
    ensures Registered(s.(jobs := jobs))
  {}

  lemma JobsKeepOwned(s: State, jobs: map<nat, Job>)
    requires Owned(s) && forall id :: id in jobs ==> Harmless(jobs[id])
    ensures Owned(s.(jobs := jobs))
  {}

  /** After a step of job `id`, the other jobs still create names of their own. */
  lemma JobsKeepCreatedOnce(s: State, t: State, id: nat, f: Option<Job>)
    requires CreatedOnce(s) && id in s.jobs && t.jobs == s.jobs && t.issued == s.issued
      && (f.Some? ==> !f.value.Creating?)
    requires t.created == s.created || (s.jobs[id].Creating? && t.created == s.created + {s.jobs[id].copy.name})
    ensures CreatedOnce(SetJob(t, id, f))
  {}

  // ---- scaling rounds ----

  lemma {:induction false} SpecsAt(nodes: seq<Node>, uuid: nat -> string, k: nat)
    requires NamedFrom(nodes, uuid, 0) && (forall i: nat, j: nat :: i < j ==> uuid(i) != uuid(j)) && k < |nodes|
    ensures nodes[k].name in Specs(nodes) && Specs(nodes)[nodes[k].name] == nodes[k].spec
  {
    var last := |nodes| - 1;
    if k < last {
      assert nodes[k].name == uuid(0 + k) && nodes[last].name == uuid(0 + last);
      assert NamedFrom(nodes[..last], uuid, 0);
      SpecsAt(nodes[..last], uuid, k);
    }
  }

  lemma {:induction false} SpecsOnly(nodes: seq<Node>, x: string)
    requires x in Specs(nodes)
    ensures exists k :: 0 <= k < |nodes| && nodes[k].name == x
  {
    var last := |nodes| - 1;
    if x == nodes[last].name {
    } else {
      SpecsOnly(nodes[..last], x);
      var k :| 0 <= k < last && nodes[..last][k].name == x;
      assert nodes[k].name == x;
    }
  }

  /** The nodes that a round starts are new. */
  lemma StartIsNew(w: World, s: State, a: Action, n: Node)
    requires a.Scale? && Enabled(w, s, a) && n in RoundOf(w, a.input).Start()
    ensures var specs := Specs(RoundOf(w, a.input).Start());
      n.name !in s.issued && n.name in specs && specs[n.name] == n.spec && AvailableOrBaking(n)
  {
    hide Match, FillPools, NodesForPods, NodesForPools, Waiting, PodsChosen, NodesChosen, SpecsChosen, RoundJob,
         Specs;
    var i := a.input;
    var o := RoundOf(w, i);
    StartNames(At(w.cfg, i), i.nodes, i.pods, i.choice, i.uuid);
    var k :| 0 <= k < |o.Start()| && o.Start()[k] == n;
    SpecsAt(o.Start(), i.uuid, k);
    assert n.name == i.uuid(0 + k);
    if n in o.forPods {
      var q := NewNodeIsStillBound(At(w.cfg, i), i.nodes, Waiting(i.pods), i.choice, i.uuid, n);
    } else {
      SpecsAreNeeded(At(w.cfg, i), i.choice, o);
      PoolNodesAreUnbound(At(w.cfg, i), i.choice.specs, o.pool.needed, i.uuid, |o.forPods|);
    }
  }

  lemma SpecsAreNew(w: World, s: State, a: Action, x: string)
    requires a.Scale? && Enabled(w, s, a) && x in Specs(RoundOf(w, a.input).Start())
    ensures x !in s.issued
  {
    hide Round, Waiting, PodsChosen, NodesChosen, RoundJob, Specs;
    var i := a.input;
    StartNames(At(w.cfg, i), i.nodes, i.pods, i.choice, i.uuid);
    SpecsOnly(RoundOf(w, i).Start(), x);
    var k :| 0 <= k < |RoundOf(w, i).Start()| && RoundOf(w, i).Start()[k].name == x;
    assert x == i.uuid(0 + k);
  }

  lemma ScaleKeeps(w: World, s: State, a: Action)
    requires a.Scale? && Enabled(w, s, a) && Inv(s)
    ensures Inv(Next(w, s, a))
  {
    hide RoundOf, Specs, ValidInput, Harmless, RegisteredNode, OwnedNode, Unborn, SameBirth;
    var t, start := Next(w, s, a), RoundOf(w, a.input).Start();
    forall x | x in Specs(start) ensures x !in s.issued { SpecsAreNew(w, s, a, x); }
    IssuedGrows(s, Specs(start));
    var t1 := s.(issued := s.issued + Specs(start));
    forall id | id in a.newJobs
      ensures Harmless(a.newJobs[id])
        && (a.newJobs[id].Creating? ==> Unborn(t1, a.newJobs[id].copy) && a.newJobs[id].copy.name !in s.issued) {
      NewJobIs(w, s, a, id);
    }
    JobsKeepRegistered(t1, t.jobs);
    JobsKeepOwned(t1, t.jobs);
    NewJobsKeepCreatedOnce(s, t1, a.newJobs);
  }

  lemma NewJobIs(w: World, s: State, a: Action, id: nat)
    requires a.Scale? && Enabled(w, s, a) && Registered(s) && id in a.newJobs
    ensures var t := s.(issued := s.issued + Specs(RoundOf(w, a.input).Start())); var j := a.newJobs[id];
      Harmless(j) && (j.Creating? ==> Unborn(t, j.copy) && j.copy.name !in s.issued)
  {
    hide Round, Specs, ValidChoice, RegisteredNode;
    var j := a.newJobs[id];
    assert RoundJob(w, a.input, j);
    if j.Creating? {
      StartIsNew(w, s, a, j.copy);
    }
  }

  lemma IssuedGrows(s: State, more: map<string, NodeSpec>)
    requires Inv(s) && forall x :: x in more ==> x !in s.issued
    ensures Inv(s.(issued := s.issued + more))
  {
    var t := s.(issued := s.issued + more);
    forall name | name in t.store ensures RegisteredNode(t, name) && OwnedNode(t, name) {
      assert RegisteredNode(s, name) && OwnedNode(s, name);
    }
    forall id | id in t.jobs && t.jobs[id].Creating?
      ensures Unborn(t, t.jobs[id].copy) { assert Unborn(s, s.jobs[id].copy); }
    assert forall name :: t.Owner(name) == s.Owner(name);
  }

  lemma NewJobsKeepCreatedOnce(s: State, t: State, newJobs: map<nat, Job>)
    requires CreatedOnce(s) && CreatedOnce(t) && t.jobs == s.jobs && newJobs.Keys !! s.jobs.Keys
    requires forall id :: id in newJobs && newJobs[id].Creating? ==>
      Unborn(t, newJobs[id].copy) && newJobs[id].copy.name !in s.issued
    requires forall id, id' :: id in newJobs && id' in newJobs && SameBirth(newJobs[id], newJobs[id']) ==> id == id'
    ensures CreatedOnce(t.(jobs := t.jobs + newJobs))
  {}

  // ---- the dispatcher and the rest ----

  /** The dispatcher only ever claims a node that nobody owns. */
  lemma ClaimKeeps(s: State)
    requires s.dispatcher.Chosen? && Inv(s)
    ensures Inv(AfterClaim(s))
  {
    var d := s.dispatcher;
    var n := d.copy.(phase := NodeClaimed, bound := d.pod);
    var t := AfterClaim(s);
    assert n.name in s.store ==> RegisteredNode(s, n.name);
    CommitKeepsRegistered(s, n, d.pod);
    CommitAt(s, n, d.pod, n.name);
    var u := Commit(s, n, d.pod);
    hide Commit, RegisteredNode;
    forall name | name in t.store ensures OwnedNode(t, name) && RegisteredNode(t, name) {
      CommitAt(s, n, d.pod, name);
      assert OwnedNode(s, name) && RegisteredNode(u, name);
      SameNode(u, t, name);
    }
    forall name | name !in t.created ensures t.Owner(name) == "" {
      CommitAt(s, n, d.pod, name);
    }
    JobsKeepOnce(s, t);
  }

  lemma SameNode(s: State, t: State, name: string)
    requires s.store == t.store && s.created == t.created && s.issued == t.issued && name in s.store
      && RegisteredNode(s, name)
    ensures RegisteredNode(t, name)
  {}

  lemma JobsKeepOnce(s: State, t: State)
    requires CreatedOnce(s) && t.jobs == s.jobs && t.issued == s.issued && t.created == s.created
    ensures CreatedOnce(t)
  {}

  // ---- the link to the versioned store ----

  function Values<V>(es: Etcd.Store<V>): map<string, V> {
    map key | key in es :: es[key].value
  }

  /** A commit is what AtomicUpdate amounts to. */
  lemma CommitIsAnUpdate(s: State, es: Etcd.Store<Stored>, n: Node, claimant: string)
    requires Values(es) == s.store
    ensures var (es', r) := Etcd.Modified(es, n.name, UpdateStatus(n));
      Values(es') == Commit(s, n, claimant).store && (r.Ok? <==> Accepted(s, n))
  {}
}

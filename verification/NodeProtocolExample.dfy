/** A run in which the reaper's stale copy makes the dispatcher claim a node that is not Available. */
module NodeProtocolExample {
  import opened Wrappers
  import opened ApiTypes
  import opened NodeScaler
  import opened NodeScalerRounds
  import opened NodeScalerBindings
  import opened NodeProtocol
  import opened NodeProtocolSafety
  import opened NodeProtocolRuns

  /** A waiting pod, and a node that fits it and that `first` has claimed. */
  datatype Scene = Scene(w: World, pod: Pod, first: string, name: string, spec: NodeSpec, uuid: nat -> string,
                         unavailable: (string, bool, bool, string) -> bool)
  {
    ghost predicate Valid() {
      && w.cfg.standby == [] && pod.name in w.pods && w.pods[pod.name] == pod.spec && pod.name != ""
        && pod.phase == PodWaiting
      && first != "" && PodMatchesNode(w.cfg, pod.spec, spec)
      && NewNames(uuid, map[name := spec])
    }

    function At(phase: NodePhase, bound: string): Node {
      Node(name, spec, phase, bound)
    }

    function InState(n: Node, owner: string, jobs: map<nat, Job>, d: Dispatcher, b: map<string, string>): State {
      State(map[name := Stored(n, true)], jobs, d, b, map[name := spec], {name}, map[name := owner])
    }

    function Free(): Node {
      At(NodeAvailable, "")
    }

    function Taken(): Node {
      At(NodeAvailable, pod.name)
    }

    function ToScale(): Input {
      Input([Free()], [pod], Choice([pod], [Free()], []), uuid, unavailable)
    }

    function Bindings(): map<string, string> {
      map[pod.name := name]
    }

    function ToDo(): map<nat, Job> {
      map[3 := Publishing(Bindings()), 4 := Dirty(Taken())]
    }
  }

  lemma TheParts(c: Scene)
    requires c.Valid()
    ensures Waiting([c.pod]) == map[c.pod.name := c.pod]
    ensures OldBindings([c.Free()], Waiting([c.pod])) == map[]
      && UnboundNodes([c.Free()], Waiting([c.pod])) == [c.Free()]
  {}

  lemma TheMatch(c: Scene)
    requires c.Valid()
    ensures Match(At(c.w.cfg, c.ToScale()), [c.pod], [c.Free()]) == Matching([Pair(c.pod, c.Free())], [], [])
    ensures PairBindings([Pair(c.pod, c.Free())]) == c.Bindings()
  {}

  lemma TheChoice(c: Scene)
    requires c.Valid()
    ensures ValidInput(c.w.cfg, c.ToScale())
  {
    TheParts(c);
    hide NewNames, OldBindings, UnboundNodes, Waiting, PodMatchesNode;
    assert NeedsNode(c.pod.name, Waiting([c.pod]), OldBindings([c.Free()], Waiting([c.pod])));
  }

  lemma TheRound(c: Scene)
    requires c.Valid()
    ensures ValidInput(c.w.cfg, c.ToScale())
    ensures RoundOf(c.w, c.ToScale()).bindings == c.Bindings() && RoundOf(c.w, c.ToScale()).Start() == []
    ensures RoundOf(c.w, c.ToScale()).matching.pairs == [Pair(c.pod, c.Free())]
  {
    TheChoice(c);
    TheParts(c);
    TheMatch(c);
    hide NewNames, OldBindings, UnboundNodes, Waiting, Match, PairBindings, PodMatchesNode, PodsChosen, NodesChosen;
    assert FillPools(At(c.w.cfg, c.ToScale()), [], []) == Pool([], [], map[]);
  }

  lemma TakenIsAfter(c: Scene)
    requires c.Valid()
    ensures ValidInput(c.w.cfg, c.ToScale()) && c.Taken() in After(c.w.cfg, c.ToScale())
  {
    TheRound(c);
    var pair := Pair(c.pod, c.Free());
    BindingsOfPairs([pair]);
    assert BoundNodes([pair])[0] == c.Taken();
    hide NewNames, Round, BoundNodes, ValidChoice, PodMatchesNode, IdleNodes, StillNodes;
  }

  lemma ToDoIsRoundWork(c: Scene)
    requires c.Valid()
    ensures ValidInput(c.w.cfg, c.ToScale())
    ensures forall id :: id in c.ToDo() ==> !c.ToDo()[id].Creating? && RoundJob(c.w, c.ToScale(), c.ToDo()[id])
  {
    TheRound(c);
    TakenIsAfter(c);
    hide NewNames, RoundOf, ValidInput, PodMatchesNode, After;
  }

  lemma ScaleOne(w: World, s: State, i: Input, newJobs: map<nat, Job>, n: Node, p: Pod)
    requires ValidInput(w.cfg, i) && i.nodes == [n] && i.pods == [p] && NewNames(i.uuid, s.issued)
    requires n.name in s.store && s.store[n.name].node == n && p.name in w.pods && w.pods[p.name] == p.spec
    requires newJobs.Keys !! s.jobs.Keys
    requires forall id :: id in newJobs ==> !newJobs[id].Creating? && RoundJob(w, i, newJobs[id])
    ensures ScaleEnabled(w, s, i, newJobs)
  {
    hide NewNames, ValidInput, RoundJob;
  }

  lemma Scaled(c: Scene, s: State)
    requires c.Valid() && s.store == map[c.name := Stored(c.Free(), true)] && s.issued == map[c.name := c.spec]
    requires c.ToDo().Keys !! s.jobs.Keys
    ensures ScaleEnabled(c.w, s, c.ToScale(), c.ToDo())
  {
    hide NewNames, ValidInput, RoundJob, ScaleEnabled, Scene.ToDo, PodMatchesNode;
    ToDoIsRoundWork(c);
    ScaleOne(c.w, s, c.ToScale(), c.ToDo(), c.Free(), c.pod);
  }

  type Jobs = map<nat, Job>

  /** The states of the run. */
  function Moment(c: Scene, k: nat): State
    requires k <= 11
  {
    var claimed, cleaned, ejected := c.At(NodeClaimed, c.first), c.At(NodeCleaning, ""), c.At(NodeClaimed, "");
    var reaper: Jobs := map[0 := Ejecting(claimed)];
    var both: Jobs := map[0 := Ejecting(claimed), 1 := Stopping(cleaned)];
    if k == 0 then c.InState(claimed, c.first, map[], Ready, map[])
    else if k == 1 then c.InState(claimed, c.first, reaper, Ready, map[])
    else if k == 2 then c.InState(claimed, c.first, reaper[1 := ReturnUsed(c.name)], Ready, map[])
    else if k == 3 then c.InState(claimed, c.first, reaper[1 := Used(claimed)], Ready, map[])
    else if k == 4 then c.InState(cleaned, "", both, Ready, map[])
    else if k == 5 then c.InState(cleaned, "", both[2 := Healthy(cleaned)], Ready, map[])
    else if k == 6 then c.InState(c.Free(), "", both, Ready, map[])
    else if k == 7 then c.InState(c.Free(), "", both[3 := c.ToDo()[3]][4 := c.ToDo()[4]], Ready, map[])
    else if k == 8 then c.InState(c.Taken(), "", both[3 := Publishing(c.Bindings())], Ready, map[])
    else if k == 9 then c.InState(c.Taken(), "", both, Ready, c.Bindings())
    else if k == 10 then c.InState(c.Taken(), "", both, Chosen(c.Taken(), c.pod.name), c.Bindings())
    else c.InState(ejected, "", both[0 := Stopping(ejected)], Chosen(c.Taken(), c.pod.name), c.Bindings())
  }

  /** The steps between them, after a restart: the reaper reads the Claimed node and sleeps; the node
    * is returned and marked Cleaning, and the wait for it is resumed, which makes it Available; it is
    * bound to the waiting pod and chosen for it; then the reaper writes. */
  function Move(c: Scene, k: nat): Action
    requires k < 11
  {
    if k == 0 then Reap(0, c.name)
    else if k == 1 then Return(1, c.name, false)
    else if k == 2 || k == 3 then Step(1, true)
    else if k == 4 then Resume(2, c.name, true)
    else if k == 5 then Step(2, true)
    else if k == 6 then Scale(c.ToScale(), c.ToDo())
    else if k == 7 then Step(4, true)
    else if k == 8 then Step(3, true)
    else if k == 9 then Request(c.pod.name)
    else Step(0, true)
  }

  ghost predicate Leads(c: Scene, k: nat)
    requires k < 11
  {
    Enabled(c.w, Moment(c, k), Move(c, k)) && Next(c.w, Moment(c, k), Move(c, k)) == Moment(c, k + 1)
  }

  lemma Reaped(c: Scene)
    requires c.Valid()
    ensures Leads(c, 0)
  {
    hide NewNames, ScaleEnabled, RoundOf, PodMatchesNode, Work;
  }

  lemma Returned(c: Scene)
    requires c.Valid()
    ensures Leads(c, 1)
  {
    hide NewNames, ScaleEnabled, RoundOf, PodMatchesNode, Work;
  }

  lemma Resumed(c: Scene)
    requires c.Valid()
    ensures Leads(c, 4)
  {
    hide NewNames, ScaleEnabled, RoundOf, PodMatchesNode, Work;
  }

  lemma Requested(c: Scene)
    requires c.Valid()
    ensures Leads(c, 9)
  {
    hide NewNames, ScaleEnabled, RoundOf, PodMatchesNode, Work;
  }

  lemma NextScale(w: World, s: State, i: Input, newJobs: map<nat, Job>)
    requires ScaleEnabled(w, s, i, newJobs)
    ensures ValidInput(w.cfg, i) && Enabled(w, s, Scale(i, newJobs))
    ensures RoundOf(w, i).Start() == [] ==> Next(w, s, Scale(i, newJobs)) == s.(jobs := s.jobs + newJobs)
  {
    hide NewNames, RoundOf, ValidInput, RoundJob;
    assert s.issued + map[] == s.issued;
  }

  lemma ScaledTo(c: Scene)
    requires c.Valid()
    ensures Leads(c, 6)
  {
    var s := Moment(c, 6);
    assert s.store == map[c.name := Stored(c.Free(), true)] && s.issued == map[c.name := c.spec];
    assert c.ToDo().Keys !! s.jobs.Keys;
    assert s.(jobs := s.jobs + c.ToDo()) == Moment(c, 7) && Move(c, 6) == Scale(c.ToScale(), c.ToDo());
    hide NewNames, Moment, Move, ScaleEnabled, RoundOf, ValidInput, Enabled, Next, Scene.ToScale, Scene.ToDo;
    Scaled(c, s);
    TheRound(c);
    NextScale(c.w, s, c.ToScale(), c.ToDo());
  }

  /** A goroutine's step, spelled out. */
  lemma Worked(c: Scene, k: nat)
    requires k < 11 && Move(c, k).Step? && Move(c, k).good && Move(c, k).id in Moment(c, k).jobs
    requires Work(Moment(c, k), Move(c, k).id, true) == Moment(c, k + 1)
    ensures Leads(c, k)
  {
    hide NewNames, ScaleEnabled, RoundOf, PodMatchesNode, Work, Moment, Move;
  }

  lemma Read(c: Scene)
    requires c.Valid()
    ensures Leads(c, 2)
  {
    hide NewNames, PodMatchesNode, Commit;
    assert Work(Moment(c, 2), 1, true).jobs == Moment(c, 3).jobs;
    Worked(c, 2);
  }

  /** A write to the one node there is, which leaves it without an owner. */
  lemma Written(c: Scene, k: nat, id: nat, n: Node, stored: Stored, owner: string, f: Option<Job>)
    requires k in {3, 5, 7, 10} && Move(c, k) == Step(id, true)
    requires var s := Moment(c, k);
      && id in s.jobs && Intent(s.jobs[id], true) == Writes(n) && f == Follow(s, s.jobs[id], true)
      && s.store == map[n.name := stored] && s.owner == map[n.name := owner]
    requires ValidStateChange(stored.node.phase, n.phase)
      && !(n.phase == NodeClaimed && stored.node.phase == NodeClaimed)
    requires var s, u := Moment(c, k), Moment(c, k + 1);
      && u.store == map[n.name := stored.(node := stored.node.(phase := n.phase, bound := n.bound))]
      && u.owner == map[n.name := ""] && u == SetJob(s.(store := u.store, owner := u.owner), id, f)
    ensures Leads(c, k)
  {
    hide Intent, Follow, Moment, Move, Leads;
    var s, u := Moment(c, k), Moment(c, k + 1);
    var t := Work(s, id, true);
    assert t.store == u.store;
    assert t.owner == u.owner;
    Worked(c, k);
  }

  lemma WroteCleaning(c: Scene)
    requires c.Valid()
    ensures Leads(c, 3)
  {
    hide NewNames, PodMatchesNode, Leads;
    var claimed, cleaned := c.At(NodeClaimed, c.first), c.At(NodeCleaning, "");
    Written(c, 3, 1, cleaned, Stored(claimed, true), c.first, Some(Stopping(cleaned)));
  }

  lemma WroteAvailable(c: Scene)
    requires c.Valid()
    ensures Leads(c, 5)
  {
    hide NewNames, PodMatchesNode, Leads;
    assert Moment(c, 6).jobs == Moment(c, 5).jobs - {2};
    Written(c, 5, 2, c.Free(), Stored(c.At(NodeCleaning, ""), true), "", None);
  }

  lemma WroteBinding(c: Scene)
    requires c.Valid()
    ensures Leads(c, 7)
  {
    hide NewNames, PodMatchesNode, Leads;
    assert Moment(c, 8).jobs == Moment(c, 7).jobs - {4};
    Written(c, 7, 4, c.Taken(), Stored(c.Free(), true), "", None);
  }

  lemma WroteClaimed(c: Scene)
    requires c.Valid()
    ensures Leads(c, 10)
  {
    hide NewNames, PodMatchesNode, Leads;
    var ejected := c.At(NodeClaimed, "");
    Written(c, 10, 0, ejected, Stored(c.Taken(), true), "", Some(Stopping(ejected)));
  }

  lemma Published(c: Scene)
    requires c.Valid()
    ensures Leads(c, 8)
  {
    hide NewNames, PodMatchesNode, Commit;
    assert Work(Moment(c, 8), 3, true).jobs == Moment(c, 9).jobs;
    Worked(c, 8);
  }

  lemma Starts(c: Scene)
    requires c.Valid()
    ensures Inv(Moment(c, 0)) && AllOwned(Moment(c, 0))
  {}

  lemma EveryMove(c: Scene, k: nat)
    requires c.Valid() && k < 11
    ensures Leads(c, k)
  {
    hide Leads, Scene.Valid;
    if k == 0 { Reaped(c); }
    else if k == 1 { Returned(c); }
    else if k == 2 { Read(c); }
    else if k == 3 { WroteCleaning(c); }
    else if k == 4 { Resumed(c); }
    else if k == 5 { WroteAvailable(c); }
    else if k == 6 { ScaledTo(c); }
    else if k == 7 { WroteBinding(c); }
    else if k == 8 { Published(c); }
    else if k == 9 { Requested(c); }
    else { WroteClaimed(c); }
  }

  /** Whatever the pod and the node, there is a run in which the node is Claimed when the dispatcher claims it. */
  lemma ClaimedTwice(c: Scene) returns (run: seq<State>, actions: seq<Action>)
    requires c.Valid()
    ensures IsRun(c.w, run, actions) && AllOwned(run[0])
    ensures var s := run[|actions|]; ClaimSucceeds(s) && ClaimedAt(s, s.dispatcher.copy.name)
  {
    run, actions := seq(12, k requires 0 <= k < 12 => Moment(c, k)), seq(11, k requires 0 <= k < 11 => Move(c, k));
    Starts(c);
    Ends(c);
    hide Enabled, Next, Inv, AllOwned, Moment, Move, ClaimSucceeds, Scene.Valid;
    forall k | 0 <= k < |actions|
      ensures Enabled(c.w, run[k], actions[k]) && run[k + 1] == Next(c.w, run[k], actions[k])
    {
      EveryMove(c, k);
    }
  }

  lemma Ends(c: Scene)
    ensures var s := Moment(c, 11); ClaimSucceeds(s) && ClaimedAt(s, s.dispatcher.copy.name)
  {}
}

/** Failure, restart and the reported phase of a pod, over whole runs of atomic handlers. */
module PodLifecycle {
  import opened Wrappers
  import opened ApiTypes
  import opened PodPhases

  const AllowedStartFailures: int := 2

  /** `wanted` is Spec.Phase. */
  datatype PodRecord = PodRecord(policy: RestartPolicy, wanted: PodPhase, status: PodStatus)

  datatype Life = Gone | Live(pod: PodRecord)

  // ---- the registry ----

  predicate ValidStatusPhaseChange(old_: PodPhase, new_: PodPhase) {
    match old_
    case PodWaiting => new_ in {PodDispatching, PodTerminated}
    case PodDispatching => new_ in {PodRunning, PodFailed, PodTerminated}
    case PodRunning => new_ in {PodFailed, PodTerminated, PodSucceeded}
    case PodFailed => new_ in {PodWaiting, PodTerminated}
    case PodSucceeded => new_ in {PodTerminated}
    case PodTerminated => false
  }

  predicate Accepts(pod: PodRecord, status: PodStatus) {
    pod.status.phase == status.phase || ValidStatusPhaseChange(pod.status.phase, status.phase)
  }

  function UpdatePodStatus(pod: PodRecord, status: PodStatus): PodRecord {
    if Accepts(pod, status) then pod.(status := status) else pod
  }

  // ---- the handlers, each on the stored pod ----

  predicate ShouldBeRestarted(pod: PodRecord) {
    pod.status.startFailures <= AllowedStartFailures && pod.policy != Never
  }

  function Aged(units: seq<UnitStatus>): seq<UnitStatus> {
    seq(|units|, i requires 0 <= i < |units| => units[i].(last := units[i].state, state := NoState))
  }

  function Cleaned(s: PodStatus): PodStatus {
    PodStatus(PodWaiting, s.startFailures, "", Aged(s.units), Aged(s.initUnits))
  }

  function Remedied(pod: PodRecord): Life {
    if ShouldBeRestarted(pod) then Live(UpdatePodStatus(pod, Cleaned(pod.status))) else Gone
  }

  function MarkedFailed(s: PodStatus, startFailure: bool): PodStatus {
    s.(phase := PodFailed, startFailures := if startFailure then s.startFailures + 1 else s.startFailures)
  }

  ghost function StatusFrom(pod: PodRecord, r: Reply): PodStatus {
    var u := Updated(pod.policy, pod.status, r);
    if ReplyPhase(pod.policy, r) == PodFailed then MarkedFailed(u, ReplyFailsToStart(pod.policy, r)) else u
  }

  /** The reply comes from a node that the pod has left since. */
  predicate Outdated(pod: PodRecord, r: Reply) {
    r.podIP != "" && r.podIP != pod.status.podIP
  }

  ghost predicate Applies(pod: PodRecord, r: Reply) {
    !Outdated(pod, r) && Changes(pod.policy, pod.status, r)
  }

  ghost function Handled(pod: PodRecord, r: Reply): PodRecord {
    if Applies(pod, r) then UpdatePodStatus(pod, StatusFrom(pod, r)) else pod
  }

  /** handlePodStatusReply: it marks the pod failed exactly if the reply is from the pod's present
    * node, changes the pod and fails it. */
  method HandlePodStatusReply(pod: PodRecord, reply: Reply) returns (r: PodRecord, marked: bool)
    ensures r == Handled(pod, reply)
    ensures marked <==> Applies(pod, reply) && ReplyPhase(pod.policy, reply) == PodFailed
  {
    hide Changes, ReplyPhase, ReplyFailsToStart, Resets;
    if reply.podIP != "" && pod.status.podIP != reply.podIP { return pod, false; }
    var copy := new PodCopy(pod.policy, pod.status);
    var changed, startFailure, failMsg := copy.UpdateWithStatus(reply);
    if !changed { return pod, false; }
    if failMsg != "" { return UpdatePodStatus(pod, MarkedFailed(copy.status, startFailure)), true; }
    return UpdatePodStatus(pod, copy.status), false;
  }

  function Controlled(pod: PodRecord): Life {
    if pod.wanted == pod.status.phase then Live(pod)
    else match pod.wanted
      case PodRunning =>
        if pod.status.phase == PodFailed then Remedied(pod) else if pod.status.phase == PodSucceeded then Gone
          else Live(pod)
      case PodTerminated => Gone
      case _ => Live(pod)
  }

  predicate Terminal(phase: PodPhase) {
    phase in {PodSucceeded, PodFailed, PodTerminated}
  }

  /** Replies may be late or wrong; the controller may fail a pod, control it, send it to a node,
    * and set it running, and users may change its spec and delete it, whenever they like. */
  datatype Event =
    | Arrives(reply: Reply)
    | Fails(startFailure: bool)
    | Controls
    | Dispatches(podIP: string)
    | Runs(units: seq<UnitStatus>, initUnits: seq<UnitStatus>)
    | Respecs(wanted: PodPhase)
    | Deletes

  ghost function Next(pod: PodRecord, e: Event): Life {
    match e
    case Arrives(r) => Live(Handled(pod, r))
    case Fails(startFailure) => Live(UpdatePodStatus(pod, MarkedFailed(pod.status, startFailure)))
    case Controls => Controlled(pod)
    case Dispatches(podIP) => Live(UpdatePodStatus(pod, pod.status.(phase := PodDispatching, podIP := podIP)))
    case Runs(units, initUnits) =>
      Live(UpdatePodStatus(pod, pod.status.(phase := PodRunning, units := units, initUnits := initUnits)))
    case Respecs(wanted) => Live(if Terminal(pod.wanted) then pod else pod.(wanted := wanted))
    case Deletes =>
      if Terminal(pod.wanted) && Terminal(pod.status.phase) then Gone else Live(pod.(wanted := PodTerminated))
  }

  // ---- what Kubernetes is told ----

  datatype K8sPhase = K8sPending | K8sRunning | K8sSucceeded | K8sFailed

  ghost predicate InitComplete(units: seq<UnitStatus>) {
    forall u :: u in units ==> u.state.exitCode == Some(0)
  }

  ghost function Reported(pod: PodRecord): K8sPhase {
    match pod.status.phase
    case PodWaiting => K8sPending
    case PodDispatching => K8sPending
    case PodRunning => if InitComplete(pod.status.initUnits) then K8sRunning else K8sPending
    case PodSucceeded => K8sSucceeded
    case PodFailed => if ShouldBeRestarted(pod) then K8sPending else K8sFailed
    case PodTerminated => K8sFailed
  }

  /** When each phase is reported, on the fields of the pod. */
  ghost predicate ReportMeans(pod: PodRecord, phase: K8sPhase) {
    var s := pod.status;
    && (phase == K8sSucceeded <==> s.phase == PodSucceeded)
    && (phase == K8sFailed <==>
        s.phase == PodTerminated || (s.phase == PodFailed && (pod.policy == Never || s.startFailures > 2)))
    && (phase == K8sRunning <==>
        s.phase == PodRunning && forall i :: 0 <= i < |s.initUnits| ==> s.initUnits[i].state.exitCode == Some(0))
  }

  lemma ReportedMeans(pod: PodRecord)
    ensures ReportMeans(pod, Reported(pod))
  {
    var units := pod.status.initUnits;
    assert InitComplete(units) <==> forall i :: 0 <= i < |units| ==> units[i].state.exitCode == Some(0);
  }

  method GetStatusPhase(pod: PodRecord) returns (phase: K8sPhase)
    ensures phase == Reported(pod) && ReportMeans(pod, phase)
  {
    hide ReportMeans;
    ReportedMeans(pod);
    var initComplete := true;
    for i := 0 to |pod.status.initUnits|
      invariant initComplete == InitComplete(pod.status.initUnits[..i])
    {
      var u := pod.status.initUnits[i];
      assert pod.status.initUnits[..i + 1] == pod.status.initUnits[..i] + [u];
      assert u in pod.status.initUnits[..i + 1];
      if u.state.exitCode.None? || u.state.exitCode.value != 0 { initComplete := false; }
    }
    assert pod.status.initUnits[..|pod.status.initUnits|] == pod.status.initUnits;
    match pod.status.phase {
      case PodWaiting => phase := K8sPending;
      case PodDispatching => phase := K8sPending;
      case PodRunning => phase := K8sRunning;
      case PodSucceeded => phase := K8sSucceeded;
      case PodFailed => phase := if ShouldBeRestarted(pod) then K8sPending else K8sFailed;
      case PodTerminated => phase := K8sFailed;
    }
    if phase == K8sRunning && !initComplete { phase := K8sPending; }
  }

  // ---- what a reply makes of a running pod ----

  ghost predicate HasStartFailure(units: seq<UnitStatus>) {
    exists i :: 0 <= i < |units| && units[i].state.waiting.Some? && units[i].state.waiting.value.startFailure
  }

  ghost predicate NoneWaits(units: seq<UnitStatus>) {
    forall i :: 0 <= i < |units| ==> units[i].state.waiting.None?
  }

  ghost predicate BadReply(pod: PodRecord, r: Reply) {
    EndedBadly(pod.policy, r.initUnits) || EndedBadly(pod.policy, r.units)
  }

  /** The phase that a reply gives, on its units; an init unit can only fail the pod. */
  lemma ReplyPhaseMeans(policy: RestartPolicy, r: Reply)
    ensures var bad := EndedBadly(policy, r.initUnits) || EndedBadly(policy, r.units);
      ReplyPhase(policy, r) ==
        if bad then PodFailed else if EndedWell(policy, r.units) then PodSucceeded else PodRunning
  {
    hide PhaseOf, EndedWell;
    PhaseMeans(policy, r.units);
    PhaseMeans(InitPolicy(policy), r.initUnits);
  }

  lemma StartMeans(policy: RestartPolicy, s: PodStatus, r: Reply)
    ensures ReplyFailsToStart(policy, r) <==> HasStartFailure(r.units) || HasStartFailure(r.initUnits)
    ensures Resets(s, r) <==> s.startFailures > 0 && r.units != [] && NoneWaits(r.units) && NoneWaits(r.initUnits)
  {
    hide ReplyPhase, Some_, EndedWell;
    ReplyPhaseMeans(policy, r);
    SomeUnit(r.units);
    SomeUnit(r.initUnits);
    assert forall u :: u in r.units ==> exists i :: 0 <= i < |r.units| && r.units[i] == u;
    assert forall u :: u in r.initUnits ==> exists i :: 0 <= i < |r.initUnits| && r.initUnits[i] == u;
  }

  /** A reply from the node of a running pod fails it, completes it or leaves it running as its
    * units say; the pod takes the units over and counts failures to start. */
  lemma ReplyDecides(pod: PodRecord, r: Reply)
    requires pod.status.phase == PodRunning && (r.podIP == "" || r.podIP == pod.status.podIP)
    ensures
      var after := Handled(pod, r);
      && after.policy == pod.policy && after.wanted == pod.wanted && after.status.podIP == pod.status.podIP
      && after.status.units == r.units && after.status.initUnits == r.initUnits
      && (after.status.phase == PodFailed <==> BadReply(pod, r))
      && (after.status.phase == PodSucceeded <==> !BadReply(pod, r) && EndedWell(pod.policy, r.units))
      && (after.status.phase == PodRunning <==> !BadReply(pod, r) && !EndedWell(pod.policy, r.units))
    ensures
      Handled(pod, r).status.startFailures ==
        if HasStartFailure(r.units) || HasStartFailure(r.initUnits) then pod.status.startFailures + 1
        else if pod.status.startFailures > 0 && r.units != [] && NoneWaits(r.units) && NoneWaits(r.initUnits) then 0
        else pod.status.startFailures
  {
    hide ReplyPhase, ReplyFailsToStart, Resets, EndedWell, EndedBadly, HasStartFailure, NoneWaits;
    ReplyPhaseMeans(pod.policy, r);
    StartMeans(pod.policy, pod.status, r);
    ResetExcludesStartFailure(pod.policy, pod.status, r);
    StartFailureIsBad(pod, r);
  }

  lemma StartFailureIsBad(pod: PodRecord, r: Reply)
    ensures HasStartFailure(r.units) || HasStartFailure(r.initUnits) ==> BadReply(pod, r)
    ensures BadReply(pod, r) && pod.policy != Never ==> HasStartFailure(r.units) || HasStartFailure(r.initUnits)
  {}

  /** A reply from an address that is not the pod's is dropped. */
  lemma OutdatedIsDropped(pod: PodRecord, r: Reply)
    requires r.podIP != "" && r.podIP != pod.status.podIP
    ensures Handled(pod, r) == pod
  {}

  /** What Kubernetes is told after such a reply. */
  lemma ReplyReports(pod: PodRecord, r: Reply)
    requires pod.status.phase == PodRunning && (r.podIP == "" || r.podIP == pod.status.podIP)
    ensures
      var told := Reported(Handled(pod, r));
      && (told == K8sFailed <==> BadReply(pod, r) && (pod.policy == Never || pod.status.startFailures >= 2))
      && (told == K8sSucceeded <==> !BadReply(pod, r) && EndedWell(pod.policy, r.units))
      && (told == K8sRunning <==>
          && !BadReply(pod, r) && !EndedWell(pod.policy, r.units)
          && forall i :: 0 <= i < |r.initUnits| ==> r.initUnits[i].state.exitCode == Some(0))
  {
    hide Handled, BadReply, EndedWell, Reported, HasStartFailure, NoneWaits;
    ReplyDecides(pod, r);
    ReportedMeans(Handled(pod, r));
    StartFailureIsBad(pod, r);
  }

  // ---- the reported terminal phases are final ----

  predicate Final(p: K8sPhase) {
    p == K8sSucceeded || p == K8sFailed
  }

  lemma FinalStep(pod: PodRecord, e: Event)
    requires Final(Reported(pod)) && Next(pod, e).Live?
    ensures Reported(Next(pod, e).pod) == Reported(pod) && Next(pod, e).pod.policy == pod.policy
  {}

  /** Whatever the event, the stored phase stays or moves along the table. */
  lemma PhaseFollowsTable(pod: PodRecord, e: Event)
    requires Next(pod, e).Live?
    ensures var to := Next(pod, e).pod.status.phase;
      to == pod.status.phase || ValidStatusPhaseChange(pod.status.phase, to)
  {}

  ghost predicate Follows(before: Life, e: Event, after: Life) {
    if before.Gone? then after.Gone? else after == Next(before.pod, e)
  }

  /** How far a pod has come; Terminated is outside the order. */
  function Stage(phase: PodPhase): nat {
    match phase
    case PodWaiting => 0
    case PodDispatching => 1
    case PodRunning => 2
    case PodFailed => 3
    case PodSucceeded => 3
    case PodTerminated => 5
  }

  /** A pod advances one stage at a time, may fail while it is dispatched, starts over after a failure,
    * and is terminated from everywhere. */
  lemma TableMeans(from: PodPhase, to: PodPhase)
    ensures ValidStatusPhaseChange(from, to) <==>
      || (to == PodTerminated && from != PodTerminated)
      || Stage(to) == Stage(from) + 1
      || (from == PodDispatching && to == PodFailed)
      || (from == PodFailed && to == PodWaiting)
  {}

  ghost predicate IsRun(run: seq<Life>, events: seq<Event>) {
    |run| == |events| + 1 && forall k :: 0 <= k < |events| ==> Follows(run[k], events[k], run[k + 1])
  }

  /** Once Failed or Succeeded is reported, it is reported until the pod is deleted. */
  lemma {:induction false} FinalForever(run: seq<Life>, events: seq<Event>, i: nat, j: nat)
    requires IsRun(run, events) && i <= j < |run| && run[i].Live? && Final(Reported(run[i].pod))
    ensures run[j].Live? ==> Reported(run[j].pod) == Reported(run[i].pod)
  {
    hide Next, Reported;
    if i < j {
      FinalForever(run, events, i, j - 1);
      assert Follows(run[j - 1], events[j - 1], run[j - 1 + 1]);
      if run[j].Live? { FinalStep(run[j - 1].pod, events[j - 1]); }
    }
  }

  // ---- what happens to a pod that nothing disturbs ----

  /** A waiting pod is dispatched and runs until the reply about its units. */
  ghost function Course(pod: PodRecord, podIP: string, units: seq<UnitStatus>, initUnits: seq<UnitStatus>, r: Reply)
    : (run: seq<Life>)
    requires pod.status.phase == PodWaiting
    ensures |run| == 5 && IsRun(run, [Dispatches(podIP), Runs(units, initUnits), Arrives(r), Controls])
    ensures run[0] == Live(pod) && forall k :: 0 <= k < 4 ==> run[k].Live?
  {
    hide Handled, Controlled;
    var sent := Next(pod, Dispatches(podIP));
    var runs := Next(sent.pod, Runs(units, initUnits));
    var told := Next(runs.pod, Arrives(r));
    [Live(pod), sent, runs, told, Next(told.pod, Controls)]
  }

  predicate HasPhase(l: Life, phase: PodPhase) {
    l.Live? && l.pod.status.phase == phase
  }

  /** It succeeds and goes, if its units end well. */
  lemma RunsToSuccess(
    pod: PodRecord, podIP: string, units: seq<UnitStatus>, initUnits: seq<UnitStatus>, r: Reply)
    requires pod.status.phase == PodWaiting && pod.wanted == PodRunning && (r.podIP == "" || r.podIP == podIP)
    requires !BadReply(pod, r) && EndedWell(pod.policy, r.units)
    ensures var run := Course(pod, podIP, units, initUnits, r);
      && HasPhase(run[1], PodDispatching) && HasPhase(run[2], PodRunning) && HasPhase(run[3], PodSucceeded)
      && run[4].Gone?
  {
    hide EndedWell, EndedBadly, Handled;
    var run := Course(pod, podIP, units, initUnits, r);
    ReplyDecides(run[2].pod, r);
  }

  predicate StartsOver(old_: UnitStatus, new_: UnitStatus) {
    new_.name == old_.name && new_.last == old_.state && new_.state == UnitState(None, false, None)
  }

  predicate AllStartOver(old_: seq<UnitStatus>, new_: seq<UnitStatus>) {
    |new_| == |old_| && forall i :: 0 <= i < |old_| ==> StartsOver(old_[i], new_[i])
  }

  /** It fails, if they end badly.  A pod that may restart and has failed to start less than twice
    * before then waits again, without an address, and goes otherwise. */
  lemma RunsToFailure(
    pod: PodRecord, podIP: string, units: seq<UnitStatus>, initUnits: seq<UnitStatus>, r: Reply)
    requires pod.status.phase == PodWaiting && pod.wanted == PodRunning && (r.podIP == "" || r.podIP == podIP)
    requires BadReply(pod, r)
    ensures
      var run := Course(pod, podIP, units, initUnits, r);
      && HasPhase(run[1], PodDispatching) && HasPhase(run[2], PodRunning) && HasPhase(run[3], PodFailed)
      && if pod.policy == Never || pod.status.startFailures >= 2 then run[4].Gone?
         else
           && HasPhase(run[4], PodWaiting) && run[4].pod.policy == pod.policy && run[4].pod.wanted == PodRunning
           && run[4].pod.status.startFailures == pod.status.startFailures + 1 && run[4].pod.status.podIP == ""
           && AllStartOver(r.units, run[4].pod.status.units)
           && AllStartOver(r.initUnits, run[4].pod.status.initUnits)
  {
    hide EndedBadly, Handled, HasStartFailure, NoneWaits;
    var run := Course(pod, podIP, units, initUnits, r);
    ReplyDecides(run[2].pod, r);
    StartFailureIsBad(run[2].pod, r);
  }

  // ---- what the other handlers do ----

  /** Failing a pod marks it if it is dispatched, running or failed already; the failures to start are
    * counted. */
  lemma FailsMarks(pod: PodRecord, startFailure: bool)
    ensures
      var s := pod.status;
      Next(pod, Fails(startFailure)) == Live(
        if s.phase in {PodDispatching, PodRunning, PodFailed} then
          pod.(status := PodStatus(PodFailed, s.startFailures + (if startFailure then 1 else 0), s.podIP, s.units,
                                   s.initUnits))
        else pod)
  {}

  /** Controlling a pod removes it exactly if it is to be terminated and is not, or is to run and has
    * succeeded, or has failed and may not restart. */
  lemma ControlsRemoves(pod: PodRecord)
    ensures Next(pod, Controls).Gone? <==>
      || (pod.wanted == PodTerminated && pod.status.phase != PodTerminated)
      || (pod.wanted == PodRunning && pod.status.phase == PodSucceeded)
      || (pod.wanted == PodRunning && pod.status.phase == PodFailed
          && (pod.policy == Never || pod.status.startFailures > 2))
  {}

  /** Deleting a pod removes it if it has ended, is not to run and need not be stopped; otherwise the pod
    * is to be terminated, and goes when it is next controlled. */
  lemma DeletesRemoves(pod: PodRecord)
    ensures
      var ended := {PodSucceeded, PodFailed, PodTerminated};
      var l := Next(pod, Deletes);
      if pod.wanted in ended && pod.status.phase in ended then l.Gone?
      else
        && l == Live(pod.(wanted := PodTerminated))
        && (Next(l.pod, Controls).Gone? <==> pod.status.phase != PodTerminated)
  {}

  lemma WantedStep(pod: PodRecord, e: Event)
    requires pod.wanted == PodTerminated && Next(pod, e).Live?
    ensures Next(pod, e).pod.wanted == PodTerminated
  {}

  /** A deletion is never taken back: the pod stays to be terminated until it goes, and goes when it is
    * controlled in any phase but Terminated. */
  lemma {:induction false} DeletionIsFinal(run: seq<Life>, events: seq<Event>, i: nat, j: nat)
    requires IsRun(run, events) && i <= j < |run| && run[i].Live? && run[i].pod.wanted == PodTerminated
    ensures run[j].Live? ==> run[j].pod.wanted == PodTerminated
    ensures j < |events| && events[j] == Controls && run[j].Live? && run[j].pod.status.phase != PodTerminated ==>
      run[j + 1].Gone?
  {
    if i < j {
      DeletionIsFinal(run, events, i, j - 1);
      assert Follows(run[j - 1], events[j - 1], run[j - 1 + 1]);
      hide Next;
      if run[j].Live? { WantedStep(run[j - 1].pod, events[j - 1]); }
    }
    if j < |events| {
      assert Follows(run[j], events[j], run[j + 1]);
      if run[j].Live? { ControlsRemoves(run[j].pod); }
    }
  }

  /** A write of a copy read earlier is not such a handler.  It undoes a reported Failed or Succeeded
    * exactly if the pod is stored as Failed and the copy says Waiting, or says Failed with a count
    * that allows a restart; or if the pod is stored as Succeeded and the copy says Terminated. */
  lemma StaleWritesRevive(pod: PodRecord, stale: PodStatus)
    requires Final(Reported(pod))
    ensures Reported(UpdatePodStatus(pod, stale)) != Reported(pod) <==>
      || (pod.status.phase == PodFailed && stale.phase == PodWaiting)
      || (pod.status.phase == PodFailed && stale.phase == PodFailed && ShouldBeRestarted(pod.(status := stale)))
      || (pod.status.phase == PodSucceeded && stale.phase == PodTerminated)
  {}

  /** The controller can make such a write: it lists a pod that failed to start twice, a third failure
    * is counted, and the remedy that the old copy calls for makes a pod reported Failed Pending again. */
  lemma OldRemedyRevives(copy: PodRecord)
    requires copy.wanted == PodRunning && copy.policy != Never
    requires copy.status.phase == PodFailed && copy.status.startFailures == AllowedStartFailures
    ensures var now := Next(copy, Fails(true)).pod;
      && Reported(now) == K8sFailed
      && Next(copy, Controls) == Live(UpdatePodStatus(copy, Cleaned(copy.status)))
      && Reported(UpdatePodStatus(now, Cleaned(copy.status))) == K8sPending
  {}

  // ---- bounded retries ----

  /** `restarts` counts the restarts since the last reset that followed a failure to start;
    * `pending` says that the pod has failed to start and was not restarted yet. */
  datatype History = History(restarts: nat, pending: bool)

  ghost predicate IsReset(pod: PodRecord, e: Event) {
    && e.Arrives? && Applies(pod, e.reply) && Resets(pod.status, e.reply)
    && Accepts(pod, StatusFrom(pod, e.reply))
  }

  ghost predicate IsStartFailure(pod: PodRecord, e: Event) {
    match e
    case Arrives(r) => Applies(pod, r) && ReplyFailsToStart(pod.policy, r) && Accepts(pod, StatusFrom(pod, r))
    case Fails(startFailure) => startFailure && Accepts(pod, MarkedFailed(pod.status, true))
    case _ => false
  }

  ghost predicate IsRestart(pod: PodRecord, e: Event) {
    e.Controls? && pod.status.phase == PodFailed && Next(pod, e).Live? && Next(pod, e).pod.status.phase == PodWaiting
  }

  ghost function Remember(h: History, pod: PodRecord, e: Event): History {
    if IsReset(pod, e) then History(0, false)
    else if IsStartFailure(pod, e) then h.(pending := true)
    else if IsRestart(pod, e) then History(if h.pending then h.restarts + 1 else h.restarts, false)
    else h
  }

  ghost predicate Counted(h: History, pod: PodRecord) {
    && (pod.policy == Never ==> h.restarts == 0)
    && (pod.policy != Never ==>
        h.restarts + (if h.pending then 1 else 0) <= pod.status.startFailures && h.restarts <= AllowedStartFailures)
    && (h.pending ==> pod.status.phase == PodFailed)
  }

  lemma CountedStep(h: History, pod: PodRecord, e: Event)
    requires Counted(h, pod) && Next(pod, e).Live?
    ensures Counted(Remember(h, pod, e), Next(pod, e).pod)
  {}

  /** The run, with its history. */
  ghost function HistoryAt(run: seq<Life>, events: seq<Event>, k: nat): History
    requires |run| == |events| + 1 && k < |run|
  {
    if k == 0 then History(0, false)
    else
      var h := HistoryAt(run, events, k - 1);
      if run[k - 1].Live? then Remember(h, run[k - 1].pod, events[k - 1]) else h
  }

  /** Between two resets a pod is restarted after a failure to start at most twice. */
  lemma {:induction false} BoundedRetries(run: seq<Life>, events: seq<Event>, k: nat)
    requires IsRun(run, events) && k < |run| && run[k].Live?
    requires run[0].Live? && run[0].pod.status.startFailures >= 0
    ensures Counted(HistoryAt(run, events, k), run[k].pod)
    ensures HistoryAt(run, events, k).restarts <= AllowedStartFailures
  {
    hide Next, Remember;
    if k > 0 {
      assert Follows(run[k - 1], events[k - 1], run[k - 1 + 1]);
      BoundedRetries(run, events, k - 1);
      CountedStep(HistoryAt(run, events, k - 1), run[k - 1].pod, events[k - 1]);
    }
  }

  /** A pod that failed to start again, after as many restarts as are allowed, is deleted when it is
    * next controlled. */
  lemma TooManyFailures(run: seq<Life>, events: seq<Event>, k: nat)
    requires IsRun(run, events) && k < |events| && run[0].Live? && run[0].pod.status.startFailures >= 0
    requires run[k].Live? && run[k].pod.wanted == PodRunning && events[k] == Controls
    requires HistoryAt(run, events, k) == History(AllowedStartFailures, true)
    ensures run[k + 1].Gone?
  {
    BoundedRetries(run, events, k);
    assert Follows(run[k], events[k], run[k + 1]);
  }
}

/** From unit statuses to the phase of the pod (pkg/server/pod_controller_utils.go). */
module PodPhases {
  import opened Wrappers
  import opened ApiTypes
  import opened Decimals

  datatype RestartPolicy = Always | OnFailure | Never | OtherPolicy(policy: string)

  datatype Waiting = Waiting(startFailure: bool, reason: string)

  /** Any combination of the three parts may be set, as in the API type. */
  datatype UnitState = UnitState(waiting: Option<Waiting>, running: bool, exitCode: Option<int>)

  datatype UnitStatus = UnitStatus(name: string, state: UnitState, last: UnitState)

  const NoState := UnitState(None, false, None)

  predicate FailedToStart(u: UnitStatus) {
    u.state.waiting.Some? && u.state.waiting.value.startFailure
  }

  predicate Busy(u: UnitStatus) {
    u.state.waiting.Some? || u.state.running
  }

  predicate ExitedBadly(u: UnitStatus) {
    u.state.exitCode.Some? && u.state.exitCode.value != 0
  }

  ghost predicate Some_(units: seq<UnitStatus>, p: UnitStatus -> bool) {
    exists u :: u in units && p(u)
  }

  /** What the phase of a pod with these units is, whatever their order. */
  ghost function PhaseOf(policy: RestartPolicy, units: seq<UnitStatus>): PodPhase {
    if units == [] then PodRunning
    else if Some_(units, FailedToStart) then PodFailed
    else match policy
      case Always => PodRunning
      case Never => if Some_(units, Busy) then PodRunning else if Some_(units, ExitedBadly) then PodFailed
        else PodSucceeded
      case OnFailure => if Some_(units, Busy) || Some_(units, ExitedBadly) then PodRunning else PodSucceeded
      case OtherPolicy(_) => PodRunning
  }

  /** Permuting the units does not change the phase. */
  lemma PhaseIgnoresOrder(policy: RestartPolicy, a: seq<UnitStatus>, b: seq<UnitStatus>)
    requires multiset(a) == multiset(b)
    ensures PhaseOf(policy, a) == PhaseOf(policy, b)
  {
    forall u ensures u in a <==> u in b {
      assert u in a <==> u in multiset(a);
      assert u in b <==> u in multiset(b);
    }
    assert a == [] <==> b == [] by { assert |multiset(a)| == |multiset(b)|; }
  }

  /** A restart policy that restarts never lets a pod fail by anything but a failed start. */
  lemma FailsOnlyToStart(policy: RestartPolicy, units: seq<UnitStatus>)
    requires policy != Never
    ensures PhaseOf(policy, units) == PodFailed <==> Some_(units, FailedToStart)
  {}

  // ---- the same on the units themselves ----

  /** Every unit has ended, and none with an error. */
  ghost predicate EndedWell(policy: RestartPolicy, units: seq<UnitStatus>) {
    && (policy == Never || policy == OnFailure) && units != []
    && (forall i :: 0 <= i < |units| ==> units[i].state.waiting.None? && !units[i].state.running)
    && (forall i :: 0 <= i < |units| ==> units[i].state.exitCode.None? || units[i].state.exitCode.value == 0)
  }

  /** A unit failed to start; or all units ended for good, and one of them with an error. */
  ghost predicate EndedBadly(policy: RestartPolicy, units: seq<UnitStatus>) {
    || (exists i :: 0 <= i < |units| && units[i].state.waiting.Some? && units[i].state.waiting.value.startFailure)
    || (&& policy == Never
        && (forall i :: 0 <= i < |units| ==> units[i].state.waiting.None? && !units[i].state.running)
        && exists i :: 0 <= i < |units| && units[i].state.exitCode.Some? && units[i].state.exitCode.value != 0)
  }

  lemma SomeUnit(units: seq<UnitStatus>)
    ensures Some_(units, FailedToStart) <==>
      exists i :: 0 <= i < |units| && units[i].state.waiting.Some? && units[i].state.waiting.value.startFailure
    ensures Some_(units, Busy) <==>
      exists i :: 0 <= i < |units| && (units[i].state.waiting.Some? || units[i].state.running)
    ensures Some_(units, ExitedBadly) <==>
      exists i :: 0 <= i < |units| && units[i].state.exitCode.Some? && units[i].state.exitCode.value != 0
  {
    forall i | 0 <= i < |units|
      ensures (FailedToStart(units[i]) ==> Some_(units, FailedToStart)) && (Busy(units[i]) ==> Some_(units, Busy))
      ensures ExitedBadly(units[i]) ==> Some_(units, ExitedBadly)
    {
      assert units[i] in units;
    }
  }

  lemma PhaseMeans(policy: RestartPolicy, units: seq<UnitStatus>)
    ensures PhaseOf(policy, units) == PodSucceeded <==> EndedWell(policy, units)
    ensures PhaseOf(policy, units) == PodFailed <==> EndedBadly(policy, units)
    ensures PhaseOf(policy, units) == PodRunning <==> !EndedWell(policy, units) && !EndedBadly(policy, units)
  {
    hide Some_;
    SomeUnit(units);
  }

  function StartMessage(u: UnitStatus): string
    requires FailedToStart(u)
  {
    "Start failure for unit " + u.name + ": " + u.state.waiting.value.reason
  }

  function ExitMessage(u: UnitStatus): string
    requires ExitedBadly(u)
  {
    "Unit " + u.name + " terminated with non-zero exit code " + Decimal(u.state.exitCode.value)
  }

  /** The message tells what is wrong with the unit. */
  predicate Blames(msg: string, u: UnitStatus) {
    (FailedToStart(u) && msg == StartMessage(u)) || (ExitedBadly(u) && msg == ExitMessage(u))
  }

  method ComputePodPhase(policy: RestartPolicy, units: seq<UnitStatus>) returns (phase: PodPhase, failMsg: string)
    ensures phase == PhaseOf(policy, units)
    ensures failMsg != "" <==> phase == PodFailed
    ensures phase == PodSucceeded <==> EndedWell(policy, units)
    ensures phase == PodFailed <==> EndedBadly(policy, units)
    ensures phase == PodRunning <==> !EndedWell(policy, units) && !EndedBadly(policy, units)
    ensures phase == PodFailed ==> exists u :: u in units && Blames(failMsg, u)
  {
    hide EndedWell, EndedBadly;
    PhaseMeans(policy, units);
    phase, failMsg := PodRunning, "";
    if |units| == 0 { return; }
    for i := 0 to |units|
      invariant forall j :: 0 <= j < i ==> !FailedToStart(units[j])
    {
      if units[i].state.waiting.Some? && units[i].state.waiting.value.startFailure {
        assert FailedToStart(units[i]);
        failMsg := StartMessage(units[i]);
        assert Blames(failMsg, units[i]);
        return PodFailed, failMsg;
      }
    }
    match policy
    case Always =>
      phase := PodRunning;
    case Never =>
      phase := PodSucceeded;
      for i := 0 to |units|
        invariant forall j :: 0 <= j < i ==> !Busy(units[j])
        invariant phase == if exists j :: 0 <= j < i && ExitedBadly(units[j]) then PodFailed else PodSucceeded
        invariant failMsg != "" <==> phase == PodFailed
        invariant phase == PodFailed ==> exists u :: u in units && Blames(failMsg, u)
      {
        if units[i].state.waiting.Some? || units[i].state.running {
          assert Busy(units[i]);
          return PodRunning, "";
        }
        if units[i].state.exitCode.Some? && units[i].state.exitCode.value != 0 {
          assert ExitedBadly(units[i]);
          failMsg := ExitMessage(units[i]);
          assert Blames(failMsg, units[i]);
          phase := PodFailed;
        }
      }
    case OnFailure =>
      phase := PodSucceeded;
      for i := 0 to |units|
        invariant forall j :: 0 <= j < i ==> !Busy(units[j]) && !ExitedBadly(units[j])
      {
        if units[i].state.running || units[i].state.waiting.Some?
          || (units[i].state.exitCode.Some? && units[i].state.exitCode.value != 0) {
          assert Busy(units[i]) || ExitedBadly(units[i]);
          return PodRunning, "";
        }
      }
    case OtherPolicy(_) =>
  }

  method WasStartFailure(units: seq<UnitStatus>) returns (r: bool)
    ensures r == Some_(units, FailedToStart)
  {
    for i := 0 to |units|
      invariant forall j :: 0 <= j < i ==> !FailedToStart(units[j])
    {
      if units[i].state.waiting.Some? && units[i].state.waiting.value.startFailure {
        assert FailedToStart(units[i]);
        return true;
      }
    }
    return false;
  }

  ghost predicate AllStarted(units: seq<UnitStatus>) {
    units != [] && forall u :: u in units ==> u.state.waiting.None?
  }

  method AllUnitsStarted(units: seq<UnitStatus>) returns (r: bool)
    ensures r == AllStarted(units)
  {
    if |units| == 0 { return false; }
    for i := 0 to |units|
      invariant forall j :: 0 <= j < i ==> units[j].state.waiting.None?
    {
      if units[i].state.waiting.Some? { return false; }
    }
    return true;
  }

  // ---- applying a status reply ----

  /** What a node reports of the pod on it; the address is empty if the node does not know it. */
  datatype Reply = Reply(podIP: string, units: seq<UnitStatus>, initUnits: seq<UnitStatus>)

  /** `podIP` is the private address in Status.Addresses, empty if there is none. */
  datatype PodStatus = PodStatus(
    phase: PodPhase, startFailures: int, podIP: string, units: seq<UnitStatus>, initUnits: seq<UnitStatus>)

  function InitPolicy(policy: RestartPolicy): RestartPolicy {
    if policy == Always then OnFailure else policy
  }

  /** The phase that a reply implies for the pod. */
  ghost function ReplyPhase(policy: RestartPolicy, r: Reply): PodPhase {
    if PhaseOf(InitPolicy(policy), r.initUnits) == PodFailed then PodFailed else PhaseOf(policy, r.units)
  }

  ghost predicate ReplyFailsToStart(policy: RestartPolicy, r: Reply) {
    ReplyPhase(policy, r) == PodFailed && (Some_(r.units, FailedToStart) || Some_(r.initUnits, FailedToStart))
  }

  /** All units have left the waiting state, so earlier start failures are forgiven. */
  ghost predicate Resets(s: PodStatus, r: Reply) {
    s.startFailures > 0 && AllStarted(r.units) && (r.initUnits == [] || AllStarted(r.initUnits))
  }

  ghost predicate Changes(policy: RestartPolicy, s: PodStatus, r: Reply) {
    ReplyPhase(policy, r) != s.phase || r.units != s.units || r.initUnits != s.initUnits || Resets(s, r)
  }

  ghost function Updated(policy: RestartPolicy, s: PodStatus, r: Reply): PodStatus {
    s.(phase := ReplyPhase(policy, r), startFailures := if Resets(s, r) then 0 else s.startFailures,
       units := r.units, initUnits := r.initUnits)
  }

  /** A reply never both forgives and reports a failure to start. */
  lemma ResetExcludesStartFailure(policy: RestartPolicy, s: PodStatus, r: Reply)
    ensures !(Resets(s, r) && ReplyFailsToStart(policy, r))
  {}

  /** A pod that may be restarted is not forgiven by a reply that fails it. */
  lemma FailureKeepsCount(policy: RestartPolicy, s: PodStatus, r: Reply)
    requires policy != Never && ReplyPhase(policy, r) == PodFailed
    ensures !Resets(s, r) && ReplyFailsToStart(policy, r)
  {}

  method ReadReply(policy: RestartPolicy, reply: Reply)
    returns (podPhase: PodPhase, startFailure: bool, failMsg: string)
    ensures podPhase == ReplyPhase(policy, reply) && startFailure == ReplyFailsToStart(policy, reply)
    ensures failMsg != "" <==> podPhase == PodFailed
  {
    hide PhaseOf, Some_;
    var unitFailMsg, initPodPhase, initUnitFailMsg;
    podPhase, unitFailMsg := ComputePodPhase(policy, reply.units);
    var initPolicy := if policy == Always then OnFailure else policy;
    initPodPhase, initUnitFailMsg := ComputePodPhase(initPolicy, reply.initUnits);
    failMsg := initUnitFailMsg + unitFailMsg;
    if initPodPhase == PodFailed { podPhase := PodFailed; }
    startFailure := false;
    if podPhase == PodFailed {
      startFailure := WasStartFailure(reply.units);
      if !startFailure { startFailure := WasStartFailure(reply.initUnits); }
    }
  }

  method ShouldReset(status: PodStatus, reply: Reply) returns (reset: bool)
    ensures reset == Resets(status, reply)
  {
    hide AllStarted;
    reset := false;
    if status.startFailures > 0 {
      var unitsStarted := AllUnitsStarted(reply.units);
      if unitsStarted {
        var initStarted := AllUnitsStarted(reply.initUnits);
        reset := |reply.initUnits| == 0 || initStarted;
      }
    }
  }

  /** A controller's own copy of a pod. */
  class PodCopy {
    const policy: RestartPolicy
    var status: PodStatus

    constructor (policy: RestartPolicy, status: PodStatus)
      ensures this.policy == policy && this.status == status
    {
      this.policy, this.status := policy, status;
    }

    method UpdateWithStatus(reply: Reply) returns (changed: bool, startFailure: bool, failMsg: string)
      modifies this
      ensures changed == Changes(policy, old(status), reply)
      ensures status == if changed then Updated(policy, old(status), reply) else old(status)
      ensures startFailure <==> changed && ReplyFailsToStart(policy, reply)
      ensures failMsg != "" <==> changed && ReplyPhase(policy, reply) == PodFailed
    {
      hide ReplyPhase, ReplyFailsToStart, Resets;
      var podPhase;
      podPhase, startFailure, failMsg := ReadReply(policy, reply);
      var reset := ShouldReset(status, reply);
      var same := status.units == reply.units && status.initUnits == reply.initUnits;
      if podPhase == status.phase && same && !reset { return false, false, ""; }
      if !same { status := status.(units := reply.units, initUnits := reply.initUnits); }
      if reset { status := status.(startFailures := 0); }
      if podPhase != status.phase {
        status := status.(phase := podPhase);
        if podPhase == PodFailed { failMsg := "Failure: " + failMsg; }
      }
      return true, startFailure, failMsg;
    }
  }
}

/** The health-check clock (pkg/server/healthcheck), with the cloud API as the checker. */
module HealthCheck {
  import opened Wrappers

  const Second: int := 1_000_000_000

  /** A pod with status Running.  `timeout` is its healthy-timeout annotation, if it has one that
    * is a number. */
  datatype RunningPod = RunningPod(name: string, instanceID: string, timeout: Option<real>)

  /** Conversion of a floating point number to an integer drops the fraction. */
  function Truncated(x: real): int {
    if x >= 0.0 then x.Floor else -(-x).Floor
  }

  function Timeout(unhealthyTimeout: int, pod: RunningPod): int {
    match pod.timeout
    case Some(seconds) => Truncated(seconds) * Second
    case None => unhealthyTimeout
  }

  /** An annotation below one second switches the check off. */
  lemma ShortTimeoutsDisable(unhealthyTimeout: int, pod: RunningPod)
    requires pod.timeout.Some?
    ensures Timeout(unhealthyTimeout, pod) <= 0 <==> pod.timeout.value < 1.0
  {}

  /** An annotation means its whole seconds, in nanoseconds; without one the default holds. */
  lemma TimeoutMeans(unhealthyTimeout: int, pod: RunningPod, n: nat)
    ensures pod.timeout.None? ==> Timeout(unhealthyTimeout, pod) == unhealthyTimeout
    ensures pod.timeout.Some? && n as real <= pod.timeout.value < (n + 1) as real ==>
      Timeout(unhealthyTimeout, pod) == n * 1_000_000_000
  {}

  /** The cloud listed the instance of a pod that was Running, at some time. */
  datatype Showing = Showing(pod: string, time: int)

  /** No recorded time is older than a showing of the pod, and nothing lies in the future. */
  ghost predicate Consistent(last: map<string, int>, showings: set<Showing>, now: int) {
    && (forall p :: p in last ==> last[p] <= now)
    && (forall s :: s in showings ==> s.time <= now && (s.pod in last ==> s.time <= last[s.pod]))
  }

  predicate IsShown(instances: set<string>, pod: RunningPod) {
    pod.instanceID != "" && pod.instanceID in instances
  }

  /** The clock is restarted for the pods whose instance is listed. */
  function Restarted(last: map<string, int>, instances: set<string>, pods: seq<RunningPod>,
                     now: int): map<string, int> {
    if pods == [] then last else
      var pod := pods[|pods| - 1];
      var r := Restarted(last, instances, pods[..|pods| - 1], now);
      if IsShown(instances, pod) then r[pod.name := now] else r
  }

  function Shown(instances: set<string>, pods: seq<RunningPod>, now: int): set<Showing> {
    if pods == [] then {} else
      var pod := pods[|pods| - 1];
      var r := Shown(instances, pods[..|pods| - 1], now);
      if IsShown(instances, pod) then r + {Showing(pod.name, now)} else r
  }

  /** Exactly the shown pods are recorded with the time of the listing; the others keep theirs. */
  lemma {:induction false} RestartedAt(last: map<string, int>, instances: set<string>, pods: seq<RunningPod>, now: int,
                                       p: string)
    ensures var shown := exists q :: q in pods && IsShown(instances, q) && q.name == p;
      var r := Restarted(last, instances, pods, now);
      && (Showing(p, now) in Shown(instances, pods, now) <==> shown)
      && (p in r <==> p in last || shown) && (p in r ==> r[p] == if shown then now else last[p])
  {
    if pods != [] {
      var init, pod := pods[..|pods| - 1], pods[|pods| - 1];
      assert pods == init + [pod];
      RestartedAt(last, instances, init, now, p);
      hide IsShown;
      if q :| q in init && IsShown(instances, q) && q.name == p { assert q in pods; }
    }
  }

  lemma ShownNext(last: map<string, int>, instances: set<string>, pods: seq<RunningPod>, now: int, i: nat)
    requires i < |pods|
    ensures var r, s := Restarted(last, instances, pods[..i], now), Shown(instances, pods[..i], now);
      var name := pods[i].name;
      && Restarted(last, instances, pods[..i + 1], now) == (if IsShown(instances, pods[i]) then r[name := now] else r)
      && Shown(instances, pods[..i + 1], now) == (if IsShown(instances, pods[i]) then s + {Showing(name, now)} else s)
  {
    assert pods[..i + 1][..i] == pods[..i];
  }

  lemma {:induction false} RestartedIsConsistent(last: map<string, int>, showings: set<Showing>, instances: set<string>,
                                                 pods: seq<RunningPod>, now: int)
    requires Consistent(last, showings, now)
    ensures Consistent(Restarted(last, instances, pods, now), showings + Shown(instances, pods, now), now)
  {
    if pods != [] { RestartedIsConsistent(last, showings, instances, pods[..|pods| - 1], now); }
  }

  /** The pod's time is up. */
  predicate Expired(unhealthyTimeout: int, last: map<string, int>, pod: RunningPod, now: int) {
    && pod.name in last && Timeout(unhealthyTimeout, pod) > 0
    && now - last[pod.name] >= Timeout(unhealthyTimeout, pod)
  }

  /** The clock is started for the listed pods that have no time yet. */
  function Begun(last: map<string, int>, pods: seq<RunningPod>, now: int): map<string, int> {
    if pods == [] then last else
      var pod := pods[|pods| - 1];
      var b := Begun(last, pods[..|pods| - 1], now);
      if pod.name in b then b else b[pod.name := now]
  }

  /** The listed pods have a time: their old one, or now. */
  lemma {:induction false} BegunAt(last: map<string, int>, pods: seq<RunningPod>, now: int, p: string)
    ensures var b := Begun(last, pods, now);
      && (p in b <==> p in last || exists q :: q in pods && q.name == p)
      && (p in b ==> b[p] == if p in last then last[p] else now)
  {
    if pods != [] {
      var init, pod := pods[..|pods| - 1], pods[|pods| - 1];
      assert pods == init + [pod];
      BegunAt(last, init, now, p);
      if q :| q in init && q.name == p { assert q in pods; }
    }
  }

  lemma BegunNext(last: map<string, int>, pods: seq<RunningPod>, now: int, i: nat)
    requires i < |pods|
    ensures var b := Begun(last, pods[..i], now);
      Begun(last, pods[..i + 1], now) == if pods[i].name in b then b else b[pods[i].name := now]
  {
    assert pods[..i + 1][..i] == pods[..i];
  }

  function Kept(last: map<string, int>, running: set<string>): map<string, int> {
    map p | p in last && p in running :: last[p]
  }

  /** What one turn of the control loop reads: the cloud's instances and the running pods at `start`,
    * and the running pods twice more, the first time at `now`.  None stands for a listing that failed. */
  datatype Turn = Turn(
    instances: Option<set<string>>, checked: Option<seq<RunningPod>>, start: int,
    listed: Option<seq<RunningPod>>, now: int, running: Option<set<string>>)
  {
    predicate Ok() {
      instances.Some? && checked.Some?
    }

    function Showings(): set<Showing> {
      if Ok() then Shown(instances.value, checked.value, start) else {}
    }

    /** The times after the listing. */
    function Checked(last: map<string, int>): map<string, int> {
      if Ok() then Restarted(last, instances.value, checked.value, start) else last
    }

    function After(last: map<string, int>): map<string, int> {
      if !Ok() then last else
        var begun := if listed.Some? then Begun(Checked(last), listed.value, now) else Checked(last);
        if running.Some? then Kept(begun, running.value) else begun
    }

    /** The turn fails the pod. */
    predicate Fails(unhealthyTimeout: int, last: map<string, int>, pod: RunningPod) {
      Ok() && listed.Some? && pod in listed.value && Expired(unhealthyTimeout, Checked(last), pod, now)
    }
  }

  class HealthCheckController {
    const unhealthyTimeout: int
    var lastStatusTime: map<string, int>
    ghost var showings: set<Showing>

    constructor (unhealthyTimeout: int)
      ensures Valid(0) && showings == {} && lastStatusTime == map[] && this.unhealthyTimeout == unhealthyTimeout
    {
      this.unhealthyTimeout := unhealthyTimeout;
      lastStatusTime, showings := map[], {};
    }

    ghost predicate Valid(now: int)
      reads this
    {
      Consistent(lastStatusTime, showings, now)
    }

    /** Time passes. */
    lemma Later(before: int, now: int)
      requires Valid(before) && before <= now
      ensures Valid(now)
    {}

    /** checkPods of the cloud API checker.  None stands for a listing that failed. */
    method CheckPods(instances: Option<set<string>>, pods: Option<seq<RunningPod>>, now: int) returns (ok: bool)
      requires Valid(now)
      modifies this
      ensures Valid(now) && ok == (instances.Some? && pods.Some?)
      ensures !ok ==> lastStatusTime == old(lastStatusTime) && showings == old(showings)
      ensures ok ==>
        && lastStatusTime == Restarted(old(lastStatusTime), instances.value, pods.value, now)
        && showings == old(showings) + Shown(instances.value, pods.value, now)
    {
      if instances.None? || pods.None? { return false; }
      hide Consistent, IsShown;
      RestartedIsConsistent(lastStatusTime, showings, instances.value, pods.value, now);
      for i := 0 to |pods.value|
        invariant lastStatusTime == Restarted(old(lastStatusTime), instances.value, pods.value[..i], now)
        invariant showings == old(showings) + Shown(instances.value, pods.value[..i], now)
      {
        ShownNext(old(lastStatusTime), instances.value, pods.value, now, i);
        hide Restarted, Shown;
        var pod := pods.value[i];
        if IsShown(instances.value, pod) {
          lastStatusTime := lastStatusTime[pod.name := now];
          showings := showings + {Showing(pod.name, now)};
        }
      }
      assert pods.value[..|pods.value|] == pods.value;
      return true;
    }

    /** handlePodTimeouts: `failed` are the pods sent to be terminated. */
    method HandlePodTimeouts(pods: Option<seq<RunningPod>>, now: int) returns (failed: seq<RunningPod>)
      requires Valid(now)
      modifies this`lastStatusTime
      ensures Valid(now)
      ensures pods.None? ==> failed == [] && lastStatusTime == old(lastStatusTime)
      ensures pods.Some? ==>
        && lastStatusTime == Begun(old(lastStatusTime), pods.value, now)
        && forall p :: p in failed <==> p in pods.value && Expired(unhealthyTimeout, old(lastStatusTime), p, now)
      ensures forall p, s :: p in failed && s in showings && s.pod == p.name ==>
        s.time <= now - Timeout(unhealthyTimeout, p)
    {
      failed := [];
      if pods.None? { return; }
      for i := 0 to |pods.value|
        invariant lastStatusTime == Begun(old(lastStatusTime), pods.value[..i], now)
        invariant forall p ::
          p in failed <==> p in pods.value[..i] && Expired(unhealthyTimeout, old(lastStatusTime), p, now)
      {
        var pod := pods.value[i];
        assert pods.value[..i + 1] == pods.value[..i] + [pod];
        BegunNext(old(lastStatusTime), pods.value, now, i);
        BegunAt(old(lastStatusTime), pods.value[..i], now, pod.name);
        hide Begun;
        if pod.name !in lastStatusTime {
          lastStatusTime := lastStatusTime[pod.name := now];
        } else {
          var timeout := Timeout(unhealthyTimeout, pod);
          if timeout > 0 && now - lastStatusTime[pod.name] >= timeout {
            failed := failed + [pod];
          }
        }
      }
      assert pods.value[..|pods.value|] == pods.value;
      BegunIsConsistent(old(lastStatusTime), showings, pods.value, now);
    }

    /** cleanupLastStatusTimes: forgets the pods that are not running. */
    method CleanupLastStatusTimes(running: Option<set<string>>, ghost now: int)
      requires Valid(now)
      modifies this`lastStatusTime
      ensures Valid(now)
      ensures lastStatusTime == if running.None? then old(lastStatusTime) else Kept(old(lastStatusTime), running.value)
    {
      if running.None? { return; }
      var todo := lastStatusTime.Keys;
      while todo != {}
        invariant todo <= old(lastStatusTime.Keys)
        invariant lastStatusTime ==
          map p | p in old(lastStatusTime) && (p in todo || p in running.value) :: old(lastStatusTime)[p]
      {
        var name :| name in todo;
        todo := todo - {name};
        if name !in running.value { lastStatusTime := lastStatusTime - {name}; }
      }
    }

    /** The pod controller heard from the pod, or took it off its node. */
    method SetLastStatusTime(name: string, now: int)
      requires Valid(now)
      modifies this`lastStatusTime
      ensures Valid(now) && lastStatusTime == old(lastStatusTime)[name := now]
    {
      lastStatusTime := lastStatusTime[name := now];
    }

    method ClearLastStatusTime(name: string, ghost now: int)
      requires Valid(now)
      modifies this`lastStatusTime
      ensures Valid(now) && lastStatusTime == old(lastStatusTime) - {name}
    {
      lastStatusTime := lastStatusTime - {name};
    }

    /** One turn of the control loop: what it records, whom it fails and which times it leaves. */
    method Round(t: Turn) returns (failed: seq<RunningPod>)
      requires Valid(t.start) && t.start <= t.now
      modifies this
      ensures Valid(t.now)
      ensures showings == old(showings) + t.Showings() && lastStatusTime == t.After(old(lastStatusTime))
      ensures forall p :: p in failed <==> t.Fails(unhealthyTimeout, old(lastStatusTime), p)
      ensures forall p, s :: p in failed && s in showings && s.pod == p.name ==>
        s.time <= t.now - Timeout(unhealthyTimeout, p)
    {
      hide Restarted, Shown, Begun, Kept;
      failed := [];
      var ok := CheckPods(t.instances, t.checked, t.start);
      Later(t.start, t.now);
      if !ok { return; }
      failed := HandlePodTimeouts(t.listed, t.now);
      CleanupLastStatusTimes(t.running, t.now);
    }
  }

  lemma {:induction false} BegunIsConsistent(last: map<string, int>, showings: set<Showing>, pods: seq<RunningPod>,
                                             now: int)
    requires Consistent(last, showings, now)
    ensures Consistent(Begun(last, pods, now), showings, now)
  {
    if pods != [] { BegunIsConsistent(last, showings, pods[..|pods| - 1], now); }
  }

  // ---- whole runs ----

  /** The turns of the control loop, and what the pod controller does between them. */
  datatype Event = Turns(turn: Turn) | Heard(pod: string, time: int) | Cleared(pod: string, time: int)
  {
    function Begins(): int {
      if Turns? then turn.start else time
    }

    function Ends(): int {
      if Turns? then turn.now else time
    }

    /** The news of pods that it brings. */
    function Showings(): set<Showing> {
      match this
      case Turns(t) => t.Showings()
      case Heard(p, now) => {Showing(p, now)}
      case Cleared(_, _) => {}
    }

    function After(last: map<string, int>): map<string, int> {
      match this
      case Turns(t) => t.After(last)
      case Heard(p, now) => last[p := now]
      case Cleared(p, _) => last - {p}
    }
  }

  /** The clock never runs backwards. */
  ghost predicate Monotone(events: seq<Event>) {
    && (forall i :: 0 <= i < |events| ==> events[i].Begins() <= events[i].Ends())
    && (forall i, j :: 0 <= i < j < |events| ==> events[i].Ends() <= events[j].Begins())
  }

  /** The times on record after some events. */
  function LastAfter(events: seq<Event>): map<string, int> {
    if events == [] then map[] else events[|events| - 1].After(LastAfter(events[..|events| - 1]))
  }

  /** All news so far. */
  function ShowingsIn(events: seq<Event>): set<Showing> {
    if events == [] then {} else
      var last := events[|events| - 1];
      ShowingsIn(events[..|events| - 1]) + last.Showings()
  }

  lemma TurnIsConsistent(last: map<string, int>, showings: set<Showing>, t: Turn)
    requires Consistent(last, showings, t.start) && t.start <= t.now
    ensures Consistent(t.Checked(last), showings + t.Showings(), t.now)
    ensures Consistent(t.After(last), showings + t.Showings(), t.now)
  {
    hide Restarted, Shown, Begun;
    if t.Ok() {
      RestartedIsConsistent(last, showings, t.instances.value, t.checked.value, t.start);
      if t.listed.Some? { BegunIsConsistent(t.Checked(last), showings + t.Showings(), t.listed.value, t.now); }
    } else {
      assert showings + t.Showings() == showings;
    }
  }

  lemma {:induction false} AlwaysConsistent(events: seq<Event>, now: int)
    requires Monotone(events) && forall i :: 0 <= i < |events| ==> events[i].Ends() <= now
    ensures Consistent(LastAfter(events), ShowingsIn(events), now)
  {
    if events != [] {
      var init, last := events[..|events| - 1], events[|events| - 1];
      AlwaysConsistent(init, last.Begins());
      hide Turn.Checked, Turn.Showings, Turn.After;
      if last.Turns? { TurnIsConsistent(LastAfter(init), ShowingsIn(init), last.turn); }
    }
  }

  lemma {:induction false} EarlierShowing(events: seq<Event>, j: nat, s: Showing)
    requires j < |events| && s in events[j].Showings()
    ensures s in ShowingsIn(events)
  {
    if j < |events| - 1 { EarlierShowing(events[..|events| - 1], j, s); }
  }

  ghost predicate ShowsPod(t: Turn, p: string) {
    t.Ok() && exists q ::
      q in t.checked.value && q.name == p && q.instanceID != "" && q.instanceID in t.instances.value
  }

  /** The event is news of the pod at that time: the pod was heard of, or its instance was listed. */
  ghost predicate NewsAt(e: Event, p: string, time: int) {
    e == Heard(p, time) || (e.Turns? && ShowsPod(e.turn, p) && e.turn.start == time)
  }

  lemma NewsIsShowing(e: Event, p: string, time: int)
    requires NewsAt(e, p, time)
    ensures Showing(p, time) in e.Showings()
  {
    if e.Turns? {
      RestartedAt(map[], e.turn.instances.value, e.turn.checked.value, e.turn.start, p);
    }
  }

  /** The health-check window: over any run, a turn fails a pod only if all news of it up to then, in
    * this turn or before, is at least the pod's timeout old; and never in a turn whose listing failed. */
  lemma Window(unhealthyTimeout: int, events: seq<Event>, j: nat, k: nat, pod: RunningPod, time: int)
    requires Monotone(events) && j <= k < |events| && NewsAt(events[j], pod.name, time) && events[k].Turns?
    requires events[k].turn.Fails(unhealthyTimeout, LastAfter(events[..k]), pod)
    ensures events[k].turn.Ok() && time <= events[k].turn.now - Timeout(unhealthyTimeout, pod)
  {
    var t, s := events[k].turn, Showing(pod.name, time);
    NewsIsShowing(events[j], pod.name, time);
    AlwaysConsistent(events[..k], t.start);
    TurnIsConsistent(LastAfter(events[..k]), ShowingsIn(events[..k]), t);
    hide Turn.Showings, Turn.Checked, LastAfter, ShowingsIn, NewsAt;
    if j < k { EarlierShowing(events[..k], j, s); }
  }

  // ---- a pod that is not heard of is failed ----

  ghost predicate FindsStopped(e: Event, p: string) {
    e.Turns? && e.turn.Ok() && e.turn.running.Some? && p !in e.turn.running.value
  }

  /** The event tells nothing of the pod, and does not find it stopped. */
  ghost predicate Silent(e: Event, p: string) {
    match e
    case Turns(t) => !ShowsPod(t, p) && !FindsStopped(e, p)
    case Heard(q, _) => q != p
    case Cleared(q, _) => q != p
  }

  lemma CheckedAt(t: Turn, last: map<string, int>, p: string)
    ensures ShowsPod(t, p) ==> p in t.Checked(last) && t.Checked(last)[p] == t.start
    ensures !ShowsPod(t, p) && p in last ==> p in t.Checked(last) && t.Checked(last)[p] == last[p]
  {
    if t.Ok() { RestartedAt(last, t.instances.value, t.checked.value, t.start, p); }
  }

  lemma TurnKeeps(t: Turn, last: map<string, int>, p: string)
    requires t.Ok() && p in t.Checked(last) && (t.running.Some? ==> p in t.running.value)
    ensures p in t.After(last) && t.After(last)[p] == t.Checked(last)[p]
  {
    if t.listed.Some? { BegunAt(t.Checked(last), t.listed.value, t.now, p); }
  }

  lemma NewsIsRecorded(e: Event, last: map<string, int>, p: string, time: int)
    requires NewsAt(e, p, time) && !FindsStopped(e, p)
    ensures p in e.After(last) && e.After(last)[p] == time
  {
    if e.Turns? {
      CheckedAt(e.turn, last, p);
      TurnKeeps(e.turn, last, p);
    }
  }

  lemma SilenceKeeps(e: Event, last: map<string, int>, p: string)
    requires Silent(e, p) && p in last
    ensures p in e.After(last) && e.After(last)[p] == last[p]
  {
    if e.Turns? && e.turn.Ok() {
      CheckedAt(e.turn, last, p);
      TurnKeeps(e.turn, last, p);
    }
  }

  lemma {:induction false} LastNews(events: seq<Event>, j: nat, k: nat, p: string, time: int)
    requires j < k <= |events| && NewsAt(events[j], p, time) && !FindsStopped(events[j], p)
    requires forall i :: j < i < k ==> Silent(events[i], p)
    ensures p in LastAfter(events[..k]) && LastAfter(events[..k])[p] == time
  {
    hide NewsAt, Silent, FindsStopped;
    assert events[..k][..k - 1] == events[..k - 1];
    if j + 1 == k {
      NewsIsRecorded(events[j], LastAfter(events[..j]), p, time);
    } else {
      LastNews(events, j, k - 1, p, time);
      SilenceKeeps(events[k - 1], LastAfter(events[..k - 1]), p);
    }
  }

  /** Over any run, a turn fails a pod that it lists as Running and of which there was no news for the
    * pod's timeout. */
  lemma UnheardIsFailed(unhealthyTimeout: int, events: seq<Event>, j: nat, k: nat, pod: RunningPod, time: int)
    requires j < k < |events| && NewsAt(events[j], pod.name, time) && !FindsStopped(events[j], pod.name)
    requires (forall i :: j < i < k ==> Silent(events[i], pod.name)) && events[k].Turns?
    requires var t := events[k].turn; t.Ok() && !ShowsPod(t, pod.name) && t.listed.Some? && pod in t.listed.value
    requires Timeout(unhealthyTimeout, pod) > 0 && events[k].turn.now >= time + Timeout(unhealthyTimeout, pod)
    ensures events[k].turn.Fails(unhealthyTimeout, LastAfter(events[..k]), pod)
  {
    hide Silent, LastAfter, NewsAt, ShowsPod;
    LastNews(events, j, k, pod.name, time);
    CheckedAt(events[k].turn, LastAfter(events[..k]), pod.name);
  }

  /** After a turn with all its listings only running pods have a time, so a pod that stops and runs again
    * starts a new clock. */
  lemma ForgetsStopped(t: Turn, last: map<string, int>, p: string)
    requires t.Ok() && t.running.Some?
    ensures p in t.After(last) ==> p in t.running.value
  {}
}

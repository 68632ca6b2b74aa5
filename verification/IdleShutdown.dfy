/** The idle poll: when the server shuts itself down, and how it aggregates its sessions. */
module IdleShutdown {
  import opened Wrappers
  import opened KernelStates

  /** What the server reads of a session's kernel state. */
  datatype Session = Session(id: string, status: Status, connected: bool, idleSince: Option<int>, busySince: Option<int>)

  /** The idle timeout in seconds. */
  function Period(hours: Option<nat>): (seconds: nat) {
    match hours
    case None => 168 * 3600
    case Some(h) => if h == 0 then 30 else h * 3600
  }

  /** The timeout is the hours configured, half a minute for zero, a week for none. */
  lemma PeriodIs(hours: nat)
    ensures Period(None) == 604800 && Period(Some(0)) == 30
    ensures hours > 0 ==> Period(Some(hours)) == 3600 * hours
  {
  }

  // ---- The sessions.

  predicate IsRunning(s: Session) {
    s.status != Exited && s.status != Uninitialized
  }

  function Running(sessions: seq<Session>): (r: seq<Session>) {
    if |sessions| == 0 then []
    else
      var last := sessions[|sessions| - 1];
      Running(sessions[..|sessions| - 1]) + if IsRunning(last) then [last] else []
  }

  /** No session is busy or connected. */
  predicate Quiet(sessions: seq<Session>) {
    forall i :: 0 <= i < |sessions| ==> sessions[i].status != Busy && !sessions[i].connected
  }

  /** The running sessions are those neither exited nor uninitialized, in order. */
  lemma RunningSnoc(sessions: seq<Session>, s: Session)
    ensures Running([]) == []
    ensures Running(sessions + [s]) == Running(sessions) + if s.status in {Exited, Uninitialized} then [] else [s]
  {
    assert (sessions + [s])[..|sessions|] == sessions;
  }

  /** `running_sessions` */
  method RunningSessions(sessions: seq<Session>) returns (r: seq<Session>)
    ensures r == Running(sessions)
  {
    r := [];
    for i := 0 to |sessions|
      invariant r == Running(sessions[..i])
    {
      assert sessions[..i + 1][..i] == sessions[..i];
      if IsRunning(sessions[i]) {
        r := r + [sessions[i]];
      }
    }
    assert sessions[..|sessions|] == sessions;
  }

  /** `check_idle_sessions`: the sessions to shut down before the exit, or none when the server
      is not idle. */
  method CheckIdleSessions(sessions: seq<Session>) returns (r: Option<seq<Session>>)
    ensures r == if Quiet(sessions) then Some(Running(sessions)) else None
  {
    var running: seq<Session> := [];
    for i := 0 to |sessions|
      invariant Quiet(sessions[..i]) && running == Running(sessions[..i])
    {
      assert sessions[..i + 1][..i] == sessions[..i];
      if sessions[i].status == Busy { return None; }
      if sessions[i].connected { return None; }
      if IsRunning(sessions[i]) {
        running := running + [sessions[i]];
      }
    }
    assert sessions[..|sessions|] == sessions;
    r := Some(running);
  }

  // ---- The poll loop.

  datatype Event =
    | Tick(now: int, sessions: seq<Session>, alive: set<nat>)
    | Nudge(now: int, pid: Option<nat>)
    | Update(now: int, hours: Option<nat>)

  /** `asked` lists, for each shutdown begun, the sessions asked to stop. `timer` is when the
      interval was last created, reset or fired. */
  datatype State = State(
    start: int,
    hours: Option<nat>,
    period: nat,
    timer: int,
    client: nat,
    asked: seq<seq<Session>>)

  function Begun(start: int, hours: Option<nat>): (s: State) {
    State(start, hours, Period(hours), start, 0, [])
  }

  function Check(s: State, sessions: seq<Session>): (r: State) {
    if Quiet(sessions) then s.(asked := s.asked + [Running(sessions)]) else s
  }

  function After(s: State, e: Event): (r: State) {
    match e
    case Tick(now, sessions, alive) =>
      var fired := s.(timer := now);
      if s.hours.None? || now - s.start < s.period then fired
      else if s.client > 1 && s.client in alive then fired
      else Check(if s.client > 1 then fired.(client := 0) else fired, sessions)
    case Nudge(now, pid) => s.(timer := now, client := if pid.Some? then pid.value else s.client)
    case Update(now, hours) => s.(timer := now, hours := hours, period := Period(hours))
  }

  /** The loop of `idle_poll_task`, one method for each arm of its select. */
  class IdlePoll {
    const start: int
    var hours: Option<nat>
    var period: nat
    var timer: int
    var client: nat
    var asked: seq<seq<Session>>

    function View(): (s: State)
      reads this
    {
      State(start, hours, period, timer, client, asked)
    }

    constructor (now: int, hours: Option<nat>)
      ensures View() == Begun(now, hours)
    {
      start, timer, client, asked := now, now, 0, [];
      this.hours := hours;
      period := Period(hours);
    }

    method OnTick(now: int, sessions: seq<Session>, alive: set<nat>)
      modifies this
      ensures View() == After(old(View()), Tick(now, sessions, alive))
    {
      timer := now;
      if hours.None? { return; }
      if now - start < period { return; }
      if client > 1 {
        if client in alive { return; }
        client := 0;
      }
      var stop := CheckIdleSessions(sessions);
      if stop.Some? {
        asked := asked + [stop.value];
      }
    }

    method OnNudge(now: int, pid: Option<nat>)
      modifies this
      ensures View() == After(old(View()), Nudge(now, pid))
    {
      if pid.Some? && pid.value != client {
        client := pid.value;
      }
      timer := now;
    }

    method OnUpdate(now: int, newHours: Option<nat>)
      modifies this
      ensures View() == After(old(View()), Update(now, newHours))
    {
      hours := newHours;
      match hours {
        case Some(h) => if h == 0 { period := 30; } else { period := h * 3600; }
        case None => period := 168 * 3600;
      }
      timer := now;
    }
  }

  // ---- Runs.

  ghost function Run(start: int, hours: Option<nat>, events: seq<Event>): (s: State) {
    if |events| == 0 then Begun(start, hours)
    else After(Run(start, hours, events[..|events| - 1]), events[|events| - 1])
  }

  /** Time does not run backwards, and the timer fires no sooner than one period after it was
      created, reset or last fired. */
  ghost predicate Timely(start: int, hours: Option<nat>, events: seq<Event>) {
    forall i :: 0 <= i < |events| ==>
      var s := Run(start, hours, events[..i]);
      s.timer <= events[i].now && (events[i].Tick? ==> s.timer + s.period <= events[i].now)
  }

  /** The timeout in force: that of the last update, or the initial one. */
  function Configured(hours: Option<nat>, events: seq<Event>): (h: Option<nat>) {
    if |events| == 0 then hours
    else
      var e := events[|events| - 1];
      if e.Update? then e.hours else Configured(hours, events[..|events| - 1])
  }

  /** The position of the last nudge that names a client process, or -1. */
  function LastNamed(events: seq<Event>): (i: int)
    ensures -1 <= i < |events|
    ensures i >= 0 ==> events[i].Nudge? && events[i].pid.Some?
    ensures forall j :: i < j < |events| ==> !(events[j].Nudge? && events[j].pid.Some?)
  {
    if |events| == 0 then -1
    else
      var e := events[|events| - 1];
      if e.Nudge? && e.pid.Some? then |events| - 1 else LastNamed(events[..|events| - 1])
  }

  /** The loop acts on the tick at position `k`: a timeout is configured, and that long has
      passed since the start. */
  predicate Acts(start: int, hours: Option<nat>, events: seq<Event>, k: nat)
    requires k < |events|
  {
    && events[k].Tick? && Configured(hours, events[..k]).Some?
    && Period(Configured(hours, events[..k])) <= events[k].now - start
  }

  /** The process is gone at a tick the loop acts on. */
  predicate FoundGone(start: int, hours: Option<nat>, events: seq<Event>, k: nat, pid: nat)
    requires k < |events|
  {
    Acts(start, hours, events, k) && pid !in events[k].alive
  }

  /** The client named last is a process and was found gone since it was named. */
  ghost predicate NamedIsGone(start: int, hours: Option<nat>, events: seq<Event>) {
    var named := LastNamed(events);
    && named >= 0 && events[named].pid.value > 1
    && exists k :: named < k < |events| && FoundGone(start, hours, events, k, events[named].pid.value)
  }

  /** No client is left to keep the server: none was named, or not a process, or it is gone. */
  ghost predicate NoClient(start: int, hours: Option<nat>, events: seq<Event>) {
    LastNamed(events) == -1 || events[LastNamed(events)].pid.value <= 1 || NamedIsGone(start, hours, events)
  }

  /** The process the loop tracks, told from the events. */
  ghost function Tracked(start: int, hours: Option<nat>, events: seq<Event>): (pid: nat) {
    if LastNamed(events) == -1 || NamedIsGone(start, hours, events) then 0 else events[LastNamed(events)].pid.value
  }

  lemma {:induction false} ConfigurationTracked(start: int, hours: Option<nat>, events: seq<Event>)
    ensures var s := Run(start, hours, events);
            s.start == start && s.hours == Configured(hours, events) && s.period == Period(s.hours)
  {
    if |events| > 0 {
      ConfigurationTracked(start, hours, events[..|events| - 1]);
    }
  }

  lemma FoundGoneStays(start: int, hours: Option<nat>, front: seq<Event>, e: Event, k: nat, pid: nat)
    requires k < |front|
    ensures FoundGone(start, hours, front + [e], k, pid) <==> FoundGone(start, hours, front, k, pid)
  {
    assert (front + [e])[..k] == front[..k];
  }

  lemma LastNamedSnoc(front: seq<Event>, e: Event)
    ensures LastNamed(front + [e]) == if e.Nudge? && e.pid.Some? then |front| else LastNamed(front)
  {
    assert (front + [e])[..|front|] == front;
  }

  /** The last event either finds the named process gone, or changes nothing about it. */
  lemma NamedIsGoneSnoc(start: int, hours: Option<nat>, front: seq<Event>, e: Event)
    requires LastNamed(front) >= 0 && !(e.Nudge? && e.pid.Some?)
    ensures var events, pid := front + [e], front[LastNamed(front)].pid.value;
            NamedIsGone(start, hours, events) <==>
              NamedIsGone(start, hours, front) || (pid > 1 && FoundGone(start, hours, events, |front|, pid))
  {
    hide FoundGone;
    hide LastNamed;
    var events, named := front + [e], LastNamed(front);
    LastNamedSnoc(front, e);
    var pid := front[named].pid.value;
    assert events[named] == front[named];
    forall k | named < k < |front| ensures FoundGone(start, hours, events, k, pid) <==> FoundGone(start, hours, front, k, pid) {
      FoundGoneStays(start, hours, front, e, k, pid);
    }
  }

  lemma {:induction false} ClientTracked(start: int, hours: Option<nat>, events: seq<Event>)
    ensures Run(start, hours, events).client == Tracked(start, hours, events)
  {
    if |events| > 0 {
      var front, e := events[..|events| - 1], events[|events| - 1];
      ClientTracked(start, hours, front);
      ConfigurationTracked(start, hours, front);
      assert events == front + [e];
      LastNamedSnoc(front, e);
      if e.Nudge? && e.pid.Some? {
        assert !NamedIsGone(start, hours, events);
      } else if LastNamed(front) >= 0 {
        NamedIsGoneSnoc(start, hours, front, e);
        assert events[LastNamed(front)] == front[LastNamed(front)];
      }
    }
  }

  /** The conditions for a shutdown at event `i`, told from the events alone. */
  ghost predicate MayShutDown(start: int, hours: Option<nat>, events: seq<Event>, i: nat)
    requires i < |events|
  {
    && Acts(start, hours, events, i) && NoClient(start, hours, events[..i + 1])
    && forall s :: s in events[i].sessions ==> s.status != Busy && !s.connected
  }

  /** A shutdown begins at event `i`. */
  ghost predicate ShutsDown(start: int, hours: Option<nat>, events: seq<Event>, i: nat)
    requires i < |events|
  {
    Run(start, hours, events[..i + 1]).asked != Run(start, hours, events[..i]).asked
  }

  lemma NoClientAtTick(start: int, hours: Option<nat>, front: seq<Event>, e: Event)
    requires Acts(start, hours, front + [e], |front|)
    ensures NoClient(start, hours, front + [e]) <==>
            Tracked(start, hours, front) <= 1 || Tracked(start, hours, front) !in e.alive
  {
    var events := front + [e];
    LastNamedSnoc(front, e);
    if LastNamed(front) >= 0 {
      NamedIsGoneSnoc(start, hours, front, e);
      assert events[LastNamed(front)] == front[LastNamed(front)];
    }
  }

  lemma QuietIs(e: Event)
    ensures e.Tick? ==> (Quiet(e.sessions) <==> forall s :: s in e.sessions ==> s.status != Busy && !s.connected)
  {
  }

  /** In every run, a shutdown begins exactly at the ticks where a timeout is configured and has
      passed since the start, no session is busy or connected, and no client is left; and the
      sessions asked to stop are exactly the running ones. */
  lemma ShutdownExactly(start: int, hours: Option<nat>, events: seq<Event>, i: nat)
    requires i < |events|
    ensures ShutsDown(start, hours, events, i) <==> MayShutDown(start, hours, events, i)
    ensures Run(start, hours, events[..i + 1]).asked == Run(start, hours, events[..i]).asked +
            if MayShutDown(start, hours, events, i) then [Running(events[i].sessions)] else []
  {
    QuietIs(events[i]);
    hide NoClient;
    hide Tracked;
    hide Configured;
    hide Quiet;
    hide Running;
    var front, e := events[..i], events[i];
    assert events[..i + 1] == front + [e] && (front + [e])[..i] == front;
    ConfigurationTracked(start, hours, front);
    ClientTracked(start, hours, front);
    if Acts(start, hours, events, i) {
      NoClientAtTick(start, hours, front, e);
    }
  }

  lemma {:induction false} TimerTracked(start: int, hours: Option<nat>, events: seq<Event>, n: nat)
    requires Timely(start, hours, events) && n <= |events|
    ensures var s := Run(start, hours, events[..n]);
            s.timer >= start && forall j :: 0 <= j < n ==> events[j].now <= s.timer
  {
    if n > 0 {
      TimerTracked(start, hours, events, n - 1);
      assert events[..n][..n - 1] == events[..n - 1];
      assert Run(start, hours, events[..n]) == After(Run(start, hours, events[..n - 1]), events[n - 1]);
    }
  }

  /** On a timer that fires no sooner than a period after its last reset, a shutdown comes a full
      period after every nudge, every update and every tick before it. */
  lemma ShutdownWaitsAPeriod(start: int, hours: Option<nat>, events: seq<Event>, i: nat, j: nat)
    requires Timely(start, hours, events) && j < i < |events| && ShutsDown(start, hours, events, i)
    ensures Period(Configured(hours, events[..i])) <= events[i].now - events[j].now
  {
    ShutdownExactly(start, hours, events, i);
    ConfigurationTracked(start, hours, events[..i]);
    TimerTracked(start, hours, events, i);
  }

  // ---- The aggregation in `server_status`.

  datatype Summary = Summary(busy: bool, active: nat, earliestBusy: Option<int>, latestIdle: Option<int>)

  function Count(sessions: seq<Session>): (n: nat) {
    if |sessions| == 0 then 0
    else Count(sessions[..|sessions| - 1]) + if sessions[|sessions| - 1].status != Exited then 1 else 0
  }

  function BusyTimes(sessions: seq<Session>): (times: set<int>) {
    set s | s in sessions && s.status == Busy && s.busySince.Some? :: s.busySince.value
  }

  function IdleTimes(sessions: seq<Session>): (times: set<int>) {
    set s | s in sessions && s.status != Busy && s.idleSince.Some? :: s.idleSince.value
  }

  predicate IsEarliest(t: Option<int>, times: set<int>) {
    match t
    case None => times == {}
    case Some(x) => x in times && forall y :: y in times ==> x <= y
  }

  predicate IsLatest(t: Option<int>, times: set<int>) {
    match t
    case None => times == {}
    case Some(x) => x in times && forall y :: y in times ==> y <= x
  }

  ghost predicate Summarizes(r: Summary, sessions: seq<Session>) {
    && (r.busy <==> exists s :: s in sessions && s.status == Busy)
    && r.active == Count(sessions)
    && IsEarliest(r.earliestBusy, BusyTimes(sessions))
    && IsLatest(r.latestIdle, IdleTimes(sessions))
  }

  function Sooner(a: Option<int>, b: Option<int>): (r: Option<int>) {
    match (a, b)
    case (Some(x), Some(y)) => if y < x then b else a
    case (Some(_), None) => a
    case (None, _) => b
  }

  function Later(a: Option<int>, b: Option<int>): (r: Option<int>) {
    match (a, b)
    case (Some(x), Some(y)) => if y > x then b else a
    case (Some(_), None) => a
    case (None, _) => b
  }

  lemma TimesGrow(front: seq<Session>, s: Session)
    ensures BusyTimes(front + [s]) ==
            BusyTimes(front) + if s.status == Busy && s.busySince.Some? then {s.busySince.value} else {}
    ensures IdleTimes(front + [s]) ==
            IdleTimes(front) + if s.status != Busy && s.idleSince.Some? then {s.idleSince.value} else {}
  {
    assert forall x :: x in front + [s] <==> x in front || x == s;
  }

  /** One more session. */
  function Include(r: Summary, s: Session): (q: Summary) {
    Summary(r.busy || s.status == Busy,
            r.active + if s.status != Exited then 1 else 0,
            if s.status == Busy then Sooner(r.earliestBusy, s.busySince) else r.earliestBusy,
            if s.status == Busy then r.latestIdle else Later(r.latestIdle, s.idleSince))
  }

  lemma IncludeSummarizes(r: Summary, front: seq<Session>, s: Session)
    requires Summarizes(r, front)
    ensures Summarizes(Include(r, s), front + [s])
  {
    hide BusyTimes;
    hide IdleTimes;
    TimesGrow(front, s);
    assert (front + [s])[..|front|] == front;
    assert forall x :: x in front + [s] <==> x in front || x == s;
  }

  /** The loop of `server_status` */
  method Summarize(sessions: seq<Session>) returns (r: Summary)
    ensures Summarizes(r, sessions)
  {
    hide Summarizes;
    var busy, active := false, 0;
    var earliestBusy: Option<int>, latestIdle: Option<int> := None, None;
    NoSessions();
    for i := 0 to |sessions|
      invariant Summarizes(Summary(busy, active, earliestBusy, latestIdle), sessions[..i])
    {
      var s := sessions[i];
      assert sessions[..i + 1] == sessions[..i] + [s];
      IncludeSummarizes(Summary(busy, active, earliestBusy, latestIdle), sessions[..i], s);
      if s.status == Busy {
        busy := true;
        earliestBusy := Sooner(earliestBusy, s.busySince);
      } else {
        latestIdle := Later(latestIdle, s.idleSince);
      }
      if s.status != Exited {
        active := active + 1;
      }
    }
    assert sessions[..|sessions|] == sessions;
    r := Summary(busy, active, earliestBusy, latestIdle);
  }

  lemma NoSessions()
    ensures Summarizes(Summary(false, 0, None, None), [])
  {
  }

  lemma {:induction false} CountOfConcat(a: seq<Session>, b: seq<Session>)
    ensures Count(a + b) == Count(a) + Count(b)
    decreases |b|
  {
    if |b| == 0 {
      assert a + b == a;
    } else {
      assert (a + b)[..|a + b| - 1] == a + b[..|b| - 1];
      CountOfConcat(a, b[..|b| - 1]);
    }
  }

  lemma CountWithout(b: seq<Session>, i: nat)
    requires i < |b|
    ensures Count(b) == Count(b[..i] + b[i + 1..]) + Count([b[i]])
  {
    hide Count;
    var before, after := b[..i], b[i + 1..];
    assert b == before + [b[i]] + after;
    CountOfConcat(before, after);
    CountOfConcat(before, [b[i]]);
    CountOfConcat(before + [b[i]], after);
  }

  lemma MultisetWithout(b: seq<Session>, i: nat)
    requires i < |b|
    ensures multiset(b[..i] + b[i + 1..]) == multiset(b) - multiset([b[i]])
  {
    assert b == b[..i] + [b[i]] + b[i + 1..];
  }

  lemma {:induction false} CountOfPermutation(a: seq<Session>, b: seq<Session>)
    requires multiset(a) == multiset(b)
    ensures Count(a) == Count(b)
    decreases |a|
  {
    hide Count;
    if |a| == 0 {
      assert |multiset(b)| == 0;
      assert b == a;
    } else {
      assert a[0] in multiset(b);
      var i :| 0 <= i < |b| && b[i] == a[0];
      var fewer, others := a[..0] + a[1..], b[..i] + b[i + 1..];
      MultisetWithout(a, 0);
      MultisetWithout(b, i);
      CountOfPermutation(fewer, others);
      CountWithout(a, 0);
      CountWithout(b, i);
    }
  }

  /** The summary depends on the sessions, not on the order they are visited in. */
  lemma SummaryIgnoresOrder(a: seq<Session>, b: seq<Session>, r: Summary, q: Summary)
    requires multiset(a) == multiset(b) && Summarizes(r, a) && Summarizes(q, b)
    ensures r == q
  {
    assert forall s :: s in a <==> s in multiset(a);
    assert forall s :: s in b <==> s in multiset(b);
    assert BusyTimes(a) == BusyTimes(b) && IdleTimes(a) == IdleTimes(b);
    CountOfPermutation(a, b);
  }

  /** The session as the server reads it from a kernel's state. */
  predicate Shows(s: Session, k: Snapshot) {
    s.status == k.status && s.idleSince == k.idleSince && s.busySince == k.busySince
  }

  /** Over sessions whose times are kept as `set_status` keeps them, the summary has a busy time
      exactly when something is busy, and an idle time exactly when some session is idle, ready or
      exited. */
  lemma SummaryOfKernels(sessions: seq<Session>, kernels: seq<Snapshot>, r: Summary)
    requires |sessions| == |kernels| && Summarizes(r, sessions)
    requires forall i :: 0 <= i < |kernels| ==> Shows(sessions[i], kernels[i]) && StatusSound(kernels[i])
    ensures r.busy <==> r.earliestBusy.Some?
    ensures r.latestIdle.Some? <==> exists s :: s in sessions && s.status in {Idle, Ready, Exited}
  {
    forall s | s in sessions
      ensures (s.busySince.Some? <==> s.status == Busy) && (s.idleSince.Some? <==> s.status in {Idle, Ready, Exited})
    {
      var i :| 0 <= i < |sessions| && sessions[i] == s;
      assert Shows(sessions[i], kernels[i]) && StatusSound(kernels[i]);
    }
    hide StatusSound;
    if s :| s in sessions && s.status == Busy {
      assert s.busySince.value in BusyTimes(sessions);
    }
    if s :| s in sessions && s.status in {Idle, Ready, Exited} {
      assert s.idleSince.value in IdleTimes(sessions);
    }
  }
}

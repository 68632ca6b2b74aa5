/** `KernelState`: the status of a kernel, and what changing it does. */
module KernelStates {
  import opened Wrappers
  import opened Messages
  import opened History
  import Queue

  datatype Status = Uninitialized | Starting | Ready | Idle | Busy | Offline | Exited

  /** What the server sends to the client. */
  datatype ClientMessage =
    | StatusChanged(status: Status, reason: Option<string>)
    | ExecutionQueued(id: string)
    | Jupyter(message: Message)

  /** The state of a kernel, with the logs of what was done to its queue and to its history. */
  datatype Snapshot = Snapshot(
    status: Status,
    idleSince: Option<int>,
    busySince: Option<int>,
    processId: Option<nat>,
    nudges: nat,
    queue: Queue.State,
    history: seq<Entry>,
    sent: seq<ClientMessage>,
    steps: seq<Queue.Step>,
    events: seq<Event>)

  /** `KernelState::new` */
  function Fresh(now: int): (k: Snapshot) {
    Snapshot(Idle, Some(now), None, None, 0, Queue.EMPTY, [], [], [], [])
  }

  ghost function DoQueue(k: Snapshot, step: Queue.Step): (r: Snapshot) {
    k.(queue := Queue.After(k.queue, step), steps := k.steps + [step])
  }

  ghost function DoHistory(k: Snapshot, event: Event): (r: Snapshot) {
    k.(history := match event
                  case Begin(request, now) => AfterBegin(k.history, request, now)
                  case Record(m) => AfterRecord(k.history, m),
       events := k.events + [event])
  }

  function Send(k: Snapshot, m: ClientMessage): (r: Snapshot) {
    k.(sent := k.sent + [m])
  }

  /** A change that `set_status` drops: no change, or a late idle or busy after the exit. */
  predicate Dropped(status: Status, next: Status) {
    status == next || (status == Exited && (next == Idle || next == Busy))
  }

  predicate IsIdleStatus(status: Status) {
    status == Idle || status == Ready || status == Exited
  }

  /** The state `set_status` leaves. */
  ghost function AfterStatus(k: Snapshot, status: Status, reason: Option<string>, now: int): (r: Snapshot) {
    if Dropped(k.status, status) then k
    else
      var left := if status == Exited then DoQueue(k, Queue.Clear).(processId := None) else k;
      left.(status := status,
            idleSince := if IsIdleStatus(status) then Some(now) else None,
            nudges := if IsIdleStatus(status) then k.nudges + 1 else k.nudges,
            busySince := if status == Busy then Some(now) else None,
            sent := k.sent + [StatusChanged(status, reason)])
  }

  /** The channel to the client, shared by the kernel state and the proxy. */
  class Outbox {
    var sent: seq<ClientMessage>

    constructor ()
      ensures sent == []
    {
      sent := [];
    }
  }

  class KernelState {
    var status: Status
    var idleSince: Option<int>
    var busySince: Option<int>
    var processId: Option<nat>
    var nudges: nat
    const queue: Queue.ExecutionQueue
    const history: ExecutionHistory
    const outbox: Outbox
    ghost var steps: seq<Queue.Step>
    ghost var events: seq<Event>

    ghost function View(): (k: Snapshot)
      reads this, queue, history, outbox
    {
      Snapshot(status, idleSince, busySince, processId, nudges, queue.View(), history.entries, outbox.sent, steps, events)
    }

    constructor (now: int)
      ensures View() == Fresh(now)
      ensures fresh(queue) && fresh(history) && fresh(outbox)
    {
      status, idleSince, busySince, processId, nudges := Idle, Some(now), None, None, 0;
      queue := new Queue.ExecutionQueue();
      history := new ExecutionHistory();
      outbox := new Outbox();
      steps, events := [], [];
    }

    method Tell(m: ClientMessage)
      modifies outbox
      ensures View() == Send(old(View()), m)
    {
      outbox.sent := outbox.sent + [m];
    }

    method ClearQueue()
      modifies this`steps, queue
      ensures View() == DoQueue(old(View()), Queue.Clear)
    {
      queue.Discard();
      steps := steps + [Queue.Clear];
    }

    method Submit(request: Message) returns (now: bool)
      modifies this`steps, queue
      ensures View() == DoQueue(old(View()), Queue.Submit(request))
      ensures now <==> Queue.Activates(old(View()).queue, Queue.Submit(request)) == Some(request)
    {
      now := queue.ProcessRequest(request);
      steps := steps + [Queue.Submit(request)];
    }

    method Advance() returns (request: Option<Message>)
      modifies this`steps, queue
      ensures View() == DoQueue(old(View()), Queue.Next)
      ensures request == Queue.Activates(old(View()).queue, Queue.Next)
    {
      request := queue.NextRequest();
      steps := steps + [Queue.Next];
    }

    method Withdraw(id: string)
      modifies this`steps, queue
      ensures View() == DoQueue(old(View()), Queue.Remove(id))
    {
      var _ := queue.RemovePending(id);
      steps := steps + [Queue.Remove(id)];
    }

    method BeginEntry(request: Message, now: int)
      modifies this`events, history
      ensures View() == DoHistory(old(View()), Begin(request, now))
    {
      history.Begin(request, now);
      events := events + [Begin(request, now)];
    }

    method RecordEntry(m: Message)
      modifies this`events, history
      ensures View() == DoHistory(old(View()), Record(m))
    {
      history.Record(m);
      events := events + [Record(m)];
    }

    /** The times `set_status` records. */
    method Stamp(next: Status, now: int)
      modifies this`idleSince, this`busySince, this`nudges
      ensures idleSince == if IsIdleStatus(next) then Some(now) else None
      ensures nudges == if IsIdleStatus(next) then old(nudges) + 1 else old(nudges)
      ensures busySince == if next == Busy then Some(now) else None
    {
      if next == Idle || next == Ready || next == Exited {
        idleSince := Some(now);
        nudges := nudges + 1;
      } else {
        idleSince := None;
      }
      if next == Busy {
        busySince := Some(now);
      } else {
        busySince := None;
      }
    }

    /** `set_status` */
    method SetStatus(next: Status, reason: Option<string>, now: int)
      modifies this, queue, outbox
      ensures View() == AfterStatus(old(View()), next, reason, now)
    {
      hide Queue.After;
      if status == next { return; }
      if status == Exited && (next == Idle || next == Busy) { return; }
      status := next;
      if next == Exited {
        ClearQueue();
        processId := None;
      }
      Stamp(next, now);
      outbox.sent := outbox.sent + [StatusChanged(next, reason)];
    }
  }

  // ---- Runs of status changes, with anything else happening in between.

  datatype Change =
    | SetStatus(next: Status, reason: Option<string>, now: int)
    | Spawned(pid: Option<nat>)
    | QueueChange(step: Queue.Step)
    | HistoryChange(event: Event)
    | Deliver(m: ClientMessage)

  /** Statuses are sent by `set_status` alone. */
  predicate Plain(c: Change) {
    c.Deliver? ==> !c.m.StatusChanged?
  }

  ghost function Changed(k: Snapshot, c: Change): (r: Snapshot) {
    match c
    case SetStatus(next, reason, now) => AfterStatus(k, next, reason, now)
    case Spawned(pid) => k.(processId := pid)
    case QueueChange(step) => DoQueue(k, step)
    case HistoryChange(event) => DoHistory(k, event)
    case Deliver(m) => Send(k, m)
  }

  ghost function RunOf(start: int, changes: seq<Change>): (k: Snapshot) {
    if |changes| == 0 then Fresh(start) else Changed(RunOf(start, changes[..|changes| - 1]), changes[|changes| - 1])
  }

  /** The statuses a client is told, in order. */
  function Published(sent: seq<ClientMessage>): (r: seq<Status>) {
    if |sent| == 0 then []
    else
      var m := sent[|sent| - 1];
      Published(sent[..|sent| - 1]) + if m.StatusChanged? then [m.status] else []
  }

  ghost predicate NoStutter(s: seq<Status>) {
    forall i :: 0 < i < |s| ==> s[i - 1] != s[i]
  }

  /** The initial status and then what was published. */
  function Stream(k: Snapshot): (s: seq<Status>) {
    [Idle] + Published(k.sent)
  }

  ghost predicate StatusSound(k: Snapshot) {
    && (k.busySince.Some? <==> k.status == Busy)
    && (k.idleSince.Some? <==> k.status in {Idle, Ready, Exited})
    && NoStutter(Stream(k)) && Stream(k)[|Stream(k)| - 1] == k.status
  }

  lemma StreamGrows(k: Snapshot, m: ClientMessage)
    ensures Stream(Send(k, m)) == Stream(k) + if m.StatusChanged? then [m.status] else []
  {
    assert (k.sent + [m])[..|k.sent|] == k.sent;
  }

  lemma ChangedSound(k: Snapshot, c: Change)
    requires StatusSound(k) && Plain(c)
    ensures StatusSound(Changed(k, c))
  {
    hide AfterBegin;
    hide AfterRecord;
    hide Queue.After;
    hide Published;
    match c {
      case SetStatus(next, reason, now) =>
        StreamGrows(k, StatusChanged(next, reason));
        assert !Dropped(k.status, next) ==> Stream(Changed(k, c)) == Stream(Send(k, StatusChanged(next, reason)));
      case Deliver(m) => StreamGrows(k, m);
      case _ => assert Stream(Changed(k, c)) == Stream(k);
    }
  }

  /** Every run keeps: busy_since is set exactly when Busy, idle_since exactly when Idle, Ready
      or Exited; what was published, after the initial Idle, never repeats a status and ends in
      the current one. */
  lemma {:induction false} StatusInvariant(start: int, changes: seq<Change>)
    requires forall i :: 0 <= i < |changes| ==> Plain(changes[i])
    ensures StatusSound(RunOf(start, changes))
  {
    if |changes| > 0 {
      StatusInvariant(start, changes[..|changes| - 1]);
      ChangedSound(RunOf(start, changes[..|changes| - 1]), changes[|changes| - 1]);
    }
  }

  /** A new status is taken, except idle or busy after the exit. */
  predicate TakesEffect(status: Status, next: Status) {
    status != next && !(status == Exited && next in {Idle, Busy})
  }

  /** When the current status was entered: at the last change that was not dropped. */
  ghost function EnteredAt(start: int, changes: seq<Change>): (now: int) {
    if |changes| == 0 then start
    else
      var front, c := changes[..|changes| - 1], changes[|changes| - 1];
      if c.SetStatus? && TakesEffect(RunOf(start, front).status, c.next) then c.now else EnteredAt(start, front)
  }

  /** In every run, the time recorded is the time the current status was entered. */
  lemma {:induction false} TimesAreEntryTimes(start: int, changes: seq<Change>)
    ensures var k := RunOf(start, changes);
            && (k.idleSince.Some? ==> k.idleSince.value == EnteredAt(start, changes))
            && (k.busySince.Some? ==> k.busySince.value == EnteredAt(start, changes))
  {
    hide AfterBegin;
    hide AfterRecord;
    hide Queue.After;
    if |changes| > 0 {
      TimesAreEntryTimes(start, changes[..|changes| - 1]);
    }
  }

  /** The status after the first `i` changes. */
  ghost function StatusAt(start: int, changes: seq<Change>, i: nat): (s: Status)
    requires i <= |changes|
  {
    RunOf(start, changes[..i]).status
  }

  /** What a status change does: the kernel takes the status, unless it has exited and is said to be
      idle or busy; entering Exited empties the queue and clears the process. Nothing else changes
      the status. */
  lemma StatusStep(start: int, changes: seq<Change>, i: nat)
    requires i < |changes|
    ensures var before, after, c := RunOf(start, changes[..i]), RunOf(start, changes[..i + 1]), changes[i];
            && (c.SetStatus? ==>
                  after.status == if before.status == Exited && c.next in {Idle, Busy} then Exited else c.next)
            && (!c.SetStatus? ==> after.status == before.status)
            && (before.status == Exited ==> after.status != Idle && after.status != Busy)
            && (before.status != Exited && after.status == Exited ==>
                  after.queue == Queue.State(None, []) && after.processId == None)
  {
    hide AfterBegin;
    hide AfterRecord;
    assert changes[..i + 1][..i] == changes[..i];
    assert RunOf(start, changes[..i + 1]) == Changed(RunOf(start, changes[..i]), changes[i]);
  }

  /** The statuses announced to the client, with their reasons. */
  function Announced(sent: seq<ClientMessage>): (r: seq<(Status, Option<string>)>) {
    if |sent| == 0 then []
    else
      var m := sent[|sent| - 1];
      Announced(sent[..|sent| - 1]) + if m.StatusChanged? then [(m.status, m.reason)] else []
  }

  /** The changes that took effect, with their reasons, told by the status before each. */
  ghost function Effective(start: int, changes: seq<Change>): (r: seq<(Status, Option<string>)>) {
    if |changes| == 0 then []
    else
      var front, c := changes[..|changes| - 1], changes[|changes| - 1];
      var status := RunOf(start, front).status;
      Effective(start, front) +
      if c.SetStatus? && TakesEffect(status, c.next) then [(c.next, c.reason)] else []
  }

  lemma AnnouncedSnoc(sent: seq<ClientMessage>, m: ClientMessage)
    ensures Announced(sent + [m]) == Announced(sent) + if m.StatusChanged? then [(m.status, m.reason)] else []
  {
    assert (sent + [m])[..|sent|] == sent;
  }

  /** How many of the statuses announced count as idle time, each of which nudges the server. */
  function IdleAnnouncements(announced: seq<(Status, Option<string>)>): (n: nat) {
    if |announced| == 0 then 0
    else
      IdleAnnouncements(announced[..|announced| - 1]) +
      if announced[|announced| - 1].0 in {Idle, Ready, Exited} then 1 else 0
  }

  lemma IdleAnnouncementsSnoc(announced: seq<(Status, Option<string>)>, one: (Status, Option<string>))
    ensures IdleAnnouncements(announced + [one]) ==
            IdleAnnouncements(announced) + if one.0 in {Idle, Ready, Exited} then 1 else 0
  {
    assert (announced + [one])[..|announced|] == announced;
  }

  /** In every run, each change that takes effect is announced once, in order, with its reason, and
      the server is nudged once for each that makes the kernel idle, ready or exited. */
  lemma {:induction false} EveryChangeIsAnnounced(start: int, changes: seq<Change>)
    requires forall i :: 0 <= i < |changes| ==> Plain(changes[i])
    ensures var k := RunOf(start, changes);
            Announced(k.sent) == Effective(start, changes) && k.nudges == IdleAnnouncements(Announced(k.sent))
  {
    hide AfterBegin;
    hide AfterRecord;
    hide Queue.After;
    hide Announced;
    hide IdleAnnouncements;
    if |changes| == 0 {
      NothingAnnounced();
    } else {
      var front, c := changes[..|changes| - 1], changes[|changes| - 1];
      EveryChangeIsAnnounced(start, front);
      var k := RunOf(start, front);
      if c.SetStatus? {
        AnnouncedSnoc(k.sent, StatusChanged(c.next, c.reason));
        IdleAnnouncementsSnoc(Announced(k.sent), (c.next, c.reason));
      } else if c.Deliver? {
        AnnouncedSnoc(k.sent, c.m);
        assert Announced(k.sent + [c.m]) == Announced(k.sent);
      }
    }
  }

  lemma NothingAnnounced()
    ensures Announced([]) == [] && IdleAnnouncements([]) == 0
  {
  }

  /** No run goes from Exited to Idle or Busy without passing another status. */
  lemma {:induction false} NoResurrection(start: int, changes: seq<Change>, i: nat, j: nat)
    requires i < j <= |changes| && StatusAt(start, changes, i) == Exited
    requires StatusAt(start, changes, j) == Idle || StatusAt(start, changes, j) == Busy
    ensures exists k :: i < k < j && StatusAt(start, changes, k) !in {Exited, Idle, Busy}
    decreases j - i
  {
    StatusStep(start, changes, i);
    if StatusAt(start, changes, i + 1) == Exited {
      NoResurrection(start, changes, i + 1, j);
      var k :| i + 1 < k < j && StatusAt(start, changes, k) !in {Exited, Idle, Busy};
      assert i < k < j;
    } else {
      assert i + 1 < j && StatusAt(start, changes, i + 1) !in {Exited, Idle, Busy};
    }
  }
}

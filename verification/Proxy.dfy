/**
  `ZmqWsProxy`: messages between a client and a kernel, through the kernel's state, its queue
  and its history. Each socket or client message, and each change from elsewhere in the server,
  is one step.
 */
module Proxy {
  import opened Wrappers
  import opened Utf8
  import opened Messages
  import opened History
  import opened KernelStates
  import Queue
  import Wire

  type Frames = seq<Bytes>

  datatype Kind = Execute | Interrupt | Shutdown | BusyStatus | IdleStatus | Other

  /** A struct's only field as it is deserialized: by name from an object, by place from an array. */
  function OnlyField(content: Json, name: Text): (v: Json) {
    if content.Array? then if |content.items| == 1 then content.items[0] else Null
    else content.Field(name)
  }

  /** A variant without data as it is deserialized: a string, or an object from its name to null. */
  function VariantName(v: Json): (name: Option<Text>) {
    if v.Str? then Some(v.text)
    else if v.Object? && |v.fields| == 1 && v.fields[0].1.Null? then Some(v.fields[0].0)
    else None
  }

  /** `JupyterMsg::from` */
  function Classify(m: Message): (kind: Kind) {
    if m.header.kind == "execute_request" then
      if OnlyField(m.content, Ascii("code")).Str? then Execute else Other
    else if m.header.kind == "status" then
      var state := VariantName(OnlyField(m.content, Ascii("execution_state")));
      if state == Some(Ascii("busy")) then BusyStatus
      else if state == Some(Ascii("idle")) then IdleStatus
      else Other
    else if m.header.kind == "interrupt_request" then Interrupt
    else if m.header.kind == "shutdown_request" then Shutdown
    else Other
  }

  predicate IsStatus(m: Message) {
    Classify(m) == BusyStatus || Classify(m) == IdleStatus
  }

  /** What the proxy was created with. */
  datatype Env = Env(codec: Wire.Codec, connection: Wire.Connection)

  function Decode(env: Env, channel: Channel, frames: Frames): (r: Result<Message, Wire.Error>) {
    Wire.Decoded(env.codec, frames, channel, env.connection.key)
  }

  predicate Encodes(env: Env, m: Message) {
    Wire.DecodeAll(env.codec, m.buffers).Some?
  }

  predicate HasSocket(channel: Channel) {
    channel.Shell? || channel.Control? || channel.Stdin?
  }

  datatype Phase = Stopped | Waiting | Connected | Listening

  /** How an IOPub frame came: before the kernel_info reply, or to a proxy that listened, and then
      with which requests waiting in the queue. */
  datatype Arrival = Early | Live(waiting: seq<Message>)

  /** What a connection of the proxy to its kernel went through: the request it made, the IOPub
      frames it received, and, if it began to listen, the requests that waited in the queue then. */
  datatype Link = Link(infoId: string, received: seq<(Frames, Arrival)>, queued: Option<seq<Message>>)

  /** `received` and `queued` record the present connection, `past` the earlier ones (the first is
      empty: there was no proxy yet), and `base` how much had been sent to the client when the
      proxy connected. */
  datatype State = State(
    phase: Phase,
    infoId: string,
    kernel: Snapshot,
    toKernel: seq<(Channel, Message)>,
    held: seq<Frames>,
    received: seq<(Frames, Arrival)>,
    base: nat,
    queued: Option<seq<Message>>,
    past: seq<Link>)
  {
    function Current(): (link: Link) {
      Link(infoId, received, queued)
    }

    /** How a frame received now comes. */
    function Now(): (arrival: Arrival) {
      if phase.Waiting? then Early else Live(kernel.queue.pending)
    }
  }

  // ---- From the kernel to the client.

  function Reason(m: Message): (r: Option<string>) {
    if m.parent.Some? then Some(m.parent.value.kind) else None
  }

  /** The last part of `forward_zmq`: record the message and deliver it. */
  ghost function RecordedAndSent(k: Snapshot, m: Message): (r: Snapshot) {
    Send(if m.parent.Some? then DoHistory(k, Record(m)) else k, Jupyter(m))
  }

  /** The queue moves on at every idle, whatever the idle answers. The request it activates is
      begun in the history before it is encoded. */
  ghost function AfterIdle(env: Env, s: State, now: int): (r: (State, bool)) {
    var next := Queue.Activates(s.kernel.queue, Queue.Next);
    var k := DoQueue(s.kernel, Queue.Next);
    if next.None? then (s.(kernel := k), true)
    else
      var begun := DoHistory(k, Begin(next.value, now));
      if Encodes(env, next.value) then
        (s.(kernel := begun, toKernel := s.toKernel + [(Shell, next.value)]), true)
      else (s.(kernel := begun), false)
  }

  /** A decoded message; false when forwarding fails. */
  ghost function Forward(env: Env, s: State, m: Message, now: int): (r: (State, bool)) {
    if Classify(m) == IdleStatus then
      var (t, ok) := AfterIdle(env, s.(kernel := AfterStatus(s.kernel, Idle, Reason(m), now)), now);
      (if ok then t.(kernel := RecordedAndSent(t.kernel, m)) else t, ok)
    else
      var k := if Classify(m) == BusyStatus then AfterStatus(s.kernel, Busy, Reason(m), now) else s.kernel;
      (s.(kernel := RecordedAndSent(k, m)), true)
  }

  /** Frames that do not decode are discarded; indexing past the end is a panic. */
  ghost function ForwardFrames(env: Env, s: State, channel: Channel, frames: Frames, now: int): (r: (State, bool)) {
    match Decode(env, channel, frames)
    case Ok(m) => Forward(env, s, m, now)
    case Err(e) => (s, !e.OutOfBounds?)
  }

  /** The held frames, forwarded one after the other; a failure does not stop the others. */
  ghost function Flush(env: Env, s: State, frames: seq<Frames>, now: int): (r: State) {
    if |frames| == 0 then s
    else ForwardFrames(env, Flush(env, s, frames[..|frames| - 1], now), IOPub, frames[|frames| - 1], now).0
  }

  // ---- From the client to the kernel.

  /** The last part of `forward_ws`: encode the message and send it to its socket. */
  ghost function ToSocket(env: Env, s: State, m: Message): (r: State) {
    if !Encodes(env, m) then s.(phase := Stopped)
    else if HasSocket(m.channel) then s.(toKernel := s.toKernel + [(m.channel, m)])
    else s
  }

  ghost function FromTheClient(env: Env, s: State, m: Message, now: int): (r: State) {
    match Classify(m)
    case Execute =>
      var k := DoQueue(s.kernel, Queue.Submit(m));
      if Queue.Activates(s.kernel.queue, Queue.Submit(m)).None? then
        s.(kernel := Send(k, ExecutionQueued(m.header.id)))
      else ToSocket(env, s.(kernel := DoHistory(k, Begin(m, now))), m)
    case Interrupt => ToSocket(env, s.(kernel := DoQueue(s.kernel, Queue.Clear)), m)
    case Shutdown => ToSocket(env, s.(kernel := DoQueue(s.kernel, Queue.Clear)), m)
    case _ => ToSocket(env, s, m)
  }

  // ---- Waiting for the kernel_info reply.

  /** The request `get_kernel_info` makes on the proxy's own behalf. */
  function InfoRequest(infoId: string): (m: Message) {
    Message(Header(infoId, "kernel_info_request"), None, Shell, Object([]), Object([]), [])
  }

  /** A busy or idle status for the kernel_info request, which the client did not make. */
  predicate IsOurs(infoId: string, m: Message) {
    m.Answers(infoId) && IsStatus(m)
  }

  ghost function WhileWaiting(env: Env, s: State, channel: Channel, frames: Frames): (r: State) {
    if channel.Shell? then
      match Decode(env, Shell, frames)
      case Ok(m) => if m.Answers(s.infoId) then s.(phase := Connected) else s
      case Err(_) => s.(phase := Stopped)
    else if channel.IOPub? then
      match Decode(env, IOPub, frames)
      case Ok(m) => if IsOurs(s.infoId, m) then s else s.(held := s.held + [frames])
      case Err(_) => s.(phase := Stopped)
    else s
  }

  // ---- The machine.

  datatype Step =
    | Connect(infoId: string)
    | Listen(now: int)
    | FromClient(m: Message, now: int)
    | FromKernel(channel: Channel, frames: Frames, now: int)
    | Status(next: Status, reason: Option<string>, now: int)
    | Withdraw(id: string)
    | Kill
    | Close

  /** A frame from a socket: noted when it comes from IOPub, then handled. */
  ghost function FromTheKernel(env: Env, s: State, channel: Channel, frames: Frames, now: int): (r: State) {
    var noted := if channel.IOPub? then s.(received := s.received + [(frames, s.Now())]) else s;
    if s.phase.Waiting? then WhileWaiting(env, noted, channel, frames)
    else
      var (t, ok) := ForwardFrames(env, noted, channel, frames, now);
      if ok then t else t.(phase := Stopped)
  }

  /** Messages stay in their sockets and channels while the proxy does not receive them. A proxy
      that listens is closed by an exit, a disconnect, closed sockets or a failing receive, one that
      waits only by a failing receive. */
  ghost function After(env: Env, s: State, step: Step): (r: State) {
    match step
    case Connect(infoId) =>
      if s.phase.Stopped? then
        s.(phase := Waiting, infoId := infoId, toKernel := s.toKernel + [(Shell, InfoRequest(infoId))],
           held := [], received := [], base := |s.kernel.sent|, queued := None, past := s.past + [s.Current()])
      else s
    case Listen(now) =>
      if s.phase.Connected? then
        Flush(env, s, s.held, now).(phase := Listening, held := [], queued := Some(s.kernel.queue.pending))
      else s
    case FromClient(m, now) => if s.phase.Listening? then FromTheClient(env, s, m, now) else s
    case FromKernel(channel, frames, now) =>
      if s.phase.Waiting? || s.phase.Listening? then FromTheKernel(env, s, channel, frames, now) else s
    case Status(next, reason, now) => s.(kernel := AfterStatus(s.kernel, next, reason, now))
    case Withdraw(id) => s.(kernel := DoQueue(s.kernel, Queue.Remove(id)))
    case Kill => s.(kernel := DoQueue(s.kernel, Queue.Clear))
    case Close => if s.phase.Waiting? || s.phase.Listening? then s.(phase := Stopped) else s
  }

  function Start(now: int): (s: State) {
    State(Stopped, "", Fresh(now), [], [], [], 0, None, [])
  }

  ghost function Run(env: Env, start: int, steps: seq<Step>): (s: State) {
    if |steps| == 0 then Start(start) else After(env, Run(env, start, steps[..|steps| - 1]), steps[|steps| - 1])
  }

  // ---- What the logs say.

  /** The requests begun in the history, in order. */
  function Begins(events: seq<Event>): (r: seq<Message>) {
    if |events| == 0 then []
    else
      var e := events[|events| - 1];
      Begins(events[..|events| - 1]) + if e.Begin? then [e.request] else []
  }

  /** The requests told to the client as queued. */
  function Notices(sent: seq<ClientMessage>): (ids: seq<string>) {
    if |sent| == 0 then []
    else
      var m := sent[|sent| - 1];
      Notices(sent[..|sent| - 1]) + if m.ExecutionQueued? then [m.id] else []
  }

  /** The requests that were not activated on arrival. */
  ghost function Late(steps: seq<Queue.Step>): (ids: seq<string>) {
    if |steps| == 0 then []
    else
      var front, step := steps[..|steps| - 1], steps[|steps| - 1];
      Late(front) +
      if step.Submit? && Queue.Activates(Queue.Run(Queue.EMPTY, front), step).None? then [step.request.header.id] else []
  }

  /** The execute requests written to the kernel, each with its socket. */
  function Executes(toKernel: seq<(Channel, Message)>): (r: seq<(Channel, Message)>) {
    if |toKernel| == 0 then []
    else
      var last := toKernel[|toKernel| - 1];
      Executes(toKernel[..|toKernel| - 1]) + if Classify(last.1) == Execute then [last] else []
  }

  /** How an activated request is written: on the channel it names when it arrives, if that has a
      socket, and on the shell socket when its turn comes. */
  function Writing(step: Queue.Step, m: Message): (channel: Option<Channel>) {
    if step.Next? then Some(Shell)
    else if m.channel == Shell || m.channel == Control || m.channel == Stdin then Some(m.channel)
    else None
  }

  /** The writings of an activated request, if any: its buffers must decode. */
  function WritingsOf(env: Env, step: Queue.Step, one: Option<Message>): (r: seq<(Channel, Message)>) {
    if one.Some? && Encodes(env, one.value) && Writing(step, one.value).Some?
    then [(Writing(step, one.value).value, one.value)] else []
  }

  /** The activations that can be written, each with its socket. */
  ghost function Dispatched(env: Env, steps: seq<Queue.Step>): (r: seq<(Channel, Message)>) {
    if |steps| == 0 then []
    else
      var front, step := steps[..|steps| - 1], steps[|steps| - 1];
      Dispatched(env, front) + WritingsOf(env, step, Queue.Activates(Queue.Run(Queue.EMPTY, front), step))
  }

  predicate AllExecute(requests: seq<Message>) {
    forall i :: 0 <= i < |requests| ==> Classify(requests[i]) == Execute
  }

  /** The queue, the history, the client and the sockets all tell the same story. */
  ghost predicate Agrees(env: Env, k: Snapshot, toKernel: seq<(Channel, Message)>) {
    && k.queue == Queue.Run(Queue.EMPTY, k.steps) && AllExecute(k.queue.pending)
    && k.history == Bounded(k.events)
    && Begins(k.events) == Queue.Activations(Queue.EMPTY, k.steps)
    && Notices(k.sent) == Late(k.steps)
    && Executes(toKernel) == Dispatched(env, k.steps)
    && StatusSound(k)
  }

  lemma QueueGrows(env: Env, k: Snapshot, step: Queue.Step)
    requires k.queue == Queue.Run(Queue.EMPTY, k.steps)
    ensures var r, one := DoQueue(k, step), Queue.Activates(k.queue, step);
            && r.queue == Queue.Run(Queue.EMPTY, r.steps)
            && Queue.Activations(Queue.EMPTY, r.steps) ==
                 Queue.Activations(Queue.EMPTY, k.steps) + (if one.Some? then [one.value] else [])
            && Late(r.steps) == Late(k.steps) + (if step.Submit? && one.None? then [step.request.header.id] else [])
            && Dispatched(env, r.steps) == Dispatched(env, k.steps) + WritingsOf(env, step, one)
  {
    hide WritingsOf;
    assert (k.steps + [step])[..|k.steps|] == k.steps;
  }

  lemma HistoryGrows(k: Snapshot, event: Event)
    requires k.history == Bounded(k.events)
    ensures var r := DoHistory(k, event);
            && r.history == Bounded(r.events)
            && Begins(r.events) == Begins(k.events) + (if event.Begin? then [event.request] else [])
  {
    assert (k.events + [event])[..|k.events|] == k.events;
  }

  lemma SentGrows(sent: seq<ClientMessage>, m: ClientMessage)
    ensures Notices(sent + [m]) == Notices(sent) + (if m.ExecutionQueued? then [m.id] else [])
  {
    assert (sent + [m])[..|sent|] == sent;
  }

  lemma SocketGrows(toKernel: seq<(Channel, Message)>, channel: Channel, m: Message)
    ensures Executes(toKernel + [(channel, m)]) == Executes(toKernel) + (if Classify(m) == Execute then [(channel, m)] else [])
  {
    assert (toKernel + [(channel, m)])[..|toKernel|] == toKernel;
  }

  lemma {:induction false} WithoutExecutes(pending: seq<Message>, id: string)
    requires AllExecute(pending)
    ensures AllExecute(Queue.Without(pending, id))
  {
    hide Classify;
    if |pending| > 0 {
      WithoutExecutes(pending[..|pending| - 1], id);
    }
  }

  /** A queue step that activates nothing and queues nothing. */
  lemma QuietStepAgrees(env: Env, k: Snapshot, toKernel: seq<(Channel, Message)>, step: Queue.Step)
    requires Agrees(env, k, toKernel) && !step.Submit? && Queue.Activates(k.queue, step).None?
    ensures Agrees(env, DoQueue(k, step), toKernel)
  {
    hide Classify;
    hide StatusSound;
    hide Bounded;
    hide Queue.Run;
    hide Queue.Without;
    hide Queue.Activations;
    hide Late;
    hide Dispatched;
    ChangedSound(k, QueueChange(step));
    QueueGrows(env, k, step);
    if step.Remove? {
      WithoutExecutes(k.queue.pending, step.id);
    }
  }

  lemma EntryAgrees(env: Env, k: Snapshot, toKernel: seq<(Channel, Message)>, m: Message)
    requires Agrees(env, k, toKernel)
    ensures Agrees(env, DoHistory(k, Record(m)), toKernel)
  {
    HistoryGrows(k, Record(m));
    ChangedSound(k, HistoryChange(Record(m)));
    hide Classify;
    hide AfterRecord;
    hide Bounded;
    hide StatusSound;
    hide Queue.Run;
    hide Queue.Activations;
    hide Late;
    hide Dispatched;
    hide Executes;
    hide Begins;
  }

  lemma TellAgrees(env: Env, k: Snapshot, toKernel: seq<(Channel, Message)>, m: Message)
    requires Agrees(env, k, toKernel)
    ensures Agrees(env, Send(k, Jupyter(m)), toKernel)
  {
    SentGrows(k.sent, Jupyter(m));
    ChangedSound(k, KernelStates.Deliver(Jupyter(m)));
    hide Classify;
    hide Bounded;
    hide StatusSound;
    hide Queue.Run;
    hide Queue.Activations;
    hide Late;
    hide Dispatched;
    hide Executes;
    hide Notices;
  }

  lemma RecordAgrees(env: Env, k: Snapshot, toKernel: seq<(Channel, Message)>, m: Message)
    requires Agrees(env, k, toKernel)
    ensures Agrees(env, RecordedAndSent(k, m), toKernel)
  {
    hide Agrees;
    hide DoHistory;
    EntryAgrees(env, k, toKernel, m);
    TellAgrees(env, k, toKernel, m);
    TellAgrees(env, DoHistory(k, Record(m)), toKernel, m);
  }

  lemma StatusAgrees(env: Env, k: Snapshot, toKernel: seq<(Channel, Message)>, next: Status, reason: Option<string>, now: int)
    requires Agrees(env, k, toKernel)
    ensures Agrees(env, AfterStatus(k, next, reason, now), toKernel)
  {
    hide Classify;
    hide Bounded;
    hide Queue.Run;
    hide StatusSound;
    QuietStepAgrees(env, k, toKernel, Queue.Clear);
    ChangedSound(k, SetStatus(next, reason, now));
    SentGrows(k.sent, StatusChanged(next, reason));
  }

  /** An activation: the queue step, the entry in the history, and the write to the socket. */
  lemma ActivationAgrees(env: Env, k: Snapshot, toKernel: seq<(Channel, Message)>, step: Queue.Step, m: Message, channel: Channel, now: int)
    requires Agrees(env, k, toKernel) && Queue.Activates(k.queue, step) == Some(m) && Classify(m) == Execute
    requires channel == if step.Next? then Shell else m.channel
    ensures var sent := Encodes(env, m) && (step.Next? || HasSocket(m.channel));
            Agrees(env, DoHistory(DoQueue(k, step), Begin(m, now)), if sent then toKernel + [(channel, m)] else toKernel)
  {
    hide Classify;
    hide AfterRecord;
    hide AfterBegin;
    hide Bounded;
    hide Queue.Run;
    hide Encodes;
    hide Late;
    hide Notices;
    hide Dispatched;
    hide Executes;
    hide Begins;
    hide Queue.Activations;
    hide StatusSound;
    QueueGrows(env, k, step);
    HistoryGrows(DoQueue(k, step), Begin(m, now));
    ChangedSound(k, QueueChange(step));
    ChangedSound(DoQueue(k, step), HistoryChange(Begin(m, now)));
    SocketGrows(toKernel, channel, m);
  }

  lemma LateAgrees(env: Env, k: Snapshot, toKernel: seq<(Channel, Message)>, m: Message)
    requires Agrees(env, k, toKernel) && Classify(m) == Execute && Queue.Activates(k.queue, Queue.Submit(m)).None?
    ensures Agrees(env, Send(DoQueue(k, Queue.Submit(m)), ExecutionQueued(m.header.id)), toKernel)
  {
    hide Classify;
    hide Bounded;
    hide Queue.Run;
    hide Late;
    hide Notices;
    hide Dispatched;
    hide Executes;
    hide Begins;
    hide Queue.Activations;
    hide StatusSound;
    QueueGrows(env, k, Queue.Submit(m));
    ChangedSound(k, QueueChange(Queue.Submit(m)));
    ChangedSound(DoQueue(k, Queue.Submit(m)), KernelStates.Deliver(ExecutionQueued(m.header.id)));
    SentGrows(k.sent, ExecutionQueued(m.header.id));
  }

  lemma WriteAgrees(env: Env, k: Snapshot, toKernel: seq<(Channel, Message)>, m: Message)
    requires Agrees(env, k, toKernel) && Classify(m) != Execute
    ensures Agrees(env, k, toKernel + [(m.channel, m)])
  {
    hide Classify;
    SocketGrows(toKernel, m.channel, m);
  }

  lemma IdleAgrees(env: Env, s: State, now: int)
    requires Agrees(env, s.kernel, s.toKernel)
    ensures var t := AfterIdle(env, s, now).0;
            Agrees(env, t.kernel, t.toKernel)
  {
    hide Classify;
    hide Encodes;
    hide DoQueue;
    hide DoHistory;
    var next := Queue.Activates(s.kernel.queue, Queue.Next);
    if next.None? {
      QuietStepAgrees(env, s.kernel, s.toKernel, Queue.Next);
    } else {
      ActivationAgrees(env, s.kernel, s.toKernel, Queue.Next, next.value, Shell, now);
    }
  }

  lemma ForwardAgrees(env: Env, s: State, m: Message, now: int)
    requires Agrees(env, s.kernel, s.toKernel)
    ensures var t := Forward(env, s, m, now).0;
            Agrees(env, t.kernel, t.toKernel)
  {
    hide Agrees;
    hide AfterIdle;
    hide AfterStatus;
    hide RecordedAndSent;
    hide Classify;
    if Classify(m) == IdleStatus {
      var k := AfterStatus(s.kernel, Idle, Reason(m), now);
      StatusAgrees(env, s.kernel, s.toKernel, Idle, Reason(m), now);
      IdleAgrees(env, s.(kernel := k), now);
      var t := AfterIdle(env, s.(kernel := k), now).0;
      RecordAgrees(env, t.kernel, t.toKernel, m);
    } else {
      StatusAgrees(env, s.kernel, s.toKernel, Busy, Reason(m), now);
      RecordAgrees(env, s.kernel, s.toKernel, m);
      RecordAgrees(env, AfterStatus(s.kernel, Busy, Reason(m), now), s.toKernel, m);
    }
  }

  lemma {:induction false} FlushAgrees(env: Env, s: State, frames: seq<Frames>, now: int)
    requires Agrees(env, s.kernel, s.toKernel)
    ensures var t := Flush(env, s, frames, now);
            Agrees(env, t.kernel, t.toKernel)
  {
    hide Agrees;
    hide Forward;
    hide Decode;
    if |frames| > 0 {
      var front, last := frames[..|frames| - 1], frames[|frames| - 1];
      FlushAgrees(env, s, front, now);
      var m := Decode(env, IOPub, last);
      if m.Ok? {
        ForwardAgrees(env, Flush(env, s, front, now), m.value, now);
      }
    }
  }

  lemma ClientAgrees(env: Env, s: State, m: Message, now: int)
    requires Agrees(env, s.kernel, s.toKernel)
    ensures var t := FromTheClient(env, s, m, now);
            Agrees(env, t.kernel, t.toKernel)
  {
    hide Agrees;
    hide Classify;
    hide Encodes;
    hide DoQueue;
    hide DoHistory;
    if Classify(m) == Execute {
      if Queue.Activates(s.kernel.queue, Queue.Submit(m)).None? {
        LateAgrees(env, s.kernel, s.toKernel, m);
      } else {
        ActivationAgrees(env, s.kernel, s.toKernel, Queue.Submit(m), m, m.channel, now);
      }
    } else {
      WriteAgrees(env, s.kernel, s.toKernel, m);
      QuietStepAgrees(env, s.kernel, s.toKernel, Queue.Clear);
      WriteAgrees(env, DoQueue(s.kernel, Queue.Clear), s.toKernel, m);
    }
  }

  lemma StepAgrees(env: Env, s: State, step: Step)
    requires Agrees(env, s.kernel, s.toKernel)
    ensures var t := After(env, s, step);
            Agrees(env, t.kernel, t.toKernel)
  {
    hide Agrees;
    hide Flush;
    hide FromTheClient;
    hide Forward;
    hide Decode;
    hide AfterStatus;
    hide DoQueue;
    match step {
      case Connect(infoId) => WriteAgrees(env, s.kernel, s.toKernel, InfoRequest(infoId));
      case Listen(now) => FlushAgrees(env, s, s.held, now);
      case FromClient(m, now) => ClientAgrees(env, s, m, now);
      case FromKernel(channel, frames, now) =>
        var noted := if channel.IOPub? then s.(received := s.received + [(frames, s.Now())]) else s;
        if Decode(env, channel, frames).Ok? {
          ForwardAgrees(env, noted, Decode(env, channel, frames).value, now);
        }
      case Status(next, reason, now) => StatusAgrees(env, s.kernel, s.toKernel, next, reason, now);
      case Withdraw(id) => QuietStepAgrees(env, s.kernel, s.toKernel, Queue.Remove(id));
      case Kill => QuietStepAgrees(env, s.kernel, s.toKernel, Queue.Clear);
      case Close =>
    }
  }

  /** For every run: the requests begun in the history are exactly the queue's activations in
      order, each request not activated on arrival is announced as queued exactly once, the
      execute requests written to the kernel are exactly the activations that can be written, and
      the status, its times and the published statuses stay consistent. */
  lemma {:induction false} EveryRunAgrees(env: Env, start: int, steps: seq<Step>)
    ensures Agrees(env, Run(env, start, steps).kernel, Run(env, start, steps).toKernel)
  {
    if |steps| > 0 {
      EveryRunAgrees(env, start, steps[..|steps| - 1]);
      StepAgrees(env, Run(env, start, steps[..|steps| - 1]), steps[|steps| - 1]);
    }
  }

  /** So the queue's books balance in every run of the proxy, and describe its queue. */
  lemma EveryRunBalances(env: Env, start: int, steps: seq<Step>)
    ensures var k := Run(env, start, steps).kernel;
            Queue.Sound(Queue.Book(k.steps)) && Queue.Book(k.steps).Queue() == k.queue
  {
    hide Run;
    var k := Run(env, start, steps).kernel;
    EveryRunAgrees(env, start, steps);
    Queue.EveryRunBalances(k.steps);
    Queue.LedgerIsQueue(k.steps);
  }

  // ---- The history shows the last activations.

  /** The identifiers of the requests that are not silent. */
  function Audible(requests: seq<Message>): (ids: seq<string>) {
    if |requests| == 0 then []
    else
      var m := requests[|requests| - 1];
      Audible(requests[..|requests| - 1]) + if IsSilent(m) then [] else [m.header.id]
  }

  lemma AudibleSnoc(requests: seq<Message>, m: Message)
    ensures Audible(requests + [m]) == Audible(requests) + (if IsSilent(m) then [] else [m.header.id])
  {
    hide IsSilent;
    assert (requests + [m])[..|requests|] == requests;
  }

  lemma {:induction false} StartsAreBegins(events: seq<Event>)
    ensures StartIds(events) == Audible(Begins(events))
  {
    hide IsSilent;
    hide Audible;
    if |events| == 0 {
      EmptyAudible();
    } else {
      var front, e := events[..|events| - 1], events[|events| - 1];
      StartsAreBegins(front);
      if e.Begin? {
        AudibleSnoc(Begins(front), e.request);
        assert StartIds(events) == StartIds(front) + (if IsSilent(e.request) then [] else [e.request.header.id]);
      } else {
        assert Begins(events) == Begins(front) && Starts(events) == Starts(front);
      }
    }
  }

  lemma EmptyAudible()
    ensures Audible([]) == []
  {
  }

  /** For every run, the history lists the last hundred activations that are not silent. */
  lemma HistoryShowsActivations(env: Env, start: int, steps: seq<Step>)
    ensures var k := Run(env, start, steps).kernel;
            var ids := Audible(Queue.Activations(Queue.EMPTY, k.steps));
            Ids(k.history) == ids[if |ids| < MAX_ENTRIES then 0 else |ids| - MAX_ENTRIES..]
  {
    hide Log;
    hide Holds;
    hide Bounded;
    hide Audible;
    hide Begins;
    hide Starts;
    hide Routed;
    hide StatusSound;
    hide AllExecute;
    hide Late;
    hide Dispatched;
    hide Executes;
    hide Notices;
    hide Queue.Run;
    hide Queue.Activations;
    hide Run;
    var k := Run(env, start, steps).kernel;
    EveryRunAgrees(env, start, steps);
    WindowOfLog(k.events);
    LogHolds(k.events);
    StartsAreBegins(k.events);
  }

  // ---- The proxy as the program runs it.

  lemma ConnectIs(env: Env, s: State, infoId: string)
    ensures After(env, s, Connect(infoId)) ==
              if s.phase.Stopped? then
                s.(phase := Waiting, infoId := infoId, toKernel := s.toKernel + [(Shell, InfoRequest(infoId))],
                   held := [], received := [], base := |s.kernel.sent|, queued := None, past := s.past + [s.Current()])
              else s
  {
  }

  lemma InfoRequestIsWritten(env: Env, s: State, infoId: string)
    ensures ToSocket(env, s, InfoRequest(infoId)) == s.(toKernel := s.toKernel + [(Shell, InfoRequest(infoId))])
  {
  }

  class ZmqWsProxy {
    const env: Env
    const state: KernelState
    var phase: Phase
    var infoId: string
    var toKernel: seq<(Channel, Message)>
    var held: seq<Frames>
    ghost var received: seq<(Frames, Arrival)>
    ghost var base: nat
    ghost var queued: Option<seq<Message>>
    ghost var past: seq<Link>

    ghost function View(): (s: State)
      reads this, state, state.queue, state.history, state.outbox
    {
      State(phase, infoId, state.View(), toKernel, held, received, base, queued, past)
    }

    constructor (env: Env, state: KernelState)
      ensures this.env == env && this.state == state
      ensures View() == State(Stopped, "", state.View(), [], [], [], 0, None, [])
    {
      this.env, this.state := env, state;
      phase, infoId, toKernel, held := Stopped, "", [], [];
      received, base, queued, past := [], 0, None, [];
    }

    /** `connect`, and the request sent by `get_kernel_info` */
    method Open(infoId: string)
      modifies this
      ensures View() == After(env, old(View()), Connect(infoId))
    {
      ConnectIs(env, View(), infoId);
      hide After;
      if phase.Stopped? {
        past := past + [View().Current()];
        phase, this.infoId, held := Waiting, infoId, [];
        received, base, queued := [], |state.outbox.sent|, None;
        InfoRequestIsWritten(env, View(), infoId);
        hide ToSocket;
        hide InfoRequest;
        Write(InfoRequest(infoId));
      }
    }

    /** The end of `wait_for_shell_reply` on a failing receive, and of the loop in `listen` */
    method Shut()
      requires phase.Waiting? || phase.Listening?
      modifies this`phase
      ensures View() == After(env, old(View()), Close)
    {
      phase := Stopped;
    }

    /** One turn of the loop in `wait_for_shell_reply` */
    method Await(channel: Channel, frames: Frames)
      modifies this`phase, this`held
      ensures View() == WhileWaiting(env, old(View()), channel, frames)
    {
      if channel.Shell? || channel.IOPub? {
        var decoded := Wire.ToJupyter(env.codec, frames, channel, env.connection.key);
        match decoded {
          case Err(_) => phase := Stopped;
          case Ok(m) =>
            if channel.Shell? {
              if m.Answers(infoId) { phase := Connected; }
            } else if !IsOurs(infoId, m) {
              held := held + [frames];
            }
        }
      }
    }

    /** The queue's turn in `forward_zmq`, after an idle status */
    method NextInQueue(now: int) returns (ok: bool)
      modifies this`toKernel, state, state.queue, state.history
      ensures (View(), ok) == AfterIdle(env, old(View()), now)
    {
      hide DoQueue;
      hide DoHistory;
      var next := state.Advance();
      ok := true;
      if next.Some? {
        state.BeginEntry(next.value, now);
        var wire := Wire.FromJupyter(env.codec, next.value, env.connection, "", "");
        if wire.Err? { return false; }
        toKernel := toKernel + [(Shell, next.value)];
      }
    }

    /** The end of `forward_zmq` */
    method RecordAndTell(m: Message)
      modifies state`events, state.history, state.outbox
      ensures View() == old(View()).(kernel := RecordedAndSent(old(View()).kernel, m))
    {
      hide DoHistory;
      if m.parent.Some? {
        state.RecordEntry(m);
      }
      state.Tell(Jupyter(m));
    }

    /** `forward_zmq` for a message that decodes */
    method ForwardMessage(m: Message, now: int) returns (ok: bool)
      modifies this`toKernel, state, state.queue, state.history, state.outbox
      ensures (View(), ok) == Forward(env, old(View()), m, now)
    {
      hide AfterIdle;
      hide AfterStatus;
      hide RecordedAndSent;
      hide Classify;
      var kind := Classify(m);
      if kind == BusyStatus {
        state.SetStatus(Busy, Reason(m), now);
      } else if kind == IdleStatus {
        state.SetStatus(Idle, Reason(m), now);
        ok := NextInQueue(now);
        if !ok { return; }
      }
      RecordAndTell(m);
      ok := true;
    }

    /** `forward_zmq` */
    method ForwardZmq(channel: Channel, frames: Frames, now: int) returns (ok: bool)
      modifies this`toKernel, state, state.queue, state.history, state.outbox
      ensures (View(), ok) == ForwardFrames(env, old(View()), channel, frames, now)
    {
      hide Forward;
      var decoded := Wire.ToJupyter(env.codec, frames, channel, env.connection.key);
      match decoded {
        case Err(e) => ok := !e.OutOfBounds?;
        case Ok(m) => ok := ForwardMessage(m, now);
      }
    }

    /** The flush at the start of `listen` */
    method StartListening(now: int)
      requires phase.Connected?
      modifies this, state, state.queue, state.history, state.outbox
      ensures View() == After(env, old(View()), Listen(now))
    {
      hide ForwardFrames;
      var frames := held;
      ghost var before := View();
      for i := 0 to |frames|
        invariant View() == Flush(env, before, frames[..i], now)
      {
        assert frames[..i + 1][..i] == frames[..i];
        var _ := ForwardZmq(IOPub, frames[i], now);
      }
      assert frames[..|frames|] == frames;
      phase := Listening;
      held := [];
      queued := Some(before.kernel.queue.pending);
    }

    /** `forward_ws` */
    method ForwardWs(m: Message, now: int)
      requires phase.Listening?
      modifies this`toKernel, this`phase, state, state.queue, state.history, state.outbox
      ensures View() == After(env, old(View()), FromClient(m, now))
    {
      hide DoQueue;
      hide DoHistory;
      hide Classify;
      var kind := Classify(m);
      if kind == Execute {
        var runs := state.Submit(m);
        if !runs {
          state.Tell(ExecutionQueued(m.header.id));
          return;
        }
        state.BeginEntry(m, now);
      } else if kind == Interrupt || kind == Shutdown {
        state.ClearQueue();
      }
      Write(m);
    }

    /** The end of `forward_ws` */
    method Write(m: Message)
      modifies this`toKernel, this`phase
      ensures View() == ToSocket(env, old(View()), m)
    {
      var wire := Wire.FromJupyter(env.codec, m, env.connection, "", "");
      if wire.Err? {
        phase := Stopped;
      } else if HasSocket(m.channel) {
        toKernel := toKernel + [(m.channel, m)];
      }
    }

    /** A frame received from one of the kernel's sockets */
    method Receive(channel: Channel, frames: Frames, now: int)
      requires phase.Waiting? || phase.Listening?
      modifies this, state, state.queue, state.history, state.outbox
      ensures View() == After(env, old(View()), FromKernel(channel, frames, now))
    {
      hide ForwardFrames;
      hide WhileWaiting;
      if channel.IOPub? {
        received := received + [(frames, View().Now())];
      }
      if phase.Waiting? {
        Await(channel, frames);
      } else {
        var ok := ForwardZmq(channel, frames, now);
        if !ok { phase := Stopped; }
      }
    }
  }
}

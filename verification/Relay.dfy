/**
  What the proxy does with every message, told from the message and the state alone: which kinds it
  knows, what ends the wait and the listening, what the queue is told, what is written to the
  kernel, what is recorded in the history, and what is sent to the client.
 */
module Relay {
  import opened Wrappers
  import opened Utf8
  import opened Messages
  import opened History
  import opened KernelStates
  import opened Proxy
  import opened Handover
  import Queue
  import Wire

  // ---- The kinds of messages.

  /** The only field a content has, under its name in an object or alone in a list. */
  ghost predicate HasOnly(content: Json, name: Text, v: Json) {
    content.Maps(name, v) || content == Array([v])
  }

  /** An execute request with code. */
  ghost predicate AsksToRun(m: Message) {
    m.header.kind == "execute_request" && exists code :: HasOnly(m.content, Ascii("code"), Str(code))
  }

  /** A status message with this execution state, as a string or as an object with a null. */
  ghost predicate Says(m: Message, state: string) {
    && m.header.kind == "status"
    && (|| HasOnly(m.content, Ascii("execution_state"), Str(Ascii(state)))
        || HasOnly(m.content, Ascii("execution_state"), Object([(Ascii(state), Null)])))
  }

  predicate AsksToStop(m: Message) {
    m.header.kind == "interrupt_request" || m.header.kind == "shutdown_request"
  }

  lemma OnlyFieldIs(content: Json, name: Text, v: Json)
    requires v != Null
    ensures OnlyField(content, name) == v <==> HasOnly(content, name, v)
  {
    hide Valid;
    FieldIs(content, name, v);
  }

  lemma VariantIs(content: Json, name: Text, state: Text)
    ensures VariantName(OnlyField(content, name)) == Some(state) <==>
              HasOnly(content, name, Str(state)) || HasOnly(content, name, Object([(state, Null)]))
  {
    hide Valid;
    hide OnlyField;
    hide HasOnly;
    OnlyFieldIs(content, name, Str(state));
    OnlyFieldIs(content, name, Object([(state, Null)]));
    var v := OnlyField(content, name);
    if v.Object? && |v.fields| == 1 && v.fields[0].1.Null? && v.fields[0].0 == state {
      assert v.fields == [(state, Null)];
    }
  }

  lemma CodeIs(content: Json)
    ensures OnlyField(content, Ascii("code")).Str? <==> exists code :: HasOnly(content, Ascii("code"), Str(code))
  {
    hide Valid;
    hide Ascii;
    hide HasOnly;
    hide OnlyField;
    var v := OnlyField(content, Ascii("code"));
    if v.Str? {
      OnlyFieldIs(content, Ascii("code"), Str(v.text));
    }
    forall code | HasOnly(content, Ascii("code"), Str(code))
      ensures v.Str?
    {
      OnlyFieldIs(content, Ascii("code"), Str(code));
    }
  }

  lemma StatesDiffer()
    ensures Ascii("busy") != Ascii("idle")
  {
    assert Ascii("busy")[0] != Ascii("idle")[0];
  }

  lemma StatusKinds(m: Message)
    ensures Classify(m) == BusyStatus <==> Says(m, "busy")
    ensures Classify(m) == IdleStatus <==> Says(m, "idle")
  {
    hide Valid;
    hide Ascii;
    hide OnlyField;
    hide VariantName;
    hide HasOnly;
    StatesDiffer();
    VariantIs(m.content, Ascii("execution_state"), Ascii("busy"));
    VariantIs(m.content, Ascii("execution_state"), Ascii("idle"));
  }

  lemma RequestKinds(m: Message)
    ensures Classify(m) == Execute <==> AsksToRun(m)
    ensures Classify(m) == Interrupt || Classify(m) == Shutdown <==> AsksToStop(m)
  {
    hide Valid;
    hide Ascii;
    hide OnlyField;
    hide VariantName;
    hide HasOnly;
    CodeIs(m.content);
  }

  /** The kinds the proxy tells apart, by the words that make them. */
  lemma KindsExactly(m: Message)
    ensures Classify(m) == Execute <==> AsksToRun(m)
    ensures Classify(m) == BusyStatus <==> Says(m, "busy")
    ensures Classify(m) == IdleStatus <==> Says(m, "idle")
    ensures Classify(m) == Interrupt || Classify(m) == Shutdown <==> AsksToStop(m)
  {
    hide Classify;
    hide AsksToRun;
    hide Says;
    hide AsksToStop;
    RequestKinds(m);
    StatusKinds(m);
  }

  /** Every buffer of the message decodes. */
  predicate BuffersDecode(env: Env, m: Message) {
    forall i :: 0 <= i < |m.buffers| ==> env.codec.decode64(m.buffers[i]).Some?
  }

  lemma EncodesExactly(env: Env, m: Message)
    ensures Encodes(env, m) <==> BuffersDecode(env, m)
  {
    Wire.DecodeAllExactly(env.codec, m.buffers);
  }

  predicate NamesSocket(m: Message) {
    m.channel == Shell || m.channel == Control || m.channel == Stdin
  }

  // ---- Frames.

  /** The state in which a frame is handled: it has been noted when it comes from IOPub. */
  function Noted(s: State, channel: Channel, frames: Frames): (t: State)
    ensures t.kernel == s.kernel && t.toKernel == s.toKernel && t.phase == s.phase
  {
    if channel.IOPub? then s.(received := s.received + [(frames, s.Now())]) else s
  }

  /** A frame changes the kernel's state and what is written to it only when a listening proxy
      forwards the message in it. */
  lemma FrameStep(env: Env, s: State, channel: Channel, frames: Frames, now: int)
    ensures var t, m := After(env, s, FromKernel(channel, frames, now)), Decode(env, channel, frames);
            if s.phase.Listening? && m.Ok? then
              var f := Forward(env, Noted(s, channel, frames), m.value, now).0;
              t.kernel == f.kernel && t.toKernel == f.toKernel
            else t.kernel == s.kernel && t.toKernel == s.toKernel
  {
    hide Decode;
    hide Forward;
    hide IsOurs;
  }

  // ---- What ends the wait.

  /** The frames are a message that answers the request. */
  predicate Replies(env: Env, infoId: string, frames: Frames) {
    match Decode(env, Shell, frames)
    case Ok(m) => m.parent.Some? && m.parent.value.id == infoId
    case Err(_) => false
  }

  /** A busy or idle status that answers the request. */
  ghost predicate IsOwnStatus(infoId: string, m: Message) {
    m.parent.Some? && m.parent.value.id == infoId && (Says(m, "busy") || Says(m, "idle"))
  }

  ghost predicate IsHeld(env: Env, infoId: string, channel: Channel, frames: Frames) {
    && channel == IOPub && Decode(env, IOPub, frames).Ok?
    && !IsOwnStatus(infoId, Decode(env, IOPub, frames).value)
  }

  /** A proxy that waits: only the reply to its own request on the shell socket ends the wait, an
      undecodable frame on the shell or IOPub socket ends the proxy, every IOPub message but the
      statuses of its own request is held, and nothing else happens. */
  lemma WaitEndsExactly(env: Env, s: State, channel: Channel, frames: Frames, now: int)
    requires s.phase.Waiting?
    ensures var t := After(env, s, FromKernel(channel, frames, now));
            && (t.phase.Connected? <==> channel == Shell && Replies(env, s.infoId, frames))
            && (t.phase.Stopped? <==> (channel == Shell || channel == IOPub) && Decode(env, channel, frames).Err?)
            && (t.phase.Connected? || t.phase.Stopped? || t.phase.Waiting?)
            && t.held == s.held + (if IsHeld(env, s.infoId, channel, frames) then [frames] else [])
            && t.kernel == s.kernel && t.toKernel == s.toKernel && t.infoId == s.infoId
  {
    hide Decode;
    hide Classify;
    hide Says;
    hide ForwardFrames;
    if Decode(env, IOPub, frames).Ok? {
      KindsExactly(Decode(env, IOPub, frames).value);
    }
  }

  predicate IsUp(s: State) {
    s.phase.Connected? || s.phase.Listening?
  }

  lemma UpStep(env: Env, s: State, step: Step)
    requires IsUp(After(env, s, step))
    ensures After(env, s, step).infoId == s.infoId
    ensures !IsUp(s) ==>
              s.phase.Waiting? && step.FromKernel? && step.channel == Shell && Replies(env, s.infoId, step.frames)
  {
    hide Decode;
    hide Forward;
    hide AfterStatus;
    hide DoQueue;
    hide DoHistory;
    hide Classify;
    hide Encodes;
    hide Flush;
    match step {
      case Listen(now) => FlushKeeps(env, s, s.held, now);
      case FromKernel(channel, frames, now) =>
        if s.phase.Waiting? {
          WaitEndsExactly(env, s, channel, frames, now);
        } else if s.phase.Listening? && Decode(env, channel, frames).Ok? {
          var noted := if channel.IOPub? then s.(received := s.received + [(frames, s.Now())]) else s;
          ForwardKeeps(env, noted, Decode(env, channel, frames).value, now);
        }
      case _ =>
    }
  }

  /** At step `j` the waiting proxy received the reply to its own request, and it has been up since. */
  ghost predicate AnsweredAt(env: Env, start: int, steps: seq<Step>, j: nat) {
    && j < |steps| && steps[j].FromKernel? && steps[j].channel == Shell
    && var before := Run(env, start, steps[..j]);
       && before.phase.Waiting? && Replies(env, before.infoId, steps[j].frames)
       && forall k :: j < k <= |steps| ==> IsUp(Run(env, start, steps[..k])) && Run(env, start, steps[..k]).infoId == before.infoId
  }

  lemma AnsweredStays(env: Env, start: int, steps: seq<Step>, j: nat)
    requires |steps| > 0 && AnsweredAt(env, start, steps[..|steps| - 1], j)
    requires IsUp(Run(env, start, steps))
    ensures AnsweredAt(env, start, steps, j)
  {
    hide After;
    hide Replies;
    var front := steps[..|steps| - 1];
    UpStep(env, Run(env, start, front), steps[|steps| - 1]);
    assert front[..|front|] == front && steps[..|steps|] == steps;
    assert forall k :: 0 <= k <= |front| ==> front[..k] == steps[..k];
    assert front[j] == steps[j];
  }

  /** In every run, a proxy that is connected or listens has received on the shell socket, since it
      connected, the reply to its own request. */
  lemma {:induction false} ListenerWasAnswered(env: Env, start: int, steps: seq<Step>)
    requires IsUp(Run(env, start, steps))
    ensures exists j :: AnsweredAt(env, start, steps, j)
  {
    hide After;
    hide AnsweredAt;
    if |steps| > 0 {
      var front, last := steps[..|steps| - 1], |steps| - 1;
      if IsUp(Run(env, start, front)) {
        ListenerWasAnswered(env, start, front);
        var j :| AnsweredAt(env, start, front, j);
        AnsweredStays(env, start, steps, j);
      } else {
        UpStep(env, Run(env, start, front), steps[last]);
        AnsweredNow(env, start, steps);
      }
    }
  }

  lemma AnsweredNow(env: Env, start: int, steps: seq<Step>)
    requires |steps| > 0 && IsUp(Run(env, start, steps))
    requires !IsUp(Run(env, start, steps[..|steps| - 1]))
    ensures AnsweredAt(env, start, steps, |steps| - 1)
  {
    hide After;
    hide Replies;
    UpStep(env, Run(env, start, steps[..|steps| - 1]), steps[|steps| - 1]);
    assert steps[..|steps|] == steps;
  }

  // ---- What ends the listening.

  /** The step ends a proxy that listens: it is closed; or a client's message that is to be written
      has a buffer that does not decode; or decoding a frame panics, or an idle's turn falls to a
      request that cannot be encoded. */
  ghost predicate Ends(env: Env, s: State, step: Step) {
    match step
    case Close => true
    case FromClient(m, _) => !BuffersDecode(env, m) && !(AsksToRun(m) && s.kernel.queue.active.Some?)
    case FromKernel(channel, frames, _) =>
      (match Decode(env, channel, frames)
       case Err(e) => e == Wire.OutOfBounds
       case Ok(m) => Says(m, "idle") && Fails(env, s.kernel.queue.pending, 0))
    case _ => false
  }

  lemma ForwardKeepsPhase(env: Env, s: State, m: Message, now: int)
    ensures Forward(env, s, m, now).0.phase == s.phase
  {
    hide Classify;
    hide Encodes;
    hide AfterStatus;
    hide RecordedAndSent;
  }

  /** The phase after every step. */
  lemma PhaseExactly(env: Env, s: State, step: Step)
    ensures s.phase.Listening? ==> After(env, s, step).phase == if Ends(env, s, step) then Stopped else Listening
    ensures s.phase.Stopped? ==> After(env, s, step).phase == if step.Connect? then Waiting else Stopped
    ensures s.phase.Connected? ==> After(env, s, step).phase == if step.Listen? then Listening else Connected
    ensures s.phase.Waiting? && !step.FromKernel? ==> After(env, s, step).phase == if step.Close? then Stopped else Waiting
  {
    hide Decode;
    hide Forward;
    hide AfterStatus;
    hide DoQueue;
    hide DoHistory;
    hide Classify;
    hide Encodes;
    hide BuffersDecode;
    hide Says;
    hide AsksToRun;
    hide Flush;
    hide Fails;
    match step {
      case FromClient(m, now) =>
        KindsExactly(m);
        EncodesExactly(env, m);
      case FromKernel(channel, frames, now) =>
        if s.phase.Listening? && Decode(env, channel, frames).Ok? {
          var m := Decode(env, channel, frames).value;
          var noted := if channel.IOPub? then s.(received := s.received + [(frames, s.Now())]) else s;
          KindsExactly(m);
          ForwardOutcome(env, noted, m, now);
          ForwardKeepsPhase(env, noted, m, now);
        }
      case _ =>
    }
  }

  // ---- What the queue is told.

  function Nexts(n: nat): (r: seq<Queue.Step>)
    ensures |r| == n && forall i :: 0 <= i < n ==> r[i] == Queue.Next
  {
    seq(n, i => Queue.Next)
  }

  ghost function ToldByClient(m: Message): (r: seq<Queue.Step>) {
    if AsksToRun(m) then [Queue.Submit(m)] else if AsksToStop(m) then [Queue.Clear] else []
  }

  /** A frame that decodes to an idle. */
  ghost predicate BringsIdle(env: Env, channel: Channel, frames: Frames) {
    match Decode(env, channel, frames)
    case Ok(m) => Says(m, "idle")
    case Err(_) => false
  }

  /** Execute requests are submitted; interrupts, shutdowns, kills and exits clear; every idle moves
      the queue on, held ones when the proxy begins to listen; and a withdrawal removes. */
  ghost function Told(env: Env, s: State, step: Step): (r: seq<Queue.Step>) {
    match step
    case Listen(_) => if s.phase.Connected? then Nexts(Idles(env, s.held)) else []
    case FromClient(m, _) => if s.phase.Listening? then ToldByClient(m) else []
    case FromKernel(channel, frames, _) =>
      if s.phase.Listening? && BringsIdle(env, channel, frames) then [Queue.Next] else []
    case Status(next, _, _) => if next == Exited && s.kernel.status != Exited then [Queue.Clear] else []
    case Withdraw(id) => [Queue.Remove(id)]
    case Kill => [Queue.Clear]
    case _ => []
  }

  lemma ForwardTells(env: Env, s: State, m: Message, now: int)
    ensures Forward(env, s, m, now).0.kernel.steps ==
              s.kernel.steps + if Classify(m) == IdleStatus then [Queue.Next] else []
  {
    hide Classify;
    hide Encodes;
    hide AfterRecord;
    hide AfterBegin;
    hide Queue.After;
    assert AfterStatus(s.kernel, Idle, Reason(m), now).steps == s.kernel.steps;
    assert AfterStatus(s.kernel, Busy, Reason(m), now).steps == s.kernel.steps;
  }

  lemma {:induction false} FlushTells(env: Env, s: State, frames: seq<Frames>, now: int)
    ensures Flush(env, s, frames, now).kernel.steps == s.kernel.steps + Nexts(Idles(env, frames))
  {
    hide Forward;
    hide Decode;
    hide Classify;
    if |frames| > 0 {
      var front, last := frames[..|frames| - 1], frames[|frames| - 1];
      FlushTells(env, s, front, now);
      if Decode(env, IOPub, last).Ok? {
        ForwardTells(env, Flush(env, s, front, now), Decode(env, IOPub, last).value, now);
      }
    }
  }

  lemma KindTells(env: Env, s: State, m: Message, now: int)
    ensures FromTheClient(env, s, m, now).kernel.steps ==
              s.kernel.steps + if Classify(m) == Execute then [Queue.Submit(m)]
                               else if Classify(m) == Interrupt || Classify(m) == Shutdown then [Queue.Clear] else []
  {
    hide Classify;
    hide Encodes;
    hide Queue.After;
    hide AfterBegin;
  }

  lemma ClientTells(env: Env, s: State, m: Message, now: int)
    ensures FromTheClient(env, s, m, now).kernel.steps == s.kernel.steps + ToldByClient(m)
  {
    hide Classify;
    hide AsksToRun;
    hide AsksToStop;
    hide FromTheClient;
    KindsExactly(m);
    KindTells(env, s, m, now);
  }

  lemma StepTells(env: Env, s: State, step: Step)
    ensures After(env, s, step).kernel.steps == s.kernel.steps + Told(env, s, step)
  {
    hide Decode;
    hide FromTheKernel;
    hide Forward;
    hide FromTheClient;
    hide ToldByClient;
    hide Classify;
    hide Says;
    hide Flush;
    hide Queue.After;
    match step {
      case Listen(now) => FlushTells(env, s, s.held, now);
      case FromClient(m, now) => ClientTells(env, s, m, now);
      case FromKernel(channel, frames, now) =>
        FrameStep(env, s, channel, frames, now);
        if Decode(env, channel, frames).Ok? {
          var m := Decode(env, channel, frames).value;
          KindsExactly(m);
          ForwardTells(env, Noted(s, channel, frames), m, now);
        }
      case _ =>
    }
  }

  ghost function AllTold(env: Env, start: int, steps: seq<Step>): (r: seq<Queue.Step>) {
    if |steps| == 0 then []
    else
      var front := steps[..|steps| - 1];
      AllTold(env, start, front) + Told(env, Run(env, start, front), steps[|steps| - 1])
  }

  /** In every run, the queue is what its own steps make of exactly what it was told. */
  lemma {:induction false} QueueIsTold(env: Env, start: int, steps: seq<Step>)
    ensures Run(env, start, steps).kernel.steps == AllTold(env, start, steps)
    ensures Run(env, start, steps).kernel.queue == Queue.Run(Queue.State(None, []), AllTold(env, start, steps))
  {
    hide After;
    hide Told;
    hide Queue.Run;
    if |steps| > 0 {
      QueueIsTold(env, start, steps[..|steps| - 1]);
      StepTells(env, Run(env, start, steps[..|steps| - 1]), steps[|steps| - 1]);
    }
    EveryRunAgrees(env, start, steps);
  }

  /** An interrupt or a shutdown request leaves nothing active and nothing waiting. */
  lemma StopClears(env: Env, s: State, m: Message, now: int)
    requires s.phase.Listening? && AsksToStop(m)
    ensures After(env, s, FromClient(m, now)).kernel.queue == Queue.State(None, [])
  {
    hide Encodes;
    hide AsksToRun;
    KindsExactly(m);
    hide Classify;
  }

  // ---- What is written to the kernel besides execute requests.

  function Others(toKernel: seq<(Channel, Message)>): (r: seq<(Channel, Message)>) {
    if |toKernel| == 0 then []
    else
      var last := toKernel[|toKernel| - 1];
      Others(toKernel[..|toKernel| - 1]) + if Classify(last.1) == Execute then [] else [last]
  }

  lemma OthersSnoc(toKernel: seq<(Channel, Message)>, channel: Channel, m: Message)
    ensures Others(toKernel + [(channel, m)]) == Others(toKernel) + if Classify(m) == Execute then [] else [(channel, m)]
  {
    hide Classify;
    assert (toKernel + [(channel, m)])[..|toKernel|] == toKernel;
  }

  /** The request for the kernel's info when the proxy connects; and a client's message that does not
      ask to run code, on the channel it names, when that has a socket and the buffers decode. */
  ghost function PassedBy(env: Env, s: State, step: Step): (r: seq<(Channel, Message)>) {
    match step
    case Connect(infoId) =>
      if s.phase.Stopped? then
        [(Shell, Message(Header(infoId, "kernel_info_request"), None, Shell, Object([]), Object([]), []))]
      else []
    case FromClient(m, _) =>
      if s.phase.Listening? && !AsksToRun(m) && BuffersDecode(env, m) && NamesSocket(m) then [(m.channel, m)] else []
    case _ => []
  }

  lemma ForwardPasses(env: Env, s: State, m: Message, now: int)
    requires AllExecute(s.kernel.queue.pending)
    ensures Others(Forward(env, s, m, now).0.toKernel) == Others(s.toKernel)
  {
    hide Classify;
    hide Encodes;
    hide AfterRecord;
    hide AfterBegin;
    hide Others;
    assert AfterStatus(s.kernel, Idle, Reason(m), now).queue == s.kernel.queue;
    if |s.kernel.queue.pending| > 0 {
      OthersSnoc(s.toKernel, Shell, s.kernel.queue.pending[0]);
    }
  }

  lemma {:induction false} FlushPasses(env: Env, s: State, frames: seq<Frames>, now: int)
    requires AllExecute(s.kernel.queue.pending)
    ensures Others(Flush(env, s, frames, now).toKernel) == Others(s.toKernel)
  {
    hide Forward;
    hide Decode;
    hide Classify;
    hide Others;
    if |frames| > 0 {
      var front, last := frames[..|frames| - 1], frames[|frames| - 1];
      FlushPasses(env, s, front, now);
      FlushTakes(env, s, front, now);
      if Decode(env, IOPub, last).Ok? {
        ForwardPasses(env, Flush(env, s, front, now), Decode(env, IOPub, last).value, now);
      }
    }
  }

  lemma ClientWrites(env: Env, s: State, m: Message, now: int)
    ensures FromTheClient(env, s, m, now).toKernel ==
              if Classify(m) == Execute && s.kernel.queue.active.Some? then s.toKernel else ToSocket(env, s, m).toKernel
  {
    hide Classify;
    hide Encodes;
    hide DoQueue;
    hide DoHistory;
  }

  lemma SocketPasses(env: Env, s: State, m: Message)
    ensures Others(ToSocket(env, s, m).toKernel) ==
              Others(s.toKernel) + if Classify(m) != Execute && Encodes(env, m) && NamesSocket(m) then [(m.channel, m)] else []
  {
    hide Classify;
    hide Encodes;
    hide Others;
    OthersSnoc(s.toKernel, m.channel, m);
  }

  lemma ClientPasses(env: Env, s: State, m: Message, now: int)
    requires s.phase.Listening?
    ensures Others(FromTheClient(env, s, m, now).toKernel) == Others(s.toKernel) + PassedBy(env, s, FromClient(m, now))
  {
    hide Classify;
    hide AsksToRun;
    hide Encodes;
    hide BuffersDecode;
    hide NamesSocket;
    hide Others;
    hide FromTheClient;
    hide ToSocket;
    KindsExactly(m);
    EncodesExactly(env, m);
    ClientWrites(env, s, m, now);
    SocketPasses(env, s, m);
  }

  lemma StepPasses(env: Env, s: State, step: Step)
    requires AllExecute(s.kernel.queue.pending)
    ensures Others(After(env, s, step).toKernel) == Others(s.toKernel) + PassedBy(env, s, step)
  {
    hide Decode;
    hide FromTheKernel;
    hide Forward;
    hide FromTheClient;
    hide BuffersDecode;
    hide AsksToRun;
    hide Flush;
    hide Others;
    hide AfterStatus;
    hide DoQueue;
    hide AllExecute;
    match step {
      case Connect(infoId) => OthersSnoc(s.toKernel, Shell, InfoRequest(infoId));
      case Listen(now) => FlushPasses(env, s, s.held, now);
      case FromClient(m, now) => if s.phase.Listening? { ClientPasses(env, s, m, now); }
      case FromKernel(channel, frames, now) =>
        FrameStep(env, s, channel, frames, now);
        if Decode(env, channel, frames).Ok? {
          ForwardPasses(env, Noted(s, channel, frames), Decode(env, channel, frames).value, now);
        }
      case _ =>
    }
  }

  ghost function Passed(env: Env, start: int, steps: seq<Step>): (r: seq<(Channel, Message)>) {
    if |steps| == 0 then []
    else
      var front := steps[..|steps| - 1];
      Passed(env, start, front) + PassedBy(env, Run(env, start, front), steps[|steps| - 1])
  }

  /** In every run, what is written to the kernel besides execute requests is exactly the proxy's own
      requests and the client's other messages that can be written, in order, each on its channel. */
  lemma {:induction false} OthersArePassed(env: Env, start: int, steps: seq<Step>)
    ensures Others(Run(env, start, steps).toKernel) == Passed(env, start, steps)
  {
    hide After;
    hide PassedBy;
    if |steps| > 0 {
      var front := steps[..|steps| - 1];
      OthersArePassed(env, start, front);
      EveryRunAgrees(env, start, front);
      StepPasses(env, Run(env, start, front), steps[|steps| - 1]);
    }
  }

  // ---- What is recorded.

  function Recordings(events: seq<Event>): (r: seq<Message>) {
    if |events| == 0 then []
    else
      var e := events[|events| - 1];
      Recordings(events[..|events| - 1]) + if e.Record? then [e.message] else []
  }

  /** The messages sent to the client that answer a request. */
  function Answers(sent: seq<ClientMessage>): (r: seq<Message>) {
    if |sent| == 0 then []
    else
      var m := sent[|sent| - 1];
      Answers(sent[..|sent| - 1]) + if m.Jupyter? && m.message.parent.Some? then [m.message] else []
  }

  ghost predicate RecordsMatch(k: Snapshot) {
    Recordings(k.events) == Answers(k.sent)
  }

  lemma RecordingsSnoc(events: seq<Event>, e: Event)
    ensures Recordings(events + [e]) == Recordings(events) + if e.Record? then [e.message] else []
  {
    assert (events + [e])[..|events|] == events;
  }

  lemma AnswersSnoc(sent: seq<ClientMessage>, m: ClientMessage)
    ensures Answers(sent + [m]) == Answers(sent) + if m.Jupyter? && m.message.parent.Some? then [m.message] else []
  {
    assert (sent + [m])[..|sent|] == sent;
  }

  lemma RecordedAndSentMatches(k: Snapshot, m: Message)
    requires RecordsMatch(k)
    ensures RecordsMatch(RecordedAndSent(k, m))
  {
    hide Recordings;
    hide Answers;
    hide AfterRecord;
    RecordingsSnoc(k.events, Record(m));
    AnswersSnoc(k.sent, Jupyter(m));
  }

  lemma StatusMatches(k: Snapshot, next: Status, reason: Option<string>, now: int)
    requires RecordsMatch(k)
    ensures RecordsMatch(AfterStatus(k, next, reason, now))
  {
    hide Recordings;
    hide Answers;
    hide Queue.After;
    AnswersSnoc(k.sent, StatusChanged(next, reason));
  }

  lemma QueueMatches(k: Snapshot, step: Queue.Step)
    requires RecordsMatch(k)
    ensures RecordsMatch(DoQueue(k, step))
  {
    hide Recordings;
    hide Answers;
    hide Queue.After;
  }

  lemma BeginMatches(k: Snapshot, step: Queue.Step, m: Message, now: int)
    requires RecordsMatch(k)
    ensures RecordsMatch(DoQueue(k, step)) && RecordsMatch(DoHistory(DoQueue(k, step), Begin(m, now)))
  {
    hide Recordings;
    hide Answers;
    hide Queue.After;
    hide AfterBegin;
    RecordingsSnoc(k.events, Begin(m, now));
  }

  lemma ForwardMatches(env: Env, s: State, m: Message, now: int)
    requires RecordsMatch(s.kernel)
    ensures RecordsMatch(Forward(env, s, m, now).0.kernel)
  {
    hide Classify;
    hide Encodes;
    hide AfterStatus;
    hide RecordedAndSent;
    hide DoQueue;
    hide DoHistory;
    hide RecordsMatch;
    var k := AfterStatus(s.kernel, Idle, Reason(m), now);
    StatusMatches(s.kernel, Idle, Reason(m), now);
    StatusMatches(s.kernel, Busy, Reason(m), now);
    BeginMatches(k, Queue.Next, if |k.queue.pending| > 0 then k.queue.pending[0] else m, now);
    RecordedAndSentMatches(s.kernel, m);
    RecordedAndSentMatches(AfterStatus(s.kernel, Busy, Reason(m), now), m);
    RecordedAndSentMatches(AfterIdle(env, s.(kernel := k), now).0.kernel, m);
  }

  lemma {:induction false} FlushMatches(env: Env, s: State, frames: seq<Frames>, now: int)
    requires RecordsMatch(s.kernel)
    ensures RecordsMatch(Flush(env, s, frames, now).kernel)
  {
    hide Forward;
    hide Decode;
    hide RecordsMatch;
    if |frames| > 0 {
      var front, last := frames[..|frames| - 1], frames[|frames| - 1];
      FlushMatches(env, s, front, now);
      if Decode(env, IOPub, last).Ok? {
        ForwardMatches(env, Flush(env, s, front, now), Decode(env, IOPub, last).value, now);
      }
    }
  }

  lemma ClientMatches(env: Env, s: State, m: Message, now: int)
    requires RecordsMatch(s.kernel)
    ensures RecordsMatch(FromTheClient(env, s, m, now).kernel)
  {
    hide Classify;
    hide Encodes;
    hide DoQueue;
    hide DoHistory;
    BeginMatches(s.kernel, Queue.Submit(m), m, now);
    BeginMatches(s.kernel, Queue.Clear, m, now);
    AnswersSnoc(DoQueue(s.kernel, Queue.Submit(m)).sent, ExecutionQueued(m.header.id));
    hide Recordings;
    hide Answers;
  }

  lemma StepMatches(env: Env, s: State, step: Step)
    requires RecordsMatch(s.kernel)
    ensures RecordsMatch(After(env, s, step).kernel)
  {
    hide Decode;
    hide FromTheKernel;
    hide Forward;
    hide FromTheClient;
    hide InfoRequest;
    hide Noted;
    hide Flush;
    hide AfterStatus;
    hide RecordsMatch;
    hide DoQueue;
    match step {
      case Listen(now) => FlushMatches(env, s, s.held, now);
      case FromClient(m, now) => ClientMatches(env, s, m, now);
      case FromKernel(channel, frames, now) =>
        FrameStep(env, s, channel, frames, now);
        if Decode(env, channel, frames).Ok? {
          ForwardMatches(env, Noted(s, channel, frames), Decode(env, channel, frames).value, now);
        }
      case Status(next, reason, now) => StatusMatches(s.kernel, next, reason, now);
      case Withdraw(id) => QueueMatches(s.kernel, Queue.Remove(id));
      case Kill => QueueMatches(s.kernel, Queue.Clear);
      case _ =>
    }
  }

  /** In every run, the messages recorded in the history are exactly those sent to the client that
      answer a request, in order. */
  lemma {:induction false} AnswersAreRecorded(env: Env, start: int, steps: seq<Step>)
    ensures var k := Run(env, start, steps).kernel; Recordings(k.events) == Answers(k.sent)
  {
    hide After;
    if |steps| > 0 {
      AnswersAreRecorded(env, start, steps[..|steps| - 1]);
      StepMatches(env, Run(env, start, steps[..|steps| - 1]), steps[|steps| - 1]);
    }
  }

  // ---- What is sent to the client.

  function JupyterSent(sent: seq<ClientMessage>): (r: seq<Message>) {
    if |sent| == 0 then []
    else
      var m := sent[|sent| - 1];
      JupyterSent(sent[..|sent| - 1]) + if m.Jupyter? then [m.message] else []
  }

  lemma JupyterSentSnoc(sent: seq<ClientMessage>, m: ClientMessage)
    ensures JupyterSent(sent + [m]) == JupyterSent(sent) + if m.Jupyter? then [m.message] else []
  {
    assert (sent + [m])[..|sent|] == sent;
  }

  /** The held messages when the proxy begins to listen, and then every message that decodes, from
      whatever socket; without the idles whose turn falls to a request that cannot be encoded. */
  ghost function RelayedBy(env: Env, s: State, step: Step): (r: seq<Message>) {
    match step
    case Listen(_) => if s.phase.Connected? then Forwarded(env, s.held, s.kernel.queue.pending) else []
    case FromKernel(channel, frames, _) =>
      if !s.phase.Listening? then []
      else
        (match Decode(env, channel, frames)
         case Err(_) => []
         case Ok(m) => if Says(m, "idle") && Fails(env, s.kernel.queue.pending, 0) then [] else [m])
    case _ => []
  }

  lemma ForwardRelays(env: Env, s: State, m: Message, now: int)
    ensures var (t, ok) := Forward(env, s, m, now);
            JupyterSent(t.kernel.sent) == JupyterSent(s.kernel.sent) + if ok then [m] else []
  {
    hide Classify;
    hide Encodes;
    hide AfterRecord;
    hide AfterBegin;
    hide Queue.After;
    hide JupyterSent;
    JupyterSentSnoc(s.kernel.sent, StatusChanged(Idle, Reason(m)));
    JupyterSentSnoc(s.kernel.sent, StatusChanged(Busy, Reason(m)));
    JupyterSentSnoc(s.kernel.sent, Jupyter(m));
    JupyterSentSnoc(s.kernel.sent + [StatusChanged(Idle, Reason(m))], Jupyter(m));
    JupyterSentSnoc(s.kernel.sent + [StatusChanged(Busy, Reason(m))], Jupyter(m));
  }

  lemma {:induction false} FlushRelays(env: Env, s: State, frames: seq<Frames>, now: int)
    ensures JupyterSent(Flush(env, s, frames, now).kernel.sent) ==
              JupyterSent(s.kernel.sent) + Forwarded(env, frames, s.kernel.queue.pending)
  {
    hide Forward;
    hide Decode;
    hide Classify;
    hide Fails;
    hide JupyterSent;
    if |frames| > 0 {
      var front, last := frames[..|frames| - 1], frames[|frames| - 1];
      FlushRelays(env, s, front, now);
      FlushTakes(env, s, front, now);
      RestSteps(env, s.kernel.queue.pending, Idles(env, front));
      if Decode(env, IOPub, last).Ok? {
        var t, m := Flush(env, s, front, now), Decode(env, IOPub, last).value;
        ForwardRelays(env, t, m, now);
        ForwardOutcome(env, t, m, now);
      }
    }
  }

  lemma QuietRelays(env: Env, s: State, step: Step)
    requires step.FromClient? || step.Status?
    ensures JupyterSent(After(env, s, step).kernel.sent) == JupyterSent(s.kernel.sent)
  {
    hide Classify;
    hide Encodes;
    hide Queue.After;
    hide AfterBegin;
    hide JupyterSent;
    match step {
      case FromClient(m, now) => JupyterSentSnoc(s.kernel.sent, ExecutionQueued(m.header.id));
      case Status(next, reason, now) => JupyterSentSnoc(s.kernel.sent, StatusChanged(next, reason));
    }
  }

  lemma StepRelays(env: Env, s: State, step: Step)
    ensures JupyterSent(After(env, s, step).kernel.sent) == JupyterSent(s.kernel.sent) + RelayedBy(env, s, step)
  {
    hide Decode;
    hide FromTheKernel;
    hide Forward;
    hide Classify;
    hide Says;
    hide Fails;
    hide Flush;
    hide JupyterSent;
    match step {
      case Listen(now) => FlushRelays(env, s, s.held, now);
      case FromClient(_, _) => QuietRelays(env, s, step);
      case Status(_, _, _) => QuietRelays(env, s, step);
      case FromKernel(channel, frames, now) =>
        FrameStep(env, s, channel, frames, now);
        if Decode(env, channel, frames).Ok? {
          var m := Decode(env, channel, frames).value;
          var noted := Noted(s, channel, frames);
          KindsExactly(m);
          ForwardRelays(env, noted, m, now);
          ForwardOutcome(env, noted, m, now);
        }
      case _ =>
    }
  }

  ghost function Relayed(env: Env, start: int, steps: seq<Step>): (r: seq<Message>) {
    if |steps| == 0 then []
    else
      var front := steps[..|steps| - 1];
      Relayed(env, start, front) + RelayedBy(env, Run(env, start, front), steps[|steps| - 1])
  }

  /** In every run, the client is sent exactly the kernel's messages from all sockets, in order. */
  lemma {:induction false} EverythingIsRelayed(env: Env, start: int, steps: seq<Step>)
    ensures JupyterSent(Run(env, start, steps).kernel.sent) == Relayed(env, start, steps)
  {
    hide After;
    hide RelayedBy;
    if |steps| > 0 {
      EverythingIsRelayed(env, start, steps[..|steps| - 1]);
      StepRelays(env, Run(env, start, steps[..|steps| - 1]), steps[|steps| - 1]);
    }
  }

  // ---- What the status follows.

  /** The status a kernel in `before` has after it is said to be `next`. */
  function Follows(before: Status, next: Status): (s: Status) {
    if before == Exited then Exited else next
  }

  lemma StatusIsAnnounced(k: Snapshot, next: Status, reason: Option<string>, now: int)
    requires next == Idle || next == Busy
    ensures var r := AfterStatus(k, next, reason, now);
            && r.status == Follows(k.status, next)
            && Announced(r.sent) == Announced(k.sent) + if r.status == k.status then [] else [(r.status, reason)]
  {
    hide Announced;
    AnnouncedSnoc(k.sent, StatusChanged(next, reason));
  }

  lemma RecordingKeepsStatus(k: Snapshot, m: Message)
    ensures RecordedAndSent(k, m).status == k.status && Announced(RecordedAndSent(k, m).sent) == Announced(k.sent)
  {
    hide Announced;
    hide AfterRecord;
    AnnouncedSnoc(k.sent, Jupyter(m));
  }

  lemma NextKeepsStatus(env: Env, s: State, now: int)
    ensures var k := AfterIdle(env, s, now).0.kernel; k.status == s.kernel.status && k.sent == s.kernel.sent
  {
    hide Encodes;
    hide AfterBegin;
    hide Queue.After;
  }

  /** A forwarded busy makes the kernel busy and a forwarded idle makes it idle, unless it has exited;
      the change is announced with the kind of the message answered; nothing else changes the status. */
  lemma StatusFollowsKernel(env: Env, s: State, m: Message, now: int)
    ensures var k := Forward(env, s, m, now).0.kernel;
            var next := if Says(m, "busy") then Follows(s.kernel.status, Busy)
                        else if Says(m, "idle") then Follows(s.kernel.status, Idle) else s.kernel.status;
            && k.status == next
            && Announced(k.sent) == Announced(s.kernel.sent) +
                 if next == s.kernel.status then []
                 else [(next, if m.parent.Some? then Some(m.parent.value.kind) else None)]
  {
    hide Classify;
    hide Says;
    hide Announced;
    hide AfterStatus;
    hide AfterIdle;
    hide RecordedAndSent;
    hide Follows;
    KindsExactly(m);
    var idle, busy := AfterStatus(s.kernel, Idle, Reason(m), now), AfterStatus(s.kernel, Busy, Reason(m), now);
    StatusIsAnnounced(s.kernel, Idle, Reason(m), now);
    StatusIsAnnounced(s.kernel, Busy, Reason(m), now);
    NextKeepsStatus(env, s.(kernel := idle), now);
    RecordingKeepsStatus(AfterIdle(env, s.(kernel := idle), now).0.kernel, m);
    RecordingKeepsStatus(busy, m);
    RecordingKeepsStatus(s.kernel, m);
  }

  /** So it is for every frame a listening proxy receives. */
  lemma StatusFollowsFrames(env: Env, s: State, channel: Channel, frames: Frames, now: int)
    requires s.phase.Listening? && Decode(env, channel, frames).Ok?
    ensures var m, before := Decode(env, channel, frames).value, s.kernel.status;
            var after := After(env, s, FromKernel(channel, frames, now)).kernel.status;
            && (Says(m, "busy") ==> after == if before == Exited then Exited else Busy)
            && (Says(m, "idle") ==> after == if before == Exited then Exited else Idle)
            && (!Says(m, "busy") && !Says(m, "idle") ==> after == before)
  {
    hide Decode;
    hide Forward;
    hide After;
    hide Says;
    hide Announced;
    var m := Decode(env, channel, frames).value;
    FrameStep(env, s, channel, frames, now);
    StatusFollowsKernel(env, Noted(s, channel, frames), m, now);
    BusyIsNotIdle(m);
  }

  lemma BusyIsNotIdle(m: Message)
    ensures !(Says(m, "busy") && Says(m, "idle"))
  {
    hide Says;
    hide Classify;
    KindsExactly(m);
  }

  // ---- In which order.

  /** What a change to `next` announces. */
  function Announcement(before: Status, next: Status, m: Message): (r: seq<ClientMessage>) {
    if Follows(before, next) == before then []
    else [StatusChanged(next, if m.parent.Some? then Some(m.parent.value.kind) else None)]
  }

  /** What a forwarded message announces: the status it says. */
  ghost function Announces(before: Status, m: Message): (r: seq<ClientMessage>) {
    if Says(m, "busy") then Announcement(before, Busy, m)
    else if Says(m, "idle") then Announcement(before, Idle, m)
    else []
  }

  /** The request an idle begins: the first that waits. */
  ghost function BegunBy(pending: seq<Message>, m: Message, now: int): (r: seq<Event>) {
    if Says(m, "idle") && |pending| > 0 then [Begin(pending[0], now)] else []
  }

  lemma KindOrder(env: Env, s: State, m: Message, now: int)
    ensures var (t, ok) := Forward(env, s, m, now);
            var before, pending := s.kernel.status, s.kernel.queue.pending;
            var idle, busy := Classify(m) == IdleStatus, Classify(m) == BusyStatus;
            && t.kernel.sent == s.kernel.sent
                 + (if busy then Announcement(before, Busy, m) else if idle then Announcement(before, Idle, m) else [])
                 + (if ok then [Jupyter(m)] else [])
            && t.kernel.events == s.kernel.events
                 + (if idle && |pending| > 0 then [Begin(pending[0], now)] else [])
                 + (if ok && m.parent.Some? then [Record(m)] else [])
  {
    hide Classify;
    hide Encodes;
    hide AfterRecord;
    hide AfterBegin;
  }

  /** A message changes the status before it reaches the client, and begins the next request before
      it is recorded itself. */
  lemma ForwardOrder(env: Env, s: State, m: Message, now: int)
    ensures var (t, ok) := Forward(env, s, m, now);
            && t.kernel.sent == s.kernel.sent + Announces(s.kernel.status, m) + (if ok then [Jupyter(m)] else [])
            && t.kernel.events == s.kernel.events + BegunBy(s.kernel.queue.pending, m, now)
                 + (if ok && m.parent.Some? then [Record(m)] else [])
  {
    hide Classify;
    hide Says;
    hide Forward;
    hide Announcement;
    KindsExactly(m);
    BusyIsNotIdle(m);
    KindOrder(env, s, m, now);
  }

  lemma ClientKindOrder(env: Env, s: State, m: Message, now: int)
    ensures var k, run, active := FromTheClient(env, s, m, now).kernel, Classify(m) == Execute, s.kernel.queue.active.Some?;
            && k.events == s.kernel.events + (if run && !active then [Begin(m, now)] else [])
            && k.sent == s.kernel.sent + (if run && active then [ExecutionQueued(m.header.id)] else [])
  {
    hide Classify;
    hide Encodes;
    hide AfterBegin;
    hide Queue.After;
  }

  /** A client's execute request is begun now when nothing is active, and announced as queued when
      something is; no other message of the client does either. */
  lemma ClientOrder(env: Env, s: State, m: Message, now: int)
    requires s.phase.Listening?
    ensures var k := After(env, s, FromClient(m, now)).kernel;
            var active := s.kernel.queue.active.Some?;
            && k.events == s.kernel.events + (if AsksToRun(m) && !active then [Begin(m, now)] else [])
            && k.sent == s.kernel.sent + (if AsksToRun(m) && active then [ExecutionQueued(m.header.id)] else [])
  {
    hide Classify;
    hide AsksToRun;
    hide FromTheClient;
    KindsExactly(m);
    ClientKindOrder(env, s, m, now);
  }
}

/**
  What the client receives of the IOPub frames: those held while the proxy waits for its
  kernel_info reply, those that come while it listens, and those it loses when it ends.
 */
module Handover {
  import opened Wrappers
  import opened Utf8
  import opened Messages
  import opened KernelStates
  import opened Proxy
  import opened History
  import Queue
  import Wire

  /** The IOPub messages among what was sent to the client. */
  function IopubSent(sent: seq<ClientMessage>): (r: seq<Message>) {
    if |sent| == 0 then []
    else
      var m := sent[|sent| - 1];
      IopubSent(sent[..|sent| - 1]) + if m.Jupyter? && m.message.channel.IOPub? then [m.message] else []
  }

  /** What was delivered since the proxy connected. */
  function Delivered(s: State): (r: seq<Message>)
    requires s.base <= |s.kernel.sent|
  {
    IopubSent(s.kernel.sent[s.base..])
  }

  // ---- What the client is owed, and what reaches it.

  /** What a frame brings the client. */
  function ContentOf(env: Env, frames: Frames): (r: seq<Message>) {
    match Decode(env, IOPub, frames)
    case Ok(m) => [m]
    case Err(_) => []
  }

  predicate IsIdle(env: Env, frames: Frames) {
    match Decode(env, IOPub, frames)
    case Ok(m) => Classify(m) == IdleStatus
    case Err(_) => false
  }

  /** A frame that was received before the reply, and discarded as a status for the proxy's own
      request. */
  predicate Discarded(env: Env, infoId: string, frames: Frames, arrival: Arrival) {
    match Decode(env, IOPub, frames)
    case Ok(m) => arrival.Early? && IsOurs(infoId, m)
    case Err(_) => false
  }

  /** What a received frame owes the client: its message, unless it does not decode or was
      discarded. */
  function Due(env: Env, infoId: string, frames: Frames, arrival: Arrival): (r: seq<Message>) {
    if Discarded(env, infoId, frames, arrival) then [] else ContentOf(env, frames)
  }

  function Owed(env: Env, infoId: string, received: seq<(Frames, Arrival)>): (r: seq<Message>) {
    if |received| == 0 then []
    else
      var (frames, arrival) := received[|received| - 1];
      Owed(env, infoId, received[..|received| - 1]) + Due(env, infoId, frames, arrival)
  }

  /** An idle that was held until the proxy listened. */
  predicate IsHeldIdle(env: Env, infoId: string, frames: Frames, arrival: Arrival) {
    arrival.Early? && IsIdle(env, frames) && !Discarded(env, infoId, frames, arrival)
  }

  function HeldIdles(env: Env, infoId: string, received: seq<(Frames, Arrival)>): (n: nat) {
    if |received| == 0 then 0
    else
      var (frames, arrival) := received[|received| - 1];
      HeldIdles(env, infoId, received[..|received| - 1]) + if IsHeldIdle(env, infoId, frames, arrival) then 1 else 0
  }

  /** The request that waits in this place cannot be encoded. */
  predicate Fails(env: Env, queued: seq<Message>, place: nat) {
    place < |queued| && !Encodes(env, queued[place])
  }

  /** An idle that came while the proxy listened, and whose turn fell to a request that cannot be
      encoded: forwarding it failed, which ended the proxy. */
  predicate IsFatal(env: Env, frames: Frames, arrival: Arrival) {
    arrival.Live? && IsIdle(env, frames) && Fails(env, arrival.waiting, 0)
  }

  /** A held idle activates the request in its own place among those that waited when the proxy
      began to listen, a live one the first that waits. It is lost when that request fails. */
  predicate IsLost(env: Env, infoId: string, front: seq<(Frames, Arrival)>, frames: Frames, arrival: Arrival, queued: seq<Message>) {
    || (IsHeldIdle(env, infoId, frames, arrival) && Fails(env, queued, HeldIdles(env, infoId, front)))
    || IsFatal(env, frames, arrival)
  }

  /** What is owed, less each idle that is lost. */
  function Reaching(env: Env, infoId: string, received: seq<(Frames, Arrival)>, queued: seq<Message>): (r: seq<Message>) {
    if |received| == 0 then []
    else
      var front, (frames, arrival) := received[..|received| - 1], received[|received| - 1];
      Reaching(env, infoId, front, queued) +
      if IsLost(env, infoId, front, frames, arrival, queued) then [] else Due(env, infoId, frames, arrival)
  }

  lemma ReceivedGrows(env: Env, infoId: string, received: seq<(Frames, Arrival)>, frames: Frames, arrival: Arrival)
    ensures var more := received + [(frames, arrival)];
            && Owed(env, infoId, more) == Owed(env, infoId, received) + Due(env, infoId, frames, arrival)
            && HeldIdles(env, infoId, more) ==
                 HeldIdles(env, infoId, received) + (if IsHeldIdle(env, infoId, frames, arrival) then 1 else 0)
  {
    hide Due;
    hide IsHeldIdle;
    assert (received + [(frames, arrival)])[..|received|] == received;
  }

  lemma ReachingGrows(env: Env, infoId: string, received: seq<(Frames, Arrival)>, frames: Frames, arrival: Arrival, queued: seq<Message>)
    ensures Reaching(env, infoId, received + [(frames, arrival)], queued) == Reaching(env, infoId, received, queued) +
              if IsLost(env, infoId, received, frames, arrival, queued) then [] else Due(env, infoId, frames, arrival)
  {
    hide Due;
    hide IsLost;
    assert (received + [(frames, arrival)])[..|received|] == received;
  }

  /** No request that a held idle activates fails. */
  predicate AllSucceed(env: Env, queued: seq<Message>, idles: nat) {
    forall place: nat :: place < idles ==> !Fails(env, queued, place)
  }

  predicate NoneFatal(env: Env, received: seq<(Frames, Arrival)>) {
    forall i :: 0 <= i < |received| ==> !IsFatal(env, received[i].0, received[i].1)
  }

  lemma IdleIsDue(env: Env, infoId: string, frames: Frames, arrival: Arrival)
    ensures IsHeldIdle(env, infoId, frames, arrival) ==> |Due(env, infoId, frames, arrival)| == 1
    ensures IsFatal(env, frames, arrival) ==> |Due(env, infoId, frames, arrival)| == 1
    ensures !(IsHeldIdle(env, infoId, frames, arrival) && IsFatal(env, frames, arrival))
  {
    hide Decode;
    hide Classify;
    hide Fails;
  }

  /** All that is owed reaches the client exactly when no idle's activation fails. */
  lemma {:induction false} ReachingIsOwed(env: Env, infoId: string, received: seq<(Frames, Arrival)>, queued: seq<Message>)
    ensures |Reaching(env, infoId, received, queued)| <= |Owed(env, infoId, received)|
    ensures Reaching(env, infoId, received, queued) == Owed(env, infoId, received)
            <==> AllSucceed(env, queued, HeldIdles(env, infoId, received)) && NoneFatal(env, received)
  {
    hide Fails;
    hide IsHeldIdle;
    hide IsFatal;
    hide Due;
    if |received| > 0 {
      var front := received[..|received| - 1];
      var (frames, arrival) := received[|received| - 1];
      ReachingIsOwed(env, infoId, front, queued);
      IdleIsDue(env, infoId, frames, arrival);
      Cancels(Reaching(env, infoId, front, queued), Owed(env, infoId, front), Due(env, infoId, frames, arrival));
      assert NoneFatal(env, received) <==> NoneFatal(env, front) && !IsFatal(env, frames, arrival);
    }
  }

  lemma Cancels<T>(a: seq<T>, b: seq<T>, c: seq<T>)
    ensures a + c == b + c <==> a == b
  {
    if a + c == b + c {
      assert a == (a + c)[..|a|] == (b + c)[..|b|] == b;
    }
  }

  // ---- The handover as an invariant.

  /** The idles among the held frames. */
  function Idles(env: Env, frames: seq<Frames>): (n: nat) {
    if |frames| == 0 then 0
    else Idles(env, frames[..|frames| - 1]) + if IsIdle(env, frames[|frames| - 1]) then 1 else 0
  }

  /** The contents of the held frames, less each idle whose own activation fails. */
  function Forwarded(env: Env, frames: seq<Frames>, queued: seq<Message>): (r: seq<Message>) {
    if |frames| == 0 then []
    else
      var front, last := frames[..|frames| - 1], frames[|frames| - 1];
      Forwarded(env, front, queued) +
      if IsIdle(env, last) && Fails(env, queued, Idles(env, front)) then [] else ContentOf(env, last)
  }

  lemma HeldGrows(env: Env, held: seq<Frames>, frames: Frames, queued: seq<Message>)
    ensures Idles(env, held + [frames]) == Idles(env, held) + (if IsIdle(env, frames) then 1 else 0)
    ensures Forwarded(env, held + [frames], queued) == Forwarded(env, held, queued) +
              if IsIdle(env, frames) && Fails(env, queued, Idles(env, held)) then [] else ContentOf(env, frames)
  {
    hide IsIdle;
    hide ContentOf;
    hide Fails;
    assert (held + [frames])[..|held|] == held;
  }

  /** The held frames stand for what was received, whatever will wait in the queue. */
  ghost predicate Mirrors(env: Env, held: seq<Frames>, infoId: string, received: seq<(Frames, Arrival)>) {
    && Idles(env, held) == HeldIdles(env, infoId, received)
    && forall queued :: Forwarded(env, held, queued) == Reaching(env, infoId, received, queued)
  }

  /** What reaches the client over a connection: nothing unless the proxy began to listen. */
  function Reach(env: Env, link: Link): (r: seq<Message>) {
    match link.queued
    case None => []
    case Some(queued) => Reaching(env, link.infoId, link.received, queued)
  }

  function Reached(env: Env, links: seq<Link>): (r: seq<Message>) {
    if |links| == 0 then [] else Reached(env, links[..|links| - 1]) + Reach(env, links[|links| - 1])
  }

  /** The last frame received ended the proxy. */
  predicate EndsFatally(env: Env, received: seq<(Frames, Arrival)>) {
    |received| > 0 && IsFatal(env, received[|received| - 1].0, received[|received| - 1].1)
  }

  /** Only the last frame received can have ended the proxy. */
  predicate FatalIsLast(env: Env, received: seq<(Frames, Arrival)>) {
    |received| > 0 ==> NoneFatal(env, received[..|received| - 1])
  }

  ghost predicate PastSound(env: Env, past: seq<Link>) {
    forall i :: 0 <= i < |past| ==> FatalIsLast(env, past[i].received)
  }

  /** Whatever the phase, what was delivered since the proxy connected is what reaches the client
      over this connection, and what was delivered before is what reached it over the earlier ones. */
  ghost predicate HandsOver(env: Env, s: State) {
    && s.base <= |s.kernel.sent|
    && Delivered(s) == Reach(env, s.Current())
    && IopubSent(s.kernel.sent[..s.base]) == Reached(env, s.past)
    && FatalIsLast(env, s.received) && PastSound(env, s.past)
    && (s.phase.Waiting? || s.phase.Connected? ==>
          s.queued.None? && NoneFatal(env, s.received) && Mirrors(env, s.held, s.infoId, s.received))
    && (s.phase.Listening? ==> s.queued.Some? && NoneFatal(env, s.received))
  }

  /** The client has been sent `more` IOPub messages, and nothing else of the proxy changed
      except its phase and what it wrote to the kernel. */
  ghost predicate Sends(s: State, t: State, more: seq<Message>) {
    && s.base <= |s.kernel.sent| <= |t.kernel.sent|
    && t.base == s.base && t.Current() == s.Current() && t.held == s.held && t.past == s.past
    && t.kernel.sent[..s.base] == s.kernel.sent[..s.base]
    && Delivered(t) == Delivered(s) + more
  }

  lemma SendOne(s: State, k: Snapshot, m: ClientMessage)
    requires s.base <= |s.kernel.sent| && k.sent == s.kernel.sent + [m]
    ensures Sends(s, s.(kernel := k), if m.Jupyter? && m.message.channel.IOPub? then [m.message] else [])
  {
    var tail := k.sent[s.base..];
    assert tail[..|tail| - 1] == s.kernel.sent[s.base..];
  }

  lemma SendsTogether(s: State, t: State, u: State, first: seq<Message>, second: seq<Message>)
    requires Sends(s, t, first) && Sends(t, u, second)
    ensures Sends(s, u, first + second)
  {
  }

  lemma StatusSends(s: State, next: Status, reason: Option<string>, now: int)
    requires s.base <= |s.kernel.sent|
    ensures Sends(s, s.(kernel := AfterStatus(s.kernel, next, reason, now)), [])
  {
    if Dropped(s.kernel.status, next) {
      assert s.(kernel := AfterStatus(s.kernel, next, reason, now)) == s;
    } else {
      SendOne(s, AfterStatus(s.kernel, next, reason, now), StatusChanged(next, reason));
    }
  }

  lemma DeliverSends(s: State, m: Message)
    requires s.base <= |s.kernel.sent|
    ensures Sends(s, s.(kernel := RecordedAndSent(s.kernel, m)), if m.channel.IOPub? then [m] else [])
  {
    SendOne(s, RecordedAndSent(s.kernel, m), Jupyter(m));
  }

  /** A forwarded message reaches the client once, unless forwarding fails. */
  lemma ForwardSends(env: Env, s: State, m: Message, now: int)
    requires s.base <= |s.kernel.sent|
    ensures var (t, ok) := Forward(env, s, m, now);
            Sends(s, t, if ok && m.channel.IOPub? then [m] else []) && t.phase == s.phase
  {
    hide AfterStatus;
    hide RecordedAndSent;
    hide Delivered;
    hide Classify;
    hide Encodes;
    if Classify(m) == IdleStatus {
      var k := AfterStatus(s.kernel, Idle, Reason(m), now);
      var a := s.(kernel := k);
      StatusSends(s, Idle, Reason(m), now);
      var t := AfterIdle(env, a, now).0;
      IdleSends(env, a, now);
      DeliverSends(t, m);
      SendsTogether(s, a, t, [], []);
      SendsTogether(s, t, t.(kernel := RecordedAndSent(t.kernel, m)), [], if m.channel.IOPub? then [m] else []);
    } else {
      var a := s.(kernel := AfterStatus(s.kernel, Busy, Reason(m), now));
      StatusSends(s, Busy, Reason(m), now);
      DeliverSends(a, m);
      DeliverSends(s, m);
      SendsTogether(s, a, a.(kernel := RecordedAndSent(a.kernel, m)), [], if m.channel.IOPub? then [m] else []);
    }
  }

  lemma IdleSends(env: Env, s: State, now: int)
    requires s.base <= |s.kernel.sent|
    ensures Sends(s, AfterIdle(env, s, now).0, [])
  {
    assert AfterIdle(env, s, now).0.kernel.sent == s.kernel.sent;
  }

  lemma DecodedChannel(env: Env, channel: Channel, frames: Frames)
    ensures var r := Decode(env, channel, frames);
            r.Ok? ==> r.value.channel == channel
  {
    hide Wire.CheckSignature;
    hide Wire.FindDelimiter;
    hide Wire.ParseParent;
    hide Ascii;
  }

  // ---- The flush.

  /** The requests left after the first `n`. */
  function Rest(pending: seq<Message>, n: nat): (r: seq<Message>) {
    if n < |pending| then pending[n..] else []
  }

  lemma RestSteps(env: Env, pending: seq<Message>, n: nat)
    ensures Rest(Rest(pending, n), 1) == Rest(pending, n + 1)
    ensures Fails(env, Rest(pending, n), 0) <==> Fails(env, pending, n)
  {
    hide Encodes;
  }

  /** Forwarding a message fails exactly for an idle whose turn falls to a request that cannot be
      encoded. Every idle takes a request from the queue, nothing else does. */
  lemma ForwardOutcome(env: Env, s: State, m: Message, now: int)
    ensures var (t, ok) := Forward(env, s, m, now);
            var idle := Classify(m) == IdleStatus;
            && (ok <==> !(idle && Fails(env, s.kernel.queue.pending, 0)))
            && t.kernel.queue.pending == Rest(s.kernel.queue.pending, if idle then 1 else 0)
  {
    hide Classify;
    hide Encodes;
    hide AfterRecord;
    hide AfterBegin;
    assert AfterStatus(s.kernel, Idle, Reason(m), now).queue == s.kernel.queue;
    assert AfterStatus(s.kernel, Busy, Reason(m), now).queue == s.kernel.queue;
  }

  lemma {:induction false} FlushTakes(env: Env, s: State, frames: seq<Frames>, now: int)
    ensures Flush(env, s, frames, now).kernel.queue.pending == Rest(s.kernel.queue.pending, Idles(env, frames))
  {
    hide Forward;
    hide Decode;
    hide Classify;
    if |frames| > 0 {
      var front, last := frames[..|frames| - 1], frames[|frames| - 1];
      FlushTakes(env, s, front, now);
      RestSteps(env, s.kernel.queue.pending, Idles(env, front));
      if Decode(env, IOPub, last).Ok? {
        ForwardOutcome(env, Flush(env, s, front, now), Decode(env, IOPub, last).value, now);
      }
    }
  }

  /** The flush delivers the contents of the held frames in order, less exactly the idles whose
      activation fails. */
  lemma {:induction false} FlushSends(env: Env, s: State, frames: seq<Frames>, now: int)
    requires s.base <= |s.kernel.sent|
    ensures Sends(s, Flush(env, s, frames, now), Forwarded(env, frames, s.kernel.queue.pending))
  {
    hide Forward;
    hide Decode;
    hide Delivered;
    hide Classify;
    hide Fails;
    if |frames| > 0 {
      var front, last := frames[..|frames| - 1], frames[|frames| - 1];
      FlushSends(env, s, front, now);
      FlushTakes(env, s, front, now);
      RestSteps(env, s.kernel.queue.pending, Idles(env, front));
      DecodedChannel(env, IOPub, last);
      if Decode(env, IOPub, last).Ok? {
        var t, m := Flush(env, s, front, now), Decode(env, IOPub, last).value;
        ForwardSends(env, t, m, now);
        ForwardOutcome(env, t, m, now);
      }
    }
  }

  // ---- Every step hands over.

  lemma FatalGrows(env: Env, received: seq<(Frames, Arrival)>, frames: Frames, arrival: Arrival)
    requires NoneFatal(env, received)
    ensures var more := received + [(frames, arrival)];
            && FatalIsLast(env, more)
            && (EndsFatally(env, more) <==> IsFatal(env, frames, arrival))
            && (NoneFatal(env, more) <==> !IsFatal(env, frames, arrival))
  {
    hide IsFatal;
    var more := received + [(frames, arrival)];
    assert more[..|more| - 1] == received;
    assert more[|more| - 1] == (frames, arrival);
    assert forall i :: 0 <= i < |received| ==> more[i] == received[i];
  }

  lemma WaitingHandsOver(env: Env, s: State, channel: Channel, frames: Frames, now: int)
    requires HandsOver(env, s) && s.phase.Waiting?
    ensures HandsOver(env, FromTheKernel(env, s, channel, frames, now))
  {
    hide Decode;
    hide IsOurs;
    hide ForwardFrames;
    hide NoneFatal;
    hide FatalIsLast;
    hide PastSound;
    hide Reached;
    FatalGrows(env, s.received, frames, Early);
    if channel.IOPub? && Decode(env, IOPub, frames).Ok? {
      MirrorsGrow(env, s.held, s.infoId, s.received, frames);
      hide Mirrors;
    }
  }

  lemma MirrorsGrow(env: Env, held: seq<Frames>, infoId: string, received: seq<(Frames, Arrival)>, frames: Frames)
    requires Mirrors(env, held, infoId, received) && Decode(env, IOPub, frames).Ok?
    ensures Mirrors(env, if Discarded(env, infoId, frames, Early) then held else held + [frames], infoId, received + [(frames, Early)])
  {
    hide Decode;
    hide Classify;
    hide IsOurs;
    hide Fails;
    var left := if Discarded(env, infoId, frames, Early) then held else held + [frames];
    ReceivedGrows(env, infoId, received, frames, Early);
    forall queued
      ensures Forwarded(env, left, queued) == Reaching(env, infoId, received + [(frames, Early)], queued)
    {
      HeldGrows(env, held, frames, queued);
      ReachingGrows(env, infoId, received, frames, Early, queued);
      assert Forwarded(env, held, queued) == Reaching(env, infoId, received, queued);
    }
    HeldGrows(env, held, frames, []);
  }

  /** A frame from IOPub adds what it owes to what was delivered, unless it ends the proxy. */
  lemma LiveFrameSends(env: Env, s: State, channel: Channel, frames: Frames, now: int)
    requires s.base <= |s.kernel.sent|
    ensures var (t, ok) := ForwardFrames(env, s, channel, frames, now);
            var arrival := Live(s.kernel.queue.pending);
            && (channel.IOPub? && IsFatal(env, frames, arrival) ==> !ok)
            && Sends(s, t, if !channel.IOPub? || IsFatal(env, frames, arrival) then [] else Due(env, s.infoId, frames, arrival))
            && t.phase == s.phase
  {
    hide Forward;
    hide Decode;
    hide Classify;
    hide Fails;
    hide Delivered;
    DecodedChannel(env, channel, frames);
    if Decode(env, channel, frames).Ok? {
      ForwardSends(env, s, Decode(env, channel, frames).value, now);
      ForwardOutcome(env, s, Decode(env, channel, frames).value, now);
    } else {
      QuietSends(s, s);
    }
  }

  lemma ListeningHandsOver(env: Env, s: State, channel: Channel, frames: Frames, now: int)
    requires HandsOver(env, s) && s.phase.Listening?
    ensures HandsOver(env, FromTheKernel(env, s, channel, frames, now))
  {
    hide ForwardFrames;
    hide WhileWaiting;
    hide Reaching;
    hide Reached;
    hide IsFatal;
    hide Due;
    hide IsHeldIdle;
    hide NoneFatal;
    hide FatalIsLast;
    hide PastSound;
    var noted := if channel.IOPub? then s.(received := s.received + [(frames, s.Now())]) else s;
    assert Delivered(noted) == Delivered(s);
    LiveFrameSends(env, noted, channel, frames, now);
    if channel.IOPub? {
      FatalGrows(env, s.received, frames, s.Now());
      ReachingGrows(env, s.infoId, s.received, frames, s.Now(), s.queued.value);
      LiveIsNotHeld(env, s.infoId, frames, s.Now());
    }
  }

  lemma LiveIsNotHeld(env: Env, infoId: string, frames: Frames, arrival: Arrival)
    requires arrival.Live?
    ensures !IsHeldIdle(env, infoId, frames, arrival)
  {
  }

  /** Apart from a notice that a request is queued, a client message sends the client nothing. */
  lemma ClientSends(env: Env, s: State, m: Message, now: int)
    requires s.base <= |s.kernel.sent|
    ensures var t := FromTheClient(env, s, m, now);
            Sends(s, t, []) && (t.phase == s.phase || t.phase.Stopped?)
  {
    hide Classify;
    hide Encodes;
    hide Queue.After;
    hide AfterBegin;
    hide Delivered;
    var t := FromTheClient(env, s, m, now);
    if t.kernel.sent == s.kernel.sent {
      QuietSends(s, t);
    } else {
      SendOne(s, t.kernel, ExecutionQueued(m.header.id));
    }
  }

  lemma QuietSends(s: State, t: State)
    requires s.base <= |s.kernel.sent|
    requires t.kernel.sent == s.kernel.sent && t.base == s.base && t.Current() == s.Current()
    requires t.held == s.held && t.past == s.past
    ensures Sends(s, t, [])
  {
  }

  lemma ListenHandsOver(env: Env, s: State, now: int)
    requires HandsOver(env, s) && s.phase.Connected?
    ensures HandsOver(env, After(env, s, Listen(now)))
  {
    hide Flush;
    hide Reaching;
    hide Reached;
    hide Forwarded;
    hide NoneFatal;
    hide FatalIsLast;
    hide PastSound;
    FlushSends(env, s, s.held, now);
  }

  lemma {:induction false} IopubSentConcat(a: seq<ClientMessage>, b: seq<ClientMessage>)
    ensures IopubSent(a + b) == IopubSent(a) + IopubSent(b)
    decreases |b|
  {
    if |b| == 0 {
      assert a + b == a;
    } else {
      assert (a + b)[..|a + b| - 1] == a + b[..|b| - 1];
      IopubSentConcat(a, b[..|b| - 1]);
    }
  }

  lemma ReachedSnoc(env: Env, links: seq<Link>, link: Link)
    ensures Reached(env, links + [link]) == Reached(env, links) + Reach(env, link)
  {
    hide Reach;
    assert (links + [link])[..|links|] == links;
  }

  /** Over all its connections, the client was sent what reaches it over each in turn. */
  lemma AllDelivered(env: Env, s: State)
    requires HandsOver(env, s)
    ensures IopubSent(s.kernel.sent) == Reached(env, s.past + [s.Current()])
  {
    hide IopubSent;
    hide Reached;
    hide Reach;
    hide Mirrors;
    hide FatalIsLast;
    hide PastSound;
    hide NoneFatal;
    assert s.kernel.sent == s.kernel.sent[..s.base] + s.kernel.sent[s.base..];
    IopubSentConcat(s.kernel.sent[..s.base], s.kernel.sent[s.base..]);
    ReachedSnoc(env, s.past, s.Current());
  }

  lemma ConnectHandsOver(env: Env, s: State, infoId: string)
    requires HandsOver(env, s)
    ensures HandsOver(env, After(env, s, Connect(infoId)))
  {
    hide Reached;
    hide IsFatal;
    if s.phase.Stopped? {
      AllDelivered(env, s);
      assert FatalIsLast(env, s.Current().received);
      assert Mirrors(env, [], infoId, []);
      assert s.kernel.sent[..|s.kernel.sent|] == s.kernel.sent;
    }
  }

  lemma StepHandsOver(env: Env, s: State, step: Step)
    requires HandsOver(env, s)
    ensures HandsOver(env, After(env, s, step))
  {
    hide FromTheClient;
    hide FromTheKernel;
    hide AfterStatus;
    hide Mirrors;
    hide Flush;
    hide Reach;
    hide Reached;
    hide NoneFatal;
    hide FatalIsLast;
    hide PastSound;
    match step {
      case Connect(infoId) => ConnectHandsOver(env, s, infoId);
      case Listen(now) => if s.phase.Connected? { ListenHandsOver(env, s, now); }
      case FromClient(m, now) => ClientSends(env, s, m, now);
      case FromKernel(channel, frames, now) =>
        if s.phase.Waiting? { WaitingHandsOver(env, s, channel, frames, now); }
        if s.phase.Listening? { ListeningHandsOver(env, s, channel, frames, now); }
      case Status(next, reason, now) => StatusSends(s, next, reason, now);
      case Withdraw(_) =>
      case Kill =>
      case Close =>
    }
  }

  /** The handover, in every run and every state, ended proxies included. The IOPub messages
      delivered since the proxy connected are none when it has not begun to listen. Otherwise they
      are those received, in order and once each, without the frames that do not decode, without
      the early busy and idle statuses of the proxy's own request, and without exactly the idles
      whose turn fell to a request that cannot be encoded. */
  lemma {:induction false} StartupHandover(env: Env, start: int, steps: seq<Step>)
    ensures HandsOver(env, Run(env, start, steps))
  {
    if |steps| > 0 {
      StartupHandover(env, start, steps[..|steps| - 1]);
      StepHandsOver(env, Run(env, start, steps[..|steps| - 1]), steps[|steps| - 1]);
    }
  }

  // ---- What is missed.

  /** Held frames may still be delivered while the proxy waits to listen. */
  predicate IsSettled(s: State) {
    s.phase.Listening? || s.phase.Stopped?
  }

  /** A proxy that listens or has ended has not sent the client just what it is owed since it
      connected, in order and once each. */
  ghost predicate Misses(env: Env, s: State) {
    IsSettled(s) && s.base <= |s.kernel.sent| && Delivered(s) != Owed(env, s.infoId, s.received)
  }

  /** The proxy began to listen, and no idle activated a request that cannot be encoded: neither
      one held at the start nor the last one received. */
  predicate Succeeds(env: Env, link: Link) {
    && link.queued.Some?
    && AllSucceed(env, link.queued.value, HeldIdles(env, link.infoId, link.received))
    && !EndsFatally(env, link.received)
  }

  predicate IsExact(env: Env, link: Link) {
    var owed := Owed(env, link.infoId, link.received);
    Reach(env, link) == owed <==> owed == [] || Succeeds(env, link)
  }

  /** All that a connection owes reaches the client exactly when nothing is owed or it succeeds. */
  lemma ReachExactly(env: Env, link: Link)
    requires FatalIsLast(env, link.received)
    ensures IsExact(env, link)
  {
    hide AllSucceed;
    hide Owed;
    hide Reaching;
    hide HeldIdles;
    hide IsFatal;
    if link.queued.Some? {
      ReachingIsOwed(env, link.infoId, link.received, link.queued.value);
      LastDecides(env, link.received);
    }
  }

  lemma LastDecides(env: Env, received: seq<(Frames, Arrival)>)
    requires FatalIsLast(env, received)
    ensures NoneFatal(env, received) <==> !EndsFatally(env, received)
  {
    hide IsFatal;
    if |received| > 0 {
      var front := received[..|received| - 1];
      assert forall i :: 0 <= i < |front| ==> received[i] == front[i];
    }
  }

  /** In every run, a proxy that listens or has ended misses something exactly when it owes
      something and did not succeed. */
  lemma MissesExactly(env: Env, start: int, steps: seq<Step>)
    requires IsSettled(Run(env, start, steps))
    ensures var s := Run(env, start, steps);
            && s.base <= |s.kernel.sent|
            && (Misses(env, s) <==> Owed(env, s.infoId, s.received) != [] && !Succeeds(env, s.Current()))
  {
    hide Run;
    hide Succeeds;
    hide Owed;
    hide Reach;
    hide FatalIsLast;
    hide NoneFatal;
    var s := Run(env, start, steps);
    StartupHandover(env, start, steps);
    ReachExactly(env, s.Current());
  }

  /** So for every run the client's whole IOPub stream is what reached it over each connection, and
      over each it was sent all it was owed exactly when it was owed nothing or the connection
      succeeded. */
  lemma ClientStream(env: Env, start: int, steps: seq<Step>)
    ensures var s := Run(env, start, steps);
            var links := s.past + [s.Current()];
            && IopubSent(s.kernel.sent) == Reached(env, links)
            && forall i :: 0 <= i < |links| ==> IsExact(env, links[i])
  {
    hide Run;
    hide IopubSent;
    hide Reached;
    hide Reach;
    hide Mirrors;
    hide FatalIsLast;
    hide NoneFatal;
    hide IsExact;
    var s := Run(env, start, steps);
    var links := s.past + [s.Current()];
    StartupHandover(env, start, steps);
    AllDelivered(env, s);
    forall i | 0 <= i < |links|
      ensures IsExact(env, links[i])
    {
      assert FatalIsLast(env, links[i].received);
      ReachExactly(env, links[i]);
    }
  }

  /** While it listens, only what the flush lost is missed. */
  lemma ListeningMissesExactly(env: Env, start: int, steps: seq<Step>)
    requires Run(env, start, steps).phase.Listening?
    ensures var s := Run(env, start, steps);
            && s.queued.Some?
            && (Misses(env, s) <==> !AllSucceed(env, s.queued.value, HeldIdles(env, s.infoId, s.received)))
  {
    hide Run;
    hide AllSucceed;
    hide Owed;
    hide HeldIdles;
    hide Reaching;
    hide FatalIsLast;
    hide PastSound;
    hide NoneFatal;
    var s := Run(env, start, steps);
    StartupHandover(env, start, steps);
    ReachingIsOwed(env, s.infoId, s.received, s.queued.value);
  }

  /** The same before the fact: what the flush loses is decided by the held idles and by the
      requests that wait when the proxy begins to listen. Each of the idles takes one request. */
  lemma ListenLosesExactly(env: Env, start: int, steps: seq<Step>, now: int)
    requires Run(env, start, steps).phase.Connected?
    ensures var s := Run(env, start, steps);
            var t := After(env, s, Listen(now));
            && t.phase.Listening? && t.base <= |t.kernel.sent|
            && (Misses(env, t) <==> !AllSucceed(env, s.kernel.queue.pending, Idles(env, s.held)))
            && t.kernel.queue.pending == Rest(s.kernel.queue.pending, Idles(env, s.held))
  {
    hide Run;
    hide AllSucceed;
    hide Flush;
    hide Rest;
    hide Reached;
    hide NoneFatal;
    hide FatalIsLast;
    hide PastSound;
    var s := Run(env, start, steps);
    StartupHandover(env, start, steps);
    ListenHandsOver(env, s, now);
    FlushSends(env, s, s.held, now);
    FlushTakes(env, s, s.held, now);
    ReachingIsOwed(env, s.infoId, s.received, s.kernel.queue.pending);
  }

  lemma EarlyEndKeeps(env: Env, s: State, step: Step)
    requires s.phase.Waiting? && After(env, s, step).phase.Stopped?
    ensures var t := After(env, s, step);
            && t.kernel == s.kernel && t.base == s.base && t.infoId == s.infoId && t.queued == s.queued
            && (|| t.received == s.received
                || (step.FromKernel? && t.received == s.received + [(step.frames, Early)] && Decode(env, IOPub, step.frames).Err?))
  {
    hide Decode;
    hide AfterStatus;
    hide IsOurs;
  }

  lemma BadOwesNothing(env: Env, infoId: string, received: seq<(Frames, Arrival)>, frames: Frames)
    requires Decode(env, IOPub, frames).Err?
    ensures Owed(env, infoId, received + [(frames, Early)]) == Owed(env, infoId, received)
  {
    hide Decode;
    hide Owed;
    ReceivedGrows(env, infoId, received, frames, Early);
  }

  /** A proxy that ends while it waits loses everything it was holding: whatever ended it, all that
      is owed is missed. */
  lemma EarlyEndLosesAll(env: Env, start: int, steps: seq<Step>, step: Step)
    requires var s := Run(env, start, steps); s.phase.Waiting? && After(env, s, step).phase.Stopped?
    ensures var s := Run(env, start, steps);
            var t := After(env, s, step);
            && t.base <= |t.kernel.sent| && Delivered(t) == []
            && Owed(env, t.infoId, t.received) == Owed(env, s.infoId, s.received)
            && (Misses(env, t) <==> Owed(env, s.infoId, s.received) != [])
  {
    hide Run;
    hide After;
    hide Decode;
    hide Owed;
    hide IopubSent;
    hide FatalIsLast;
    hide PastSound;
    hide NoneFatal;
    hide Mirrors;
    hide Reached;
    var s := Run(env, start, steps);
    StartupHandover(env, start, steps);
    EarlyEndKeeps(env, s, step);
    if step.FromKernel? && Decode(env, IOPub, step.frames).Err? {
      BadOwesNothing(env, s.infoId, s.received, step.frames);
    }
  }

  // ---- When nothing is lost.

  predicate AllEncode(env: Env, requests: seq<Message>) {
    forall i :: 0 <= i < |requests| ==> Encodes(env, requests[i])
  }

  predicate LiveIntact(env: Env, received: seq<(Frames, Arrival)>) {
    forall i :: 0 <= i < |received| && received[i].1.Live? ==> AllEncode(env, received[i].1.waiting)
  }

  /** Nothing fails that waits, or waited when the proxy began to listen or received a frame. */
  ghost predicate Intact(env: Env, s: State) {
    && AllEncode(env, s.kernel.queue.pending)
    && (s.queued.Some? ==> AllEncode(env, s.queued.value))
    && LiveIntact(env, s.received)
  }

  lemma {:induction false} WithoutEncodes(env: Env, pending: seq<Message>, id: string)
    requires AllEncode(env, pending)
    ensures AllEncode(env, Queue.Without(pending, id))
  {
    hide Encodes;
    if |pending| > 0 {
      WithoutEncodes(env, pending[..|pending| - 1], id);
    }
  }

  lemma QueueEncodes(env: Env, k: Snapshot, step: Queue.Step)
    requires AllEncode(env, k.queue.pending) && (step.Submit? ==> Encodes(env, step.request))
    ensures AllEncode(env, DoQueue(k, step).queue.pending)
  {
    hide Encodes;
    if step.Remove? {
      WithoutEncodes(env, k.queue.pending, step.id);
    }
  }

  lemma KernelIntact(env: Env, s: State, channel: Channel, frames: Frames, now: int)
    requires Intact(env, s)
    ensures Intact(env, FromTheKernel(env, s, channel, frames, now))
  {
    hide Encodes;
    hide Decode;
    hide Forward;
    hide Classify;
    var noted := if channel.IOPub? then s.(received := s.received + [(frames, s.Now())]) else s;
    assert LiveIntact(env, noted.received);
    if Decode(env, channel, frames).Ok? {
      var m := Decode(env, channel, frames).value;
      ForwardOutcome(env, noted, m, now);
      ForwardKeeps(env, noted, m, now);
    }
  }

  lemma ForwardKeeps(env: Env, s: State, m: Message, now: int)
    ensures Forward(env, s, m, now).0.Current() == s.Current()
  {
    hide Classify;
    hide Encodes;
    hide AfterStatus;
    hide RecordedAndSent;
  }

  lemma {:induction false} FlushKeeps(env: Env, s: State, frames: seq<Frames>, now: int)
    ensures Flush(env, s, frames, now).Current() == s.Current()
  {
    hide Forward;
    hide Decode;
    if |frames| > 0 {
      var front, last := frames[..|frames| - 1], frames[|frames| - 1];
      FlushKeeps(env, s, front, now);
      if Decode(env, IOPub, last).Ok? {
        ForwardKeeps(env, Flush(env, s, front, now), Decode(env, IOPub, last).value, now);
      }
    }
  }

  lemma ClientIntact(env: Env, s: State, m: Message, now: int)
    requires Intact(env, s) && (Classify(m) == Execute ==> Encodes(env, m))
    ensures Intact(env, FromTheClient(env, s, m, now))
  {
    hide Encodes;
    hide Classify;
    hide AfterBegin;
  }

  lemma StepIntact(env: Env, s: State, step: Step)
    requires Intact(env, s)
    requires step.FromClient? && Classify(step.m) == Execute ==> Encodes(env, step.m)
    ensures Intact(env, After(env, s, step))
  {
    hide Encodes;
    hide Flush;
    hide Classify;
    hide FromTheClient;
    hide FromTheKernel;
    match step {
      case Connect(_) =>
      case Listen(now) =>
        FlushTakes(env, s, s.held, now);
        FlushKeeps(env, s, s.held, now);
      case FromClient(m, now) => ClientIntact(env, s, m, now);
      case FromKernel(channel, frames, now) => KernelIntact(env, s, channel, frames, now);
      case Status(_, _, _) =>
      case Withdraw(id) => QueueEncodes(env, s.kernel, Queue.Remove(id));
      case Kill =>
      case Close =>
    }
  }

  lemma IntactSucceeds(env: Env, s: State)
    requires Intact(env, s)
    ensures NoneFatal(env, s.received)
    ensures s.queued.Some? ==> forall n: nat :: AllSucceed(env, s.queued.value, n)
  {
    hide Encodes;
    hide IsIdle;
  }

  /** When every execute request of the client encodes, a proxy that began to listen misses
      nothing, as long as it listens and after it has ended. */
  lemma {:induction false} NothingMissed(env: Env, start: int, steps: seq<Step>)
    requires forall i :: 0 <= i < |steps| && steps[i].FromClient? && Classify(steps[i].m) == Execute ==> Encodes(env, steps[i].m)
    ensures var s := Run(env, start, steps);
            Intact(env, s) && (s.queued.Some? ==> !Misses(env, s))
  {
    hide Encodes;
    hide Classify;
    hide Intact;
    if |steps| == 0 {
      StartIntact(env, start);
    } else {
      NothingMissed(env, start, steps[..|steps| - 1]);
      StepIntact(env, Run(env, start, steps[..|steps| - 1]), steps[|steps| - 1]);
    }
    var s := Run(env, start, steps);
    hide Run;
    hide AllSucceed;
    hide NoneFatal;
    hide FatalIsLast;
    hide PastSound;
    hide Reached;
    hide Reaching;
    IntactSucceeds(env, s);
    StartupHandover(env, start, steps);
    if s.queued.Some? {
      ReachingIsOwed(env, s.infoId, s.received, s.queued.value);
    }
  }

  lemma StartIntact(env: Env, start: int)
    ensures Intact(env, Start(start))
  {
  }

  // ---- A run that misses an idle.

  predicate IsReply(env: Env, infoId: string, frames: Frames) {
    var r := Decode(env, Shell, frames);
    r.Ok? && r.value.Answers(infoId)
  }

  /** A proxy that listens takes a request it can write and one it cannot, and ends. */
  function Before(infoId: string, reply: Frames, good: Message, bad: Message, now: int): (steps: seq<Step>) {
    [Connect(infoId), FromKernel(Shell, reply, now), Listen(now), FromClient(good, now), FromClient(bad, now), Close]
  }

  /** A new proxy receives an idle before its reply, and listens. */
  function Again(infoId: string, reply: Frames, idle: Frames, now: int): (steps: seq<Step>) {
    [Connect(infoId), FromKernel(IOPub, idle, now), FromKernel(Shell, reply, now), Listen(now)]
  }

  lemma RunSnoc(env: Env, start: int, steps: seq<Step>, step: Step)
    ensures Run(env, start, steps + [step]) == After(env, Run(env, start, steps), step)
  {
    hide After;
    assert (steps + [step])[..|steps|] == steps;
  }

  lemma FirstListens(env: Env, start: int, infoId: string, reply: Frames, now: int)
    requires IsReply(env, infoId, reply)
    ensures var s := Run(env, start, [Connect(infoId), FromKernel(Shell, reply, now), Listen(now)]);
            s.phase.Listening? && s.kernel.queue == Queue.EMPTY
  {
    hide Run;
    hide Decode;
    var first, second := Connect(infoId), FromKernel(Shell, reply, now);
    RunStart(env, start);
    RunSnoc(env, start, [], first);
    RunSnoc(env, start, [first], second);
    RunSnoc(env, start, [first, second], Listen(now));
    assert [] + [first] == [first];
    assert [first] + [second] == [first, second];
    assert [first, second] + [Listen(now)] == [first, second, Listen(now)];
    assert Run(env, start, [first]).phase.Waiting?;
    assert Run(env, start, [first, second]).phase.Connected?;
  }

  lemma RunStart(env: Env, start: int)
    ensures Run(env, start, []) == Start(start)
  {
  }

  /** A request that can be written runs at once when nothing does. */
  lemma FirstRuns(env: Env, s: State, m: Message, now: int)
    requires s.phase.Listening? && s.kernel.queue == Queue.EMPTY && Classify(m) == Execute && Encodes(env, m)
    ensures var t := After(env, s, FromClient(m, now));
            t.phase.Listening? && t.kernel.queue == Queue.State(Some(m), [])
  {
    hide Classify;
    hide Encodes;
    hide AfterBegin;
  }

  /** A request waits when another is active, whether or not it can be written. */
  lemma SecondWaits(env: Env, s: State, m: Message, now: int)
    requires s.phase.Listening? && s.kernel.queue.active.Some? && Classify(m) == Execute
    ensures var t := After(env, s, FromClient(m, now));
            t.phase.Listening? && t.kernel.queue.pending == s.kernel.queue.pending + [m]
  {
    hide Classify;
  }

  lemma BadRequestWaits(env: Env, start: int, infoId: string, reply: Frames, good: Message, bad: Message, now: int)
    requires IsReply(env, infoId, reply) && Classify(good) == Execute == Classify(bad) && Encodes(env, good)
    ensures var s := Run(env, start, Before(infoId, reply, good, bad, now));
            s.phase.Stopped? && s.kernel.queue.pending == [bad]
  {
    hide Run;
    hide Classify;
    hide Encodes;
    hide IsReply;
    var steps := [Connect(infoId), FromKernel(Shell, reply, now), Listen(now)];
    var first := steps + [FromClient(good, now)];
    var second := first + [FromClient(bad, now)];
    assert Before(infoId, reply, good, bad, now) == second + [Close];
    RunSnoc(env, start, second, Close);
    hide After;
    hide Before;
    FirstListens(env, start, infoId, reply, now);
    RunSnoc(env, start, steps, FromClient(good, now));
    RunSnoc(env, start, first, FromClient(bad, now));
    FirstRuns(env, Run(env, start, steps), good, now);
    SecondWaits(env, Run(env, start, first), bad, now);
    Closes(env, Run(env, start, second));
  }

  lemma Closes(env: Env, s: State)
    requires s.phase.Listening?
    ensures After(env, s, Close) == s.(phase := Stopped)
  {
  }

  lemma IdleIsHeld(env: Env, start: int, steps: seq<Step>, infoId: string, reply: Frames, idle: Frames, now: int)
    requires Run(env, start, steps).phase.Stopped? && IsReply(env, infoId, reply) && IsHeldIdle(env, infoId, idle, Early)
    ensures var again := Again(infoId, reply, idle, now);
            var s := Run(env, start, steps + again[..3]);
            && s.phase.Connected? && s.infoId == infoId && s.held == [idle] && s.received == [(idle, Early)]
            && s.kernel == Run(env, start, steps).kernel
  {
    hide Run;
    hide Decode;
    hide Classify;
    hide Encodes;
    var again := Again(infoId, reply, idle, now);
    RunSnoc(env, start, steps, again[0]);
    RunSnoc(env, start, steps + [again[0]], again[1]);
    RunSnoc(env, start, steps + [again[0]] + [again[1]], again[2]);
    assert steps + again[..3] == steps + [again[0]] + [again[1]] + [again[2]];
  }

  /** The client is owed one idle, which it has not been sent. */
  ghost predicate MissesIdle(env: Env, s: State, idle: Frames) {
    && s.phase.Listening? && s.base <= |s.kernel.sent|
    && Delivered(s) == [] && Owed(env, s.infoId, s.received) == ContentOf(env, idle) && IsIdle(env, idle)
  }

  lemma IdleIsSkipped(env: Env, s: State, idle: Frames, now: int)
    requires HandsOver(env, s) && s.phase.Connected? && s.held == [idle] && s.received == [(idle, Early)]
    requires Fails(env, s.kernel.queue.pending, 0) && IsHeldIdle(env, s.infoId, idle, Early)
    ensures MissesIdle(env, After(env, s, Listen(now)), idle)
  {
    hide Decode;
    hide Classify;
    hide Encodes;
    hide Flush;
    hide Delivered;
    hide Reached;
    hide NoneFatal;
    hide FatalIsLast;
    hide PastSound;
    FlushSends(env, s, s.held, now);
    HeldGrows(env, [], idle, s.kernel.queue.pending);
    assert [] + [idle] == [idle];
    ReceivedGrows(env, s.infoId, [], idle, Early);
    assert [] + [(idle, Early)] == [(idle, Early)];
    hide Mirrors;
    Unchanged(Flush(env, s, s.held, now), s.kernel.queue.pending);
  }

  lemma Unchanged(s: State, queued: seq<Message>)
    requires s.base <= |s.kernel.sent|
    ensures Delivered(s.(phase := Listening, held := [], queued := Some(queued))) == Delivered(s)
  {
  }

  /** Then the idle that the new proxy holds is never delivered. */
  lemma IdleIsMissed(env: Env, start: int, steps: seq<Step>, infoId: string, reply: Frames, idle: Frames, now: int)
    requires var s := Run(env, start, steps); s.phase.Stopped? && Fails(env, s.kernel.queue.pending, 0)
    requires IsReply(env, infoId, reply) && IsHeldIdle(env, infoId, idle, Early)
    ensures MissesIdle(env, Run(env, start, steps + Again(infoId, reply, idle, now)), idle)
  {
    hide Run;
    hide IsReply;
    hide IsHeldIdle;
    hide Fails;
    hide After;
    hide MissesIdle;
    hide HandsOver;
    var held := steps + Again(infoId, reply, idle, now)[..3];
    IdleIsHeld(env, start, steps, infoId, reply, idle, now);
    StartupHandover(env, start, held);
    IdleIsSkipped(env, Run(env, start, held), idle, now);
    RunSnoc(env, start, held, Listen(now));
    assert steps + Again(infoId, reply, idle, now) == held + [Listen(now)];
  }

  /** The failing run: a request that does not encode waits when the proxy ends, and the next
      proxy, which holds an idle, never delivers it. */
  lemma BadRequestCosts(env: Env, start: int, infoId: string, reply: Frames, idle: Frames, good: Message, bad: Message, now: int)
    requires Classify(good) == Execute == Classify(bad) && Encodes(env, good) && !Encodes(env, bad)
    requires IsReply(env, infoId, reply) && IsHeldIdle(env, infoId, idle, Early)
    ensures MissesIdle(env, Run(env, start, Before(infoId, reply, good, bad, now) + Again(infoId, reply, idle, now)), idle)
  {
    hide Run;
    hide Before;
    hide Again;
    hide Classify;
    hide Encodes;
    hide IsReply;
    hide IsHeldIdle;
    hide MissesIdle;
    BadRequestWaits(env, start, infoId, reply, good, bad, now);
    IdleIsMissed(env, start, Before(infoId, reply, good, bad, now), infoId, reply, idle, now);
  }

  lemma MissesIdleMisses(env: Env, s: State, idle: Frames)
    requires MissesIdle(env, s, idle) && HandsOver(env, s)
    ensures ListenedAndMisses(env, s)
  {
    hide Decode;
    hide Classify;
  }

  // ---- A run that misses what was held.

  /** A proxy that waits receives a frame it holds, then one it cannot decode. */
  function EarlyEnd(infoId: string, good: Frames, bad: Frames, now: int): (steps: seq<Step>) {
    [Connect(infoId), FromKernel(IOPub, good, now), FromKernel(IOPub, bad, now)]
  }

  lemma GoodIsHeld(env: Env, start: int, infoId: string, good: Frames, now: int)
    requires Due(env, infoId, good, Early) != []
    ensures var s := Run(env, start, [Connect(infoId), FromKernel(IOPub, good, now)]);
            s.phase.Waiting? && s.infoId == infoId && s.received == [(good, Early)] && s.queued.None?
  {
    hide Run;
    hide Decode;
    hide IsOurs;
    var first, second := Connect(infoId), FromKernel(IOPub, good, now);
    RunStart(env, start);
    RunSnoc(env, start, [], first);
    RunSnoc(env, start, [first], second);
    assert [] + [first] == [first];
    assert [first] + [second] == [first, second];
  }

  lemma BadEnds(env: Env, s: State, bad: Frames, now: int)
    requires s.phase.Waiting? && Decode(env, IOPub, bad).Err?
    ensures After(env, s, FromKernel(IOPub, bad, now)).phase.Stopped?
  {
    hide Decode;
  }

  lemma OneOwed(env: Env, infoId: string, good: Frames)
    requires Due(env, infoId, good, Early) != []
    ensures Owed(env, infoId, [(good, Early)]) == ContentOf(env, good) != []
  {
    hide Decode;
    ReceivedGrows(env, infoId, [], good, Early);
    assert [] + [(good, Early)] == [(good, Early)];
  }

  /** The undecodable frame ends the proxy, and the frame it holds is lost. */
  lemma EarlyEndCosts(env: Env, start: int, infoId: string, good: Frames, bad: Frames, now: int)
    requires Due(env, infoId, good, Early) != [] && Decode(env, IOPub, bad).Err?
    ensures var s := Run(env, start, EarlyEnd(infoId, good, bad, now));
            && s.phase.Stopped? && s.queued.None? && s.base <= |s.kernel.sent|
            && Delivered(s) == [] && Owed(env, s.infoId, s.received) == ContentOf(env, good) != []
            && Misses(env, s)
  {
    hide Run;
    hide After;
    hide Decode;
    hide Due;
    hide Owed;
    hide ContentOf;
    hide Delivered;
    hide Misses;
    var held, last := [Connect(infoId), FromKernel(IOPub, good, now)], FromKernel(IOPub, bad, now);
    GoodIsHeld(env, start, infoId, good, now);
    RunSnoc(env, start, held, last);
    assert held + [last] == EarlyEnd(infoId, good, bad, now);
    BadEnds(env, Run(env, start, held), bad, now);
    OneOwed(env, infoId, good);
    EarlyEndLosesAll(env, start, held, last);
    EarlyEndKeeps(env, Run(env, start, held), last);
  }

  // ---- Such a run exists for every codec with a request that does not encode.

  const INFO := "info"

  const REPLY := Message(Header("reply", "kernel_info_reply"), Some(Header(INFO, "kernel_info_request")), Shell, Object([]), Object([]), [])

  const IDLE := Message(Header("idle", "status"), None, IOPub, Object([(Ascii("execution_state"), Str(Ascii("idle")))]), Object([]), [])

  const GOOD := Message(Header("good", "execute_request"), None, Shell, Object([(Ascii("code"), Str(Ascii("")))]), Object([]), [])

  /** The frames in which a kernel sends a message. */
  function Sent(env: Env, m: Message): (frames: Frames)
    requires Encodes(env, m)
  {
    [Wire.DELIMITER] + Wire.Encoded(env.codec, env.connection, m, "", "").value.parts
  }

  lemma SentDecodes(env: Env, m: Message)
    requires env.codec.Lawful() && Wire.Storable(m) && Encodes(env, m)
    ensures Decode(env, m.channel, Sent(env, m)) == Ok(m)
  {
    hide Wire.Decoded;
    hide Wire.Body;
    hide Wire.SignatureFrame;
    hide Wire.Codec.Lawful;
    hide Ascii;
    Wire.BareDecodes(env.codec, env.connection, m, "", "");
  }

  lemma Constants(env: Env)
    ensures Encodes(env, REPLY) && Encodes(env, IDLE) && Encodes(env, GOOD)
    ensures Classify(IDLE) == IdleStatus && Classify(GOOD) == Execute
    ensures Wire.Storable(REPLY) && Wire.Storable(IDLE)
  {
  }

  /** A request that does not encode can cost the client an idle. */
  lemma BadRequestCanCost(env: Env, start: int, bad: Message)
    requires env.codec.Lawful() && Classify(bad) == Execute && !Encodes(env, bad)
    ensures exists steps :: ListenedAndMisses(env, Run(env, start, steps))
  {
    hide Run;
    hide Classify;
    hide Decode;
    hide Encodes;
    hide ListenedAndMisses;
    hide MissesIdle;
    Constants(env);
    SentDecodes(env, REPLY);
    SentDecodes(env, IDLE);
    var reply, idle := Sent(env, REPLY), Sent(env, IDLE);
    var steps := Before(INFO, reply, GOOD, bad, start) + Again(INFO, reply, idle, start);
    BadRequestCosts(env, start, INFO, reply, idle, GOOD, bad, start);
    StartupHandover(env, start, steps);
    MissesIdleMisses(env, Run(env, start, steps), idle);
  }

  /** A proxy that has not begun to listen can cost the client what it holds without any request:
      an undecodable frame is enough, whatever the codec. */
  lemma EarlyEndCanCost(env: Env, start: int)
    requires env.codec.Lawful()
    ensures exists steps :: ClientSilent(steps) && Misses(env, Run(env, start, steps))
  {
    Constants(env);
    IdleIsOwed(env);
    EarlyEndIsSilent(INFO, Sent(env, IDLE), [], start);
    NoFramesNoMessage(env);
    hide *;
    var steps := EarlyEnd(INFO, Sent(env, IDLE), [], start);
    EarlyEndCosts(env, start, INFO, Sent(env, IDLE), [], start);
    assert ClientSilent(steps) && Misses(env, Run(env, start, steps));
  }

  lemma IdleIsOwed(env: Env)
    requires env.codec.Lawful() && Encodes(env, IDLE)
    ensures Due(env, INFO, Sent(env, IDLE), Early) != []
  {
    hide Decode;
    hide Encodes;
    hide Wire.Codec.Lawful;
    Constants(env);
    SentDecodes(env, IDLE);
  }

  predicate ClientSilent(steps: seq<Step>) {
    forall i :: 0 <= i < |steps| ==> !steps[i].FromClient?
  }

  lemma EarlyEndIsSilent(infoId: string, good: Frames, bad: Frames, now: int)
    ensures ClientSilent(EarlyEnd(infoId, good, bad, now))
  {
  }

  lemma NoFramesNoMessage(env: Env)
    ensures Decode(env, IOPub, []).Err?
  {
  }

  /** The proxy began to listen, still listens or has ended, and the client misses something. */
  ghost predicate ListenedAndMisses(env: Env, s: State) {
    s.queued.Some? && Misses(env, s)
  }

  /** The law of the handover, for proxies that begin to listen, whether they still listen or have
      ended: no run misses anything exactly when every execute request encodes. */
  lemma HandoverLaw(env: Env, start: int)
    requires env.codec.Lawful()
    ensures (forall steps :: !ListenedAndMisses(env, Run(env, start, steps)))
            <==> (forall m: Message :: Classify(m) == Execute ==> Encodes(env, m))
  {
    hide Run;
    hide Misses;
    hide Classify;
    hide Encodes;
    if m: Message :| Classify(m) == Execute && !Encodes(env, m) {
      BadRequestCanCost(env, start, m);
    } else {
      forall steps
        ensures !ListenedAndMisses(env, Run(env, start, steps))
      {
        NothingMissed(env, start, steps);
      }
    }
  }
}

# Kallichore, verified

Kallichore supervises Jupyter kernels: it queues execution requests, relays messages between
clients and kernels, keeps a bounded history of what ran, watches the resources kernels use, and
shuts itself down when idle. This project models the parts of it that are state machines or
codecs, and proves what they promise, for every input and every run.

`dafny verify dfyconfig.toml` checks everything. Code that updates fields or loops in the original
is a class or a method here, proved against a function; the theorems are lemmas about runs of
those functions.

| file | component |
|---|---|
| `Utf8.dfy`, `Clipping.dfy` | UTF-8 text and character boundaries; the streaming head/tail truncator |
| `History.dfy` | the 100-entry execution history and the routing of kernel messages to entries |
| `Queue.dfy`, `KernelStates.dfy`, `Proxy.dfy` | the execution queue, the kernel status, and the proxy that drives both, as one step machine |
| `Handover.dfy` | the IOPub frames a proxy receives and holds, and what the client receives of them |
| `Relay.dfy` | what the proxy does with every message, told from the messages alone |
| `Wire.dfy`, `Messages.dfy` | Jupyter messages and their ZeroMQ frames |
| `ProcessTree.dfy`, `Cpu.dfy`, `ProcStat.dfy` | the process-tree search, the CPU tracker, the `/proc/[pid]/stat` parser |
| `CommaCodec.dfy`, `HeaderList.dfy` | the comma-separated text of API models, and list headers |
| `IdleShutdown.dfy` | the idle timer, the shutdown decision, and the status aggregation |
| `Strings.dfy`, `Decimal.dfy`, `Naturals.dfy`, `Wrappers.dfy` | splitting, joining, numerals, natural numbers, options and results |

## Results

- **Streaming truncation.** A `Clip` that receives a text in chunks ends up exactly as if it had
  received the whole text at once: the longest character-aligned head, the longest character-aligned
  tail of the rest, and the exact gap. This holds for every chunking if and only if half the limit
  is zero or at least four bytes; for one to three bytes a wide character followed by one more byte
  is a counterexample. All limits in use satisfy the condition.
- **History.** The bounded history is the end of a log that never forgets, also when messages
  arrive for forgotten or repeated identifiers. Each entry holds exactly the texts routed to it and
  the error of the message that decides it, and an entry reported as not truncated is complete. The
  code, output and errors kept never exceed a hundred times the sum of their limits; identifiers
  and attributions are not clipped, so the history as a whole has no such bound. What is read from
  each kind of message is stated field by field, and a report is marked truncated exactly when
  something was dropped.
- **Proxy.** In every run, with restarts, exits, interrupts, kills, withdrawals and messages in any
  order, the history's beginnings are the queue's activations in order, every request not activated
  on arrival is announced once, the kernel is sent exactly the activations that can be written, the
  queue's books balance, and the published statuses do not stutter. The queue moves on at every
  idle, whatever the idle answers and also after an exit; "one request in flight" is not claimed.
- **Relay.** Told from the messages alone, in every run: only the reply to its own request ends a
  proxy's wait; the queue is told exactly the execute requests, stops, idles, exits and withdrawals;
  the kernel is written exactly the proxy's own requests, the activations and the client's other
  messages, each on its channel; the client is sent exactly the messages that decode, from every
  socket; the history records exactly those that answer a request; and the status follows the busy
  and idle messages until the exit.
- **Handover.** In every run the client's IOPub stream is what reached it over each connection in
  turn, connections that ended included. Nothing reaches it over a connection whose proxy ended
  before it listened: one undecodable frame, or a failing receive, costs every frame held. Otherwise
  it receives what the kernel sent, in order and once each, minus frames that do not decode, minus
  the early statuses of the proxy's own request, and minus exactly the idles whose turn falls to a
  waiting request with a buffer that does not decode. So all that is owed is delivered if and only
  if nothing is owed, or the proxy began to listen and no such idle was held at the start or ended
  it. Both kinds of loss are given as runs. Among proxies that begin to listen, no run loses
  anything if and only if every execute request can be encoded.
- **Wire codec.** A message survives the wire if and only if its session is not named like the
  delimiter on a channel that carries the session as its identity. A receiver with a key accepts
  exactly the well-formed messages that are signed or whose signature frame is empty, so a message
  stripped of its signature is accepted.
- **Process tree.** The search ends on every graph and is exact: all reachable processes when there
  are at most 4096, and exactly 4096 otherwise.
- **CPU accounting.** Over every run, time used plus time that appeared equals the final total plus
  time that vanished or went back; reported percentages add up to the time used, less what is hidden
  while the clock stands still, and short of that by less than the time that passed.
- **Text codecs.** Each round trip is proved with its exact condition.
- **Idle shutdown.** A shutdown begins exactly at the ticks where the configured time has passed,
  nothing is busy or connected, and no client is left; never within a period of a nudge or update.

## Model

| member | source | states |
|---|---|---|
| Utf8.FloorBoundary | crates/kcserver/src/execution_history.rs:264-271 | the loop returns the largest character boundary at or before the index, clamped to the text |
| Utf8.CeilBoundary | crates/kcserver/src/execution_history.rs:273-280 | the loop returns the smallest character boundary at or after the index |
| Utf8.CutValid | crates/kcserver/src/execution_history.rs:222-235 | cutting text at a boundary gives text on both sides, so no slice of the truncator panics |
| Utf8.BoundaryNear | crates/kcserver/src/execution_history.rs:264-280 | within three bytes of any index, in both directions, there is a boundary |
| Utf8.TextIsEncoded | crates/kcserver/src/execution_history.rs:264-280 | the byte sequences taken for text are exactly the UTF-8 encodings of sequences of Unicode scalar values |
| Clipping.Clip.Push | crates/kcserver/src/execution_history.rs:219-238 | the in-place push leaves the state of the specification the theorems below are about |
| Clipping.Clip.From | crates/kcserver/src/execution_history.rs:213-217 | building from a text is one push onto an empty clip |
| Clipping.FromCutsOnce | crates/kcserver/src/execution_history.rs:193-238 | for every limit, one push gives the longest head, the longest tail of the rest and the exact gap |
| Clipping.PushCutsOnce | crates/kcserver/src/execution_history.rs:219-238 | one more push keeps the clip equal to the whole text so far cut once |
| Clipping.PushAllCutsOnce | crates/kcserver/src/execution_history.rs:219-238 | after any chunks the clip is their concatenation cut once |
| Clipping.StreamingIsOneShot | crates/kcserver/src/execution_history.rs:203-238 | pushing chunks equals `Clip::from` of the concatenation, when no character overruns half |
| Clipping.WideCharacterBreaks | crates/kcserver/src/execution_history.rs:221-229 | with a half of one to three bytes, a wide character and then a byte give different clips pushed apart and together |
| Clipping.ChunkingLaw | crates/kcserver/src/execution_history.rs:203-238 | streaming equals one-shot for every chunking if and only if half the limit is 0 or at least 4 |
| Clipping.PushAllConserves | crates/kcserver/src/execution_history.rs:193-247 | for every limit and run: head, omitted and tail lengths add up to all bytes pushed, kept bytes fit the limit, both ends are valid text, the tail is a suffix, the head is a prefix when no character overruns half, and nothing omitted means the text is intact |
| Clipping.TightWhenTruncated | crates/kcserver/src/execution_history.rs:193-238 | for every limit, when something was omitted, each half is within three bytes of full |
| History.ExecutionHistory.Begin | crates/kcserver/src/execution_history.rs:65-84 | a request that is not silent becomes the newest entry, and the oldest goes when there are a hundred |
| History.ExecutionHistory.FindNewest | crates/kcserver/src/execution_history.rs:91-98 | the backwards search finds the newest entry with the identifier |
| History.ExecutionHistory.Record | crates/kcserver/src/execution_history.rs:87-122 | a message changes the newest entry its parent names, by its kind, and no other |
| History.ExecutionHistory.Recent | crates/kcserver/src/execution_history.rs:134-142 | the reports are those of the last entries, oldest first, at most the number asked for |
| History.TakeLastLines | crates/kcserver/src/execution_history.rs:156-169 | walking backwards while lines fit keeps the longest run of last lines within the budget |
| History.KeepFrom | crates/kcserver/src/execution_history.rs:156-169 | the kept lines fit the budget and any longer run of last lines does not |
| History.SetError | crates/kcserver/src/execution_history.rs:148-178 | the entry gets the clipped name, clipped message and kept traceback, and the flag for anything dropped |
| History.ErrorBudget | crates/kcserver/src/execution_history.rs:148-178 | the budget never underflows, kept name, message and traceback fit 4096 bytes together, the traceback is the longest suffix that fits, and the flag is set exactly when something was dropped |
| History.TruncatedMeansLess | crates/kcserver/src/execution_history.rs:244-257 | a clip is marked truncated exactly when what it keeps is not the whole text, and otherwise shows the text unchanged |
| History.RecordInWindow | crates/kcserver/src/execution_history.rs:87-98 | recording into the last n entries equals recording into the whole log and taking the last n, also when the target is outside |
| History.WindowOfLog | crates/kcserver/src/execution_history.rs:61-122 | for every run the bounded history is the last hundred entries of a log that never forgets |
| History.LogHolds | crates/kcserver/src/execution_history.rs:87-122 | for every run each entry's output is the one-shot clip of all texts routed to it, and its error is that of the last `error` message, else of the first failing `execute_reply` |
| History.ReportsAreComplete | crates/kcserver/src/execution_history.rs:180-190 | for every run, a report not marked truncated shows the whole code, all routed output and the whole deciding error |
| History.HistoryIsBounded | crates/kcserver/src/execution_history.rs:10-40 | for every run there are at most a hundred entries, each keeps at most 4096 bytes of code, of output and of the error that decided it, and all together at most a hundred times the sum |
| History.AttributionIsNotClipped | crates/kcserver/src/execution_history.rs:65-84 | an identifier, a source and an agent of any length are kept whole, so the bound does not cover them |
| History.StreamIsRead | crates/kcserver/src/execution_history.rs:99-101 | a stream adds exactly the text under `text` |
| History.PlainIsRead | crates/kcserver/src/execution_history.rs:102-115 | a result or display adds its plain text and a newline |
| History.TypesAreRead | crates/kcserver/src/execution_history.rs:106-114 | without plain text it adds the names of its types, separated by commas in brackets, and a newline |
| History.RequestIsRead | crates/kcserver/src/execution_history.rs:65-76 | the code is under `code`, a request is silent exactly when `silent` is true, a reply failed exactly when its `status` is `error` |
| History.ErrorIsRead | crates/kcserver/src/execution_history.rs:148-154 | the name under `ename` is clipped to 256 bytes, the message under `evalue` to 2048, and the traceback is the strings under `traceback` |
| History.OutputGrows | crates/kcserver/src/execution_history.rs:87-115 | in every run a message adds the texts read from it to the newest execution it names, whose output is kept clipped to 4096 bytes |
| History.StreamIsShown | crates/kcserver/src/execution_history.rs:99-101 | in every run the output of an execution grows by exactly the text of a stream that names it |
| History.PlainIsShown | crates/kcserver/src/execution_history.rs:102-115 | in every run it grows by exactly the plain text of a result and a newline |
| History.RenderShowsCut | crates/kcserver/src/execution_history.rs:249-257 | a clip shows its text, or its start, the number of bytes left out and its end |
| History.ReportsExactly | crates/kcserver/src/execution_history.rs:180-190 | in every run a report shows code and output cut once, the time of the begin and the deciding error, and is marked truncated if and only if something was dropped |
| History.AttributionIsReported | crates/kcserver/src/execution_history.rs:81-82 | the source and agent reported are those the attribution names |
| Queue.WithoutExactly | crates/kcserver/src/execution_queue.rs:70-74 | a withdrawal takes out every request with the identifier and no other |
| Queue.ExecutionQueue.ProcessRequest | crates/kcserver/src/execution_queue.rs:46-67 | true exactly when the request becomes active, otherwise it is last in the queue |
| Queue.ExecutionQueue.RemovePending | crates/kcserver/src/execution_queue.rs:70-74 | all pending requests with the identifier go, the rest keep their order, and the result tells whether any was there |
| Queue.ExecutionQueue.NextRequest | crates/kcserver/src/execution_queue.rs:77-94 | the first pending request becomes active and is returned, or nothing is active |
| Queue.ExecutionQueue.Discard | crates/kcserver/src/execution_queue.rs:30-39 | nothing is active or pending afterwards |
| Queue.EveryRunBalances | crates/kcserver/src/execution_queue.rs:30-94 | for every run each submission is exactly one of activated, pending or discarded, activations follow submission order without repeats and precede all pending, and nothing waits while nothing is active |
| Queue.LedgerIsQueue | crates/kcserver/src/execution_queue.rs:30-94 | the numbered books describe the queue's active and pending requests and its activations |
| Queue.KthIdleActivatesKthPending | crates/kcserver/src/execution_queue.rs:77-94 | without clears and withdrawals the k-th pending request becomes active on exactly the k-th idle, whatever is submitted meanwhile |
| KernelStates.KernelState.constructor | crates/kcserver/src/kernel_state.rs:103-132 | a new kernel is idle since now, with an empty queue and history and nothing published |
| KernelStates.KernelState.SetStatus | crates/kcserver/src/kernel_state.rs:198-267 | the whole state a status change leaves, including the changes it drops |
| KernelStates.ChangedSound | crates/kcserver/src/kernel_state.rs:210-267 | each change keeps the times tied to the status and the published stream free of stutter |
| KernelStates.StatusInvariant | crates/kcserver/src/kernel_state.rs:198-267 | for every run busy_since is set exactly when Busy, idle_since exactly when Idle, Ready or Exited, and the published statuses never repeat and end in the current one |
| KernelStates.TimesAreEntryTimes | crates/kcserver/src/kernel_state.rs:242-258 | for every run the recorded time is when the current status was entered, so dropped and repeated changes do not move it |
| KernelStates.StatusStep | crates/kcserver/src/kernel_state.rs:220-240 | a change takes the status, except idle or busy after the exit; entering Exited empties the queue and clears the process; nothing else changes the status |
| KernelStates.NoResurrection | crates/kcserver/src/kernel_state.rs:215-230 | no run goes from Exited to Idle or Busy without passing a status other than those three |
| KernelStates.EveryChangeIsAnnounced | crates/kcserver/src/kernel_state.rs:198-267 | in every run each change that takes effect is announced once, in order, with its reason, and each that makes the kernel idle, ready or exited nudges the server once |
| Proxy.ZmqWsProxy.Open | crates/kcserver/src/zmq_ws_proxy.rs:222-258 | the kernel_info request is written to the shell socket, and the new proxy waits for its reply and holds nothing |
| Proxy.ZmqWsProxy.Await | crates/kcserver/src/zmq_ws_proxy.rs:267-334 | the reply ends the wait, own statuses are discarded, other IOPub frames are held, undecodable frames end the proxy |
| Proxy.ZmqWsProxy.StartListening | crates/kcserver/src/zmq_ws_proxy.rs:343-361 | the held frames are forwarded in order, failures skipped, and none stays held |
| Proxy.ZmqWsProxy.ForwardWs | crates/kcserver/src/zmq_ws_proxy.rs:477-564 | execute requests are queued or begun and sent, interrupts and shutdowns clear the queue, the rest passes through |
| Proxy.ZmqWsProxy.NextInQueue | crates/kcserver/src/zmq_ws_proxy.rs:630-652 | an idle activates the next request and begins its entry before it is encoded and sent |
| Proxy.ZmqWsProxy.ForwardZmq | crates/kcserver/src/zmq_ws_proxy.rs:572-690 | the status, queue, history and client after a frame, for frames that decode and that do not |
| Proxy.ZmqWsProxy.Receive | crates/kcserver/src/zmq_ws_proxy.rs:396-439 | a received frame is handled by the phase the proxy is in, and a failure stops it |
| Proxy.ZmqWsProxy.Shut | crates/kcserver/src/zmq_ws_proxy.rs:291-475 | a failing receive ends a proxy that waits or listens, an exit, a disconnect or closed sockets one that listens, and nothing else changes |
| Proxy.EveryRunAgrees | crates/kcserver/src/zmq_ws_proxy.rs:486-501 | for every run the requests begun in history are the queue's activations in order, each late request is announced exactly once, the execute requests written to sockets are exactly the activations that can be written, on the channel they name or on the shell socket when their turn comes, and the status stays consistent |
| Proxy.EveryRunBalances | crates/kcserver/src/zmq_ws_proxy.rs:486-520 | in every run of the proxy each submitted request is exactly one of activated, pending or discarded |
| Proxy.HistoryShowsActivations | crates/kcserver/src/zmq_ws_proxy.rs:631-651 | in every run the history's identifiers are those of the last hundred activations that are not silent |
| Relay.KindsExactly | crates/kcserver/src/jupyter_messages.rs:25-63 | which messages are execute requests, busy, idle, interrupts or shutdowns, by the words and fields that make them |
| Relay.WaitEndsExactly | crates/kcserver/src/zmq_ws_proxy.rs:267-333 | from waiting, only a shell message whose parent is the proxy's own request connects, only an undecodable shell or IOPub frame stops, and exactly the IOPub messages that are not statuses of that request are held |
| Relay.ListenerWasAnswered | crates/kcserver/src/zmq_ws_proxy.rs:267-333 | in every run a proxy that is connected or listens has, since it connected, received on the shell socket the reply to its own request |
| Relay.PhaseExactly | crates/kcserver/src/zmq_ws_proxy.rs:378-475 | the phase after every step; a listening proxy ends exactly when closed, when a message to be written does not encode, when decoding panics, or when an idle's request does not encode |
| Relay.QueueIsTold | crates/kcserver/src/zmq_ws_proxy.rs:486-520 | in every run the queue is told exactly: submit for execute requests, clear for interrupts, shutdowns, kills and exits, next for every idle, remove for withdrawals |
| Relay.StopClears | crates/kcserver/src/zmq_ws_proxy.rs:502-520 | after an interrupt or shutdown request nothing is active and nothing waits |
| Relay.OthersArePassed | crates/kcserver/src/zmq_ws_proxy.rs:526-563 | in every run what is written besides execute requests is exactly the proxy's own requests and the client's other messages that encode and name a channel with a socket, in order, each on its channel |
| Relay.EverythingIsRelayed | crates/kcserver/src/zmq_ws_proxy.rs:572-690 | in every run the client is sent exactly the messages that decode, from every socket, in order, less the idles whose request does not encode |
| Relay.AnswersAreRecorded | crates/kcserver/src/zmq_ws_proxy.rs:661-690 | in every run the messages recorded in the history are exactly those sent to the client that have a parent, in order |
| Relay.StatusFollowsKernel | crates/kcserver/src/zmq_ws_proxy.rs:610-629 | a forwarded busy makes the kernel busy and an idle makes it idle, unless it has exited; the change is announced with the kind of the parent; nothing else changes the status |
| Relay.ForwardOrder | crates/kcserver/src/zmq_ws_proxy.rs:608-690 | a message changes the status before it reaches the client, and begins the next request before it is recorded |
| Relay.ClientOrder | crates/kcserver/src/zmq_ws_proxy.rs:486-501 | an execute request is begun at once when nothing is active and announced as queued otherwise, and no other message is either |
| Relay.StatusFollowsFrames | crates/kcserver/src/zmq_ws_proxy.rs:594-629 | the same for every frame a listening proxy receives |
| Handover.ForwardSends | crates/kcserver/src/zmq_ws_proxy.rs:680-690 | a forwarded message reaches the client once, unless forwarding fails |
| Handover.ForwardOutcome | crates/kcserver/src/zmq_ws_proxy.rs:630-652 | forwarding a message fails exactly for an idle whose turn falls to a request that cannot be encoded; every idle takes one request from the queue and nothing else does |
| Handover.FlushSends | crates/kcserver/src/zmq_ws_proxy.rs:343-361 | the flush delivers the held frames in order, less exactly the idles whose activation fails |
| Handover.StartupHandover | crates/kcserver/src/zmq_ws_proxy.rs:297-361 | in every run and phase, ended proxies included: nothing is delivered over a connection that has not begun to listen; otherwise the IOPub messages delivered are those received, in order and once each, minus undecodable frames, early statuses of the proxy's own request, and exactly the idles whose activation fails, of which a live one ends the proxy |
| Handover.ClientStream | crates/kcserver/src/zmq_ws_proxy.rs:343-475 | for every run the client's whole IOPub stream is the concatenation of what reached it over each connection, and each delivers all it owes if and only if it owes nothing or succeeds |
| Handover.MissesExactly | crates/kcserver/src/zmq_ws_proxy.rs:297-475 | in every run a proxy that listens or has ended misses something if and only if it owes something and ended before it listened, or a held idle or the last frame activated a request that does not encode |
| Handover.ListeningMissesExactly | crates/kcserver/src/zmq_ws_proxy.rs:343-361 | while the proxy listens, something is missed if and only if a request its held idles activated does not encode |
| Handover.ListenLosesExactly | crates/kcserver/src/zmq_ws_proxy.rs:343-361 | when listening begins, something is lost if and only if one of the first n waiting requests does not encode, with n the number of held idles, and the requests left are those after the first n |
| Handover.EarlyEndLosesAll | crates/kcserver/src/zmq_ws_proxy.rs:275-330 | whatever ends a proxy that waits, it has delivered nothing and all that is owed is missed |
| Handover.EarlyEndCosts | crates/kcserver/src/zmq_ws_proxy.rs:303-327 | the run that loses a held frame without any request: a frame is held, the next does not decode, and the client is owed the first and has been sent nothing |
| Handover.NothingMissed | crates/kcserver/src/zmq_ws_proxy.rs:353-361 | when every execute request of the client encodes, a proxy that began to listen misses nothing, listening or ended |
| Handover.BadRequestCosts | crates/kcserver/src/zmq_ws_proxy.rs:353-361 | the run that loses an idle: a request that does not encode waits when its proxy ends, the next proxy holds an idle, and the client is owed that idle and has been sent nothing |
| Handover.HandoverLaw | crates/kcserver/src/zmq_ws_proxy.rs:297-361 | among proxies that begin to listen, listening or ended, no run misses anything if and only if every execute request encodes |
| Wire.Sign | crates/kcserver/src/wire_message.rs:72-84 | feeding the parts one by one signs their concatenation |
| Wire.FromJupyter | crates/kcserver/src/wire_message.rs:35-99 | the parts are the signature over the four body parts, the body and the decoded buffers, or an error for a bad buffer |
| Wire.EncodedExactly | crates/kcserver/src/wire_message.rs:35-99 | what each frame holds, in order, and that a message has frames if and only if every buffer decodes |
| Wire.HexIsRead | crates/kcserver/src/wire_message.rs:79-80 | the signature is the MAC in lower-case hexadecimal, the high digit first |
| Wire.IntoZmq | crates/kcserver/src/wire_message.rs:181-197 | the frames are the session, the delimiter and the parts on shell and stdin, and the delimiter and the parts on every other channel |
| Wire.ToJupyter | crates/kcserver/src/wire_message.rs:102-178 | the message behind the first delimiter, or which check failed first, index panics included |
| Wire.DecodedExactly | crates/kcserver/src/wire_message.rs:107-163 | behind the first delimiter there is a message if and only if header, parent (unless shorter than five bytes), metadata and content parse, and it is made of just these and the buffers |
| Wire.PanicsExactly | crates/kcserver/src/wire_message.rs:107-163 | no delimiter is an error, and decoding panics exactly when a part is missing and everything before it reads |
| Wire.PartsDecode | crates/kcserver/src/wire_message.rs:116-162 | the parts an encoded message has pass the signature check and parse to the message |
| Wire.MistakenDelimiter | crates/kcserver/src/wire_message.rs:107-139 | a session named like the delimiter makes decoding fail, with or without a key |
| Wire.WireRoundTrip | crates/kcserver/src/wire_message.rs:35-197 | a message that encodes comes back from its frames, behind any delimiter-free identities and with any buffers, if and only if its session is not mistaken for the delimiter |
| Wire.TamperingRefused | crates/kcserver/src/wire_message.rs:115-138 | a body that is not the signed one, under a signature that is not empty, is refused whenever the MAC tells them apart |
| Wire.AcceptedAreSigned | crates/kcserver/src/wire_message.rs:102-178 | a receiver with a key accepts a message if and only if one without a key does and the frame after the first delimiter is empty or the signature of the next four |
| Wire.StrippedSignatureAccepted | crates/kcserver/src/wire_message.rs:115-138 | a message whose signature frame is emptied still comes back, whatever the receiver's key |
| ProcessTree.GetProcessTree | crates/kcserver/src/process_tree.rs:39-60 | the search ends on every graph; the result has the root, only members reached through members, at most 4096 of them, and fewer only when nothing reachable is missing |
| ProcessTree.TreeIsExact | crates/kcserver/src/process_tree.rs:19-60 | at most 4096 reachable processes are all returned, otherwise exactly 4096 are |
| Cpu.CpuTracker.UsagePercent | crates/kcserver/src/resource_monitor.rs:56-79 | the percentage of the time used since the last reading, and the new times alone are remembered |
| Cpu.ReadingBalances | crates/kcserver/src/resource_monitor.rs:60-72 | used, appeared and previous time equal current, vanished and regressed time |
| Cpu.Telescopes | crates/kcserver/src/resource_monitor.rs:56-79 | the same balance summed over every run |
| Cpu.SteadyRunTelescopes | crates/kcserver/src/resource_monitor.rs:56-79 | with the same processes throughout and times that do not go back, the time used is the last total less the first |
| Cpu.ReportBound | crates/kcserver/src/resource_monitor.rs:74-77 | a report never overstates, and understates by less than the elapsed time exactly when the clock moved |
| Cpu.ReportsAddUp | crates/kcserver/src/resource_monitor.rs:56-79 | for every run, reported percentages times elapsed time are at most a hundred times the time used while the clock moved, and less than the time that passed below it |
| Cpu.HiddenExactly | crates/kcserver/src/resource_monitor.rs:74-77 | no time used is hidden by the clock if and only if each later reading moved it or found nothing used |
| Cpu.PassedIsSpan | crates/kcserver/src/resource_monitor.rs:56-58 | with a clock that does not go back, the time that passed is the last reading's less the first's |
| Cpu.NewcomerAddsNothing | crates/kcserver/src/resource_monitor.rs:62-69 | a process absent from the last reading adds nothing, new or reappeared |
| CommaCodec.FromStr | crates/kallichore_api/src/models.rs:5358-5452 | the loop over tokens accepts and rejects as the pairwise specification does |
| CommaCodec.ParsedIsSound | crates/kallichore_api/src/models.rs:5358-5452 | whatever text parses, the values are of their types and strings have no commas |
| CommaCodec.CommaRoundTrip | crates/kallichore_api/src/models.rs:5331-5452 | for every schema and every combination of optional fields, printing and parsing gives the record back if and only if its strings have no commas and it has a value |
| CommaCodec.ParsesExactly | crates/kallichore_api/src/models.rs:5358-5452 | for every text: accepted if and only if its tokens alternate between field names and values of their types with no required field missing, and each field has its first value |
| CommaCodec.ResourceUsageText | crates/kallichore_api/src/models.rs:5331-5356 | the printed text, token by token |
| CommaCodec.ConnectionInfoText | crates/kallichore_api/src/models.rs:845-874 | the printed text, token by token |
| CommaCodec.ExecuteRequestText | crates/kallichore_api/src/models.rs:2262-2299 | the printed text, token by token, optional fields only when set |
| CommaCodec.ResourceUsageRoundTrip | crates/kallichore_api/src/models.rs:5331-5452 | every resource usage comes back |
| CommaCodec.ConnectionInfoRoundTrip | crates/kallichore_api/src/models.rs:845-1014 | a connection info comes back if and only if its strings have no commas |
| CommaCodec.ExecuteRequestRoundTrip | crates/kallichore_api/src/models.rs:2262-2371 | an execute request comes back if and only if its code has no commas, whichever optional fields are set |
| Decimal.ParsePrintInt | crates/kallichore_api/src/models.rs:5331-5420 | every value of an integer type is recovered from its numeral |
| Decimal.SignsAreRead | crates/kallichore_api/src/models.rs:5358-5420 | a numeral may have a plus sign, a minus sign when the type is signed, and parses exactly when its value is in the type |
| HeaderList.ParseIsClean | crates/kallichore_api/src/header.rs:69-88 | every parsed list holds non-empty, trimmed, comma-free items |
| HeaderList.HeaderRoundTrip | crates/kallichore_api/src/header.rs:69-101 | printing and parsing gives a list back if and only if every item is non-empty, trimmed, comma-free and visible ASCII |
| HeaderList.ParsePrintParse | crates/kallichore_api/src/header.rs:69-101 | every header that parses is stable under printing and parsing again |
| HeaderList.ReadableExactly | crates/kallichore_api/src/header.rs:69-76 | a header is read if and only if it has only tabs and visible ASCII |
| HeaderList.WrittenExactly | crates/kallichore_api/src/header.rs:90-101 | the first item as it is, each further one after a comma and a space, unless it has a control character |
| HeaderList.ItemIsRead | crates/kallichore_api/src/header.rs:74-86 | what follows a comma is one more item without the blanks around it, or none when blank |
| ProcStat.FieldsAreFound | crates/kcserver/src/process_metrics.rs:64-71 | the fields are found for every command name, parentheses and spaces included |
| ProcStat.CountersAreRecovered | crates/kcserver/src/process_metrics.rs:59-81 | with at least 22 fields, the smaller of utime + stime and 2^64 - 1, threads (at least one) and rss come back |
| ProcStat.ParsesExactly | crates/kcserver/src/process_metrics.rs:59-81 | a line parses if and only if it has at least 22 fields and its four counters are numerals of their types |
| IdleShutdown.PeriodIs | crates/kcserver/src/server.rs:888-911 | the timeout is the hours configured, 30 seconds for zero, a week for none |
| IdleShutdown.RunningSnoc | crates/kcserver/src/server.rs:1062-1071 | a session is kept, in order, unless it is exited or uninitialized |
| IdleShutdown.RunningSessions | crates/kcserver/src/server.rs:1062-1071 | exactly the sessions neither exited nor uninitialized, in order |
| IdleShutdown.CheckIdleSessions | crates/kcserver/src/server.rs:1012-1059 | shutdown of the running sessions exactly when no session is busy or connected |
| IdleShutdown.IdlePoll.OnTick | crates/kcserver/src/server.rs:929-964 | what a tick does, and when it does nothing |
| IdleShutdown.IdlePoll.OnNudge | crates/kcserver/src/server.rs:965-980 | a nudge resets the timer and may name a client |
| IdleShutdown.IdlePoll.OnUpdate | crates/kcserver/src/server.rs:981-1001 | an update replaces the timeout and the timer |
| IdleShutdown.ClientTracked | crates/kcserver/src/server.rs:951-977 | the tracked process is the one named last, until a tick the loop acts on finds it gone |
| IdleShutdown.ShutdownExactly | crates/kcserver/src/server.rs:926-1059 | for every run a shutdown begins exactly at ticks with a timeout configured and passed since the start, no busy or connected session and no client left, and asks exactly the running sessions to stop |
| IdleShutdown.ShutdownWaitsAPeriod | crates/kcserver/src/server.rs:913-1001 | a shutdown comes a full period after every earlier nudge, update and tick |
| IdleShutdown.Summarize | crates/kcserver/src/server.rs:1907-1953 | the busy flag, the count, the earliest busy and the latest idle time over the sessions |
| IdleShutdown.SummaryOfKernels | crates/kcserver/src/server.rs:1907-1953 | over sessions whose times are kept as the status changes keep them, there is a busy time exactly when something is busy, and an idle time exactly when a session is idle, ready or exited |
| IdleShutdown.SummaryIgnoresOrder | crates/kcserver/src/server.rs:1907-1953 | the aggregate does not depend on the order of the sessions |

## Left out

- Sockets, ZeroMQ, HTTP, tokio tasks, files, named pipes, signals, logging and the command line: each socket or channel message is a step of a machine; sends to the client and to sockets do not fail.
- JSON, base64 and HMAC: functions with stated laws (parsing undoes printing, encoding undoes an accepted decoding, a MAC is a function of the key and the bytes fed). The laws are not proved of the libraries.
- Wire.WireRoundTrip: assumes that JSON numbers print and parse exactly; numbers are integers in the model. The JSON law is asked only of values whose object keys increase at every level, as `serde_json` keeps them, and the round trips are stated for messages made of such values.
- Cpu.CpuTracker.UsagePercent: counts in unbounded integers; the sum of busy nanoseconds and the cast of the percentage to 64 bits are not wrapped.
- Clipping.Clip.Push: counts omitted bytes in unbounded integers.
- History.ExecutionHistory.Record: entries are values the list owns, updated by replacing them; the clip of an entry is moved out, pushed and moved back.
- Proxy.ZmqWsProxy.ForwardZmq: does not copy messages to RPC listeners.
- KernelStates.KernelState.SetStatus: does not poll the working directory, which can send the client a `WorkingDirChanged` message that is neither a status nor a Jupyter message.
- ProcessTree.GetProcessTree: the child relation is fixed during the search; in the running system processes come and go. The Windows job object is not modelled.
- CommaCodec.FromStr: the generated printers and parsers share one template, modelled once over a schema of fields; only the schemas of three models are given, and error texts are error values.
- History.HistoryIsBounded: bounds the kept bytes of code, output and errors. The byte bound in the comment at crates/kcserver/src/execution_history.rs:11-14 does not hold of all stored text: error strings also carry the omission marker, and `source`, `agent` and `msg_id` are not clipped.
- Proxy.ZmqWsProxy.StartListening: the flush is one step; changes from elsewhere in the server come before or after it, not between two held frames.
- The `idle_seconds` and `busy_seconds` conversions after the aggregation loop: the description of `idle_seconds` in crates/kallichore_api/src/models.rs:6181 says zero when any session is busy, which crates/kcserver/src/server.rs:1957-1966 does not test.
- What "connected" means to a client that was taken over: only the flag's value at the shutdown decision is used.
- `escape_for_shell`, port reservation, heartbeats, ping/pong counters, kernel startup and the MCP server.
- The other generated models, many of which cannot round trip because required fields are not printed.

/**
  `ExecutionHistory`: the last hundred executions of a session, and the kernel messages that
  belong to each of them.
 */
module History {
  import opened Naturals
  import opened Wrappers
  import opened Utf8
  import opened Clipping
  import opened Messages
  import Decimal

  const MAX_ENTRIES: nat := 100
  const MAX_INPUT_BYTES: nat := 4 * 1024
  const MAX_OUTPUT_BYTES: nat := 4 * 1024
  const MAX_ERROR_BYTES: nat := 4 * 1024
  const MAX_ERROR_NAME_BYTES: nat := 256

  /** `Display` for a clip. */
  function Render(c: Clipped): (shown: Bytes) {
    if c.Truncated() then
      c.head + Ascii("\n[... ") + Ascii(Decimal.PrintNat(c.omitted)) + Ascii(" bytes omitted ...]\n") + c.tail
    else c.head + c.tail
  }

  datatype ExecutionError = ExecutionError(name: Bytes, message: Bytes, traceback: seq<Text>)

  datatype Entry = Entry(
    id: string,
    input: Clipped,
    output: Clipped,
    error: Option<ExecutionError>,
    errorTruncated: bool,
    timestamp: int,
    source: Option<Text>,
    agent: Option<Text>)

  /** What `to_model` reports of an entry. */
  datatype Report = Report(
    input: Bytes,
    output: Bytes,
    error: Option<ExecutionError>,
    timestamp: int,
    source: Option<Text>,
    agent: Option<Text>,
    truncated: bool)

  function ToModel(e: Entry): (r: Report) {
    Report(Render(e.input), Render(e.output), e.error, e.timestamp, e.source, e.agent,
           e.input.Truncated() || e.output.Truncated() || e.errorTruncated)
  }

  // ---- The parts of a message the history reads.

  predicate IsSilent(request: Message) {
    request.content.Field(Ascii("silent")) == Bool(true)
  }

  function OptionalText(v: Json): (t: Option<Text>) {
    if v.Str? then Some(v.text) else None
  }

  function Code(request: Message): (t: Text) {
    request.content.TextField(Ascii("code"))
  }

  function JoinNames(fields: seq<(Text, Json)>): (t: Bytes)
    ensures Valid(t)
  {
    if |fields| == 0 then []
    else if |fields| == 1 then fields[0].0
    else
      ConcatValid(Ascii(", "), JoinNames(fields[1..]));
      ConcatValid(fields[0].0, Ascii(", ") + JoinNames(fields[1..]));
      fields[0].0 + (Ascii(", ") + JoinNames(fields[1..]))
  }

  /** The text shown for a bundle with no plain text: the names of its types. */
  function TypeNames(data: Json): (t: Text) {
    var names := if data.Object? then JoinNames(data.fields) else [];
    ConcatValid(names, Ascii("]"));
    ConcatValid(Ascii("["), names + Ascii("]"));
    Ascii("[") + (names + Ascii("]"))
  }

  /** The texts a message adds to the output of the execution it belongs to. */
  function OutputTexts(m: Message): (ts: seq<Text>) {
    if m.header.kind == "stream" then [m.content.TextField(Ascii("text"))]
    else if m.header.kind == "execute_result" || m.header.kind == "display_data" then
      var data := m.content.Field(Ascii("data"));
      var plain := data.Field(Ascii("text/plain"));
      [if plain.Str? then plain.text else TypeNames(data), Ascii("\n")]
    else []
  }

  predicate IsError(m: Message) {
    m.header.kind == "error"
  }

  predicate IsFailedReply(m: Message) {
    m.header.kind == "execute_reply" && m.content.Field(Ascii("status")) == Str(Ascii("error"))
  }

  function Strings(items: seq<Json>): (ts: seq<Text>) {
    if |items| == 0 then []
    else (if items[0].Str? then [items[0].text] else []) + Strings(items[1..])
  }

  function Traceback(content: Json): (lines: seq<Text>) {
    var v := content.Field(Ascii("traceback"));
    if v.Array? then Strings(v.items) else []
  }

  // ---- The error kept for an execution.

  function TotalBytes(lines: seq<Text>): (n: nat) {
    if |lines| == 0 then 0 else |lines[0]| + TotalBytes(lines[1..])
  }

  /** Where the longest run of last lines within the budget begins. */
  function KeepFrom(lines: seq<Text>, budget: nat): (k: nat)
    ensures k <= |lines| && TotalBytes(lines[k..]) <= budget
    ensures forall j :: 0 <= j < k ==> TotalBytes(lines[j..]) > budget
  {
    assert lines[0..] == lines;
    if TotalBytes(lines) <= budget then 0
    else
      var k := KeepFrom(lines[1..], budget);
      assert forall j :: 1 <= j <= |lines| ==> lines[1..][j - 1..] == lines[j..];
      k + 1
  }

  ghost function NameClip(content: Json): (c: Clipped)
    ensures c.Kept() <= MAX_ERROR_NAME_BYTES
  {
    FromConserves(MAX_ERROR_NAME_BYTES, content.TextField(Ascii("ename")));
    Pushed(Empty(MAX_ERROR_NAME_BYTES), content.TextField(Ascii("ename")))
  }

  ghost function MessageClip(content: Json): (c: Clipped)
    ensures c.Kept() <= MAX_ERROR_BYTES / 2
  {
    FromConserves(MAX_ERROR_BYTES / 2, content.TextField(Ascii("evalue")));
    Pushed(Empty(MAX_ERROR_BYTES / 2), content.TextField(Ascii("evalue")))
  }

  ghost function KeptTraceback(content: Json): (lines: seq<Text>) {
    var budget := MAX_ERROR_BYTES - NameClip(content).Kept() - MessageClip(content).Kept();
    var lines := Traceback(content);
    lines[KeepFrom(lines, budget)..]
  }

  ghost function ErrorFrom(content: Json): (e: ExecutionError) {
    ExecutionError(Render(NameClip(content)), Render(MessageClip(content)), KeptTraceback(content))
  }

  ghost predicate ErrorDrops(content: Json) {
    NameClip(content).Truncated() || MessageClip(content).Truncated() || |KeptTraceback(content)| < |Traceback(content)|
  }

  lemma FromConserves(max: nat, text: Text)
    ensures Conserves(Pushed(Empty(max), text), text)
    ensures Pushed(Empty(max), text).Kept() <= max
  {
    var c := Empty(max);
    assert Conserves(c, []);
    PushConserves(c, [], text);
    assert [] + text == text;
  }

  /** A clip of a text is marked truncated exactly when what it keeps is not the whole text. */
  lemma TruncatedMeansLess(max: nat, text: Text)
    ensures var c := Pushed(Empty(max), text);
            (c.Truncated() <==> c.head + c.tail != text) && (!c.Truncated() ==> Render(c) == text)
  {
    FromConserves(max, text);
  }

  /** The error budget: name, message and traceback together stay within the limit, the
      traceback is the longest run of last lines that fits, and the flag tells exactly whether
      anything was dropped. */
  lemma ErrorBudget(content: Json)
    ensures var name, message, kept, lines :=
              NameClip(content), MessageClip(content), KeptTraceback(content), Traceback(content);
            && name.Kept() + message.Kept() + TotalBytes(kept) <= MAX_ERROR_BYTES
            && (exists k :: 0 <= k <= |lines| && kept == lines[k..]
                  && forall j :: 0 <= j < k ==>
                       name.Kept() + message.Kept() + TotalBytes(lines[j..]) > MAX_ERROR_BYTES)
            && (ErrorDrops(content) <==>
                  || name.head + name.tail != content.TextField(Ascii("ename"))
                  || message.head + message.tail != content.TextField(Ascii("evalue"))
                  || kept != lines)
  {
    hide Pushed;
    hide Valid;
    hide Ascii;
    hide Render;
    hide Traceback;
    hide KeepFrom;
    TruncatedMeansLess(MAX_ERROR_NAME_BYTES, content.TextField(Ascii("ename")));
    TruncatedMeansLess(MAX_ERROR_BYTES / 2, content.TextField(Ascii("evalue")));
    var lines := Traceback(content);
    var k := KeepFrom(lines, MAX_ERROR_BYTES - NameClip(content).Kept() - MessageClip(content).Kept());
    assert KeptTraceback(content) == lines[k..];
    assert k == 0 ==> lines[k..] == lines;
  }

  // ---- The steps on one entry and on the list.

  ghost function Begun(request: Message, now: int): (e: Entry) {
    var attribution := request.metadata.Field(Ascii("attribution"));
    Entry(request.header.id, Pushed(Empty(MAX_INPUT_BYTES), Code(request)), Empty(MAX_OUTPUT_BYTES), None, false, now,
          OptionalText(attribution.Field(Ascii("source"))), OptionalText(attribution.Field(Ascii("agent_name"))))
  }

  ghost function WithError(e: Entry, content: Json): (r: Entry) {
    e.(error := Some(ErrorFrom(content)), errorTruncated := ErrorDrops(content))
  }

  ghost function Recorded(e: Entry, m: Message): (r: Entry) {
    var pushed := e.(output := PushAll(e.output, OutputTexts(m)));
    if IsError(m) || (IsFailedReply(m) && e.error.None?) then WithError(pushed, m.content) else pushed
  }

  /** The newest position whose identifier is `id`. */
  function Newest(ids: seq<string>, id: string): (r: Option<nat>)
    ensures r.Some? ==> r.value < |ids| && ids[r.value] == id
    ensures forall j :: (if r.Some? then r.value else -1) < j < |ids| ==> ids[j] != id
  {
    if |ids| == 0 then None
    else if ids[|ids| - 1] == id then Some(|ids| - 1)
    else Newest(ids[..|ids| - 1], id)
  }

  function Ids(entries: seq<Entry>): (ids: seq<string>)
    ensures |ids| == |entries| && forall i :: 0 <= i < |ids| ==> ids[i] == entries[i].id
  {
    seq(|entries|, i requires 0 <= i < |entries| => entries[i].id)
  }

  ghost function AfterRecord(entries: seq<Entry>, m: Message): (r: seq<Entry>)
    ensures |r| == |entries| && Ids(r) == Ids(entries)
  {
    if m.parent.None? then entries
    else
      match Newest(Ids(entries), m.parent.value.id)
      case None => entries
      case Some(i) => entries[i := Recorded(entries[i], m)]
  }

  ghost function AfterBegin(entries: seq<Entry>, request: Message, now: int): (r: seq<Entry>) {
    if IsSilent(request) then entries
    else (if |entries| == MAX_ENTRIES then entries[1..] else entries) + [Begun(request, now)]
  }

  /** The history as the program keeps it. */
  class ExecutionHistory {
    var entries: seq<Entry>

    constructor ()
      ensures entries == []
    {
      entries := [];
    }

    method Begin(request: Message, now: int)
      modifies this
      ensures entries == AfterBegin(old(entries), request, now)
    {
      if IsSilent(request) { return; }
      var attribution := request.metadata.Field(Ascii("attribution"));
      if |entries| == MAX_ENTRIES {
        entries := entries[1..];
      }
      var input := new Clip.From(MAX_INPUT_BYTES, Code(request));
      var output := new Clip(MAX_OUTPUT_BYTES);
      var entry := Entry(request.header.id, input.View(), output.View(), None, false, now,
        OptionalText(attribution.Field(Ascii("source"))), OptionalText(attribution.Field(Ascii("agent_name"))));
      entries := entries + [entry];
    }

    method Record(m: Message)
      modifies this
      ensures entries == AfterRecord(old(entries), m)
    {
      hide PushAll;
      hide Valid;
      hide Ascii;
      hide TypeNames;
      hide WithError;
      hide Newest;
      if m.parent.None? { return; }
      var i := FindNewest(m.parent.value.id);
      if i == -1 { return; }
      var entry := entries[i];
      if m.header.kind == "stream" {
        var output := PushOne(entry.output, m.content.TextField(Ascii("text")));
        entry := entry.(output := output);
      } else if m.header.kind == "execute_result" || m.header.kind == "display_data" {
        var data := m.content.Field(Ascii("data"));
        var plain := data.Field(Ascii("text/plain"));
        var output := PushTwo(entry.output, if plain.Str? then plain.text else TypeNames(data), Ascii("\n"));
        entry := entry.(output := output);
      } else if m.header.kind == "error" {
        entry := SetError(entry, m.content);
      } else if IsFailedReply(m) && entry.error.None? {
        entry := SetError(entry, m.content);
      }
      PushAllNone(entries[i].output);
      assert entry == Recorded(entries[i], m);
      entries := entries[i := entry];
    }

    /** The newest entry with an identifier, or -1. */
    method FindNewest(id: string) returns (i: int)
      ensures i == (match Newest(Ids(entries), id) case None => -1 case Some(k) => k)
    {
      i := |entries| - 1;
      while 0 <= i && entries[i].id != id
        invariant -1 <= i < |entries|
        invariant Newest(Ids(entries), id) == Newest(Ids(entries)[..i + 1], id)
      {
        assert Ids(entries)[..i + 1][..i] == Ids(entries)[..i];
        i := i - 1;
      }
      assert Ids(entries)[..|entries|] == Ids(entries);
    }

    method Recent(count: nat) returns (r: seq<Report>)
      ensures |r| == Min(count, |entries|)
      ensures forall i :: 0 <= i < |r| ==> r[i] == ToModel(entries[|entries| - |r| + i])
    {
      r := [];
      var skip := Minus(|entries|, count);
      for i := skip to |entries|
        invariant |r| == i - skip
        invariant forall j :: 0 <= j < |r| ==> r[j] == ToModel(entries[skip + j])
      {
        r := r + [ToModel(entries[i])];
      }
    }
  }

  method PushOne(c: Clipped, text: Text) returns (r: Clipped)
    ensures r == PushAll(c, [text])
  {
    var clip := new Clip.Resume(c);
    clip.Push(text);
    r := clip.View();
    PushAllOne(c, text);
  }

  method PushTwo(c: Clipped, first: Text, second: Text) returns (r: Clipped)
    ensures r == PushAll(c, [first, second])
  {
    hide Pushed;
    hide PushAll;
    hide Valid;
    var once := PushOne(c, first);
    r := PushOne(once, second);
    assert [first] + [second] == [first, second];
    PushAllAppends(c, [first], [second]);
  }

  /** `set_error` */
  method SetError(e: Entry, content: Json) returns (r: Entry)
    ensures r == WithError(e, content)
  {
    hide Pushed;
    hide Valid;
    hide Ascii;
    hide Render;
    hide Traceback;
    hide KeepFrom;
    hide Json.TextField;
    hide WithError;
    var nameClip := new Clip.From(MAX_ERROR_NAME_BYTES, content.TextField(Ascii("ename")));
    var messageClip := new Clip.From(MAX_ERROR_BYTES / 2, content.TextField(Ascii("evalue")));
    var name, message := nameClip.View(), messageClip.View();
    assert name == NameClip(content) && message == MessageClip(content);
    var lines := Traceback(content);
    var traceback := TakeLastLines(lines, MAX_ERROR_BYTES - name.Kept() - message.Kept());
    WithErrorParts(e, content);
    r := e.(errorTruncated := name.Truncated() || message.Truncated() || |traceback| < |lines|,
            error := Some(ExecutionError(Render(name), Render(message), traceback)));
  }

  lemma WithErrorParts(e: Entry, content: Json)
    ensures var name, message, lines := NameClip(content), MessageClip(content), Traceback(content);
            var kept := lines[KeepFrom(lines, MAX_ERROR_BYTES - name.Kept() - message.Kept())..];
            WithError(e, content) ==
              e.(errorTruncated := name.Truncated() || message.Truncated() || |kept| < |lines|,
                 error := Some(ExecutionError(Render(name), Render(message), kept)))
  {
  }

  /** Walk the lines backwards, taking each while it fits what is left of the budget. */
  method TakeLastLines(lines: seq<Text>, budget: nat) returns (traceback: seq<Text>)
    ensures traceback == lines[KeepFrom(lines, budget)..]
  {
    var left := budget;
    var i := |lines|;
    traceback := [];
    while 0 < i && |lines[i - 1]| <= left
      invariant 0 <= i <= |lines| && traceback == lines[i..]
      invariant 0 <= left && left + TotalBytes(lines[i..]) == budget
    {
      i := i - 1;
      left := left - |lines[i]|;
      traceback := [lines[i]] + traceback;
      assert lines[i..][1..] == lines[i + 1..];
    }
    LongestFit(lines, budget, i);
  }

  /** A run of last lines that fits, and would not with one line more, is the longest that fits. */
  lemma LongestFit(lines: seq<Text>, budget: nat, i: nat)
    requires i <= |lines| && TotalBytes(lines[i..]) <= budget
    requires 0 < i ==> |lines[i - 1]| + TotalBytes(lines[i..]) > budget
    ensures KeepFrom(lines, budget) == i
  {
    hide KeepFrom;
    hide Valid;
    var k := KeepFrom(lines, budget);
    if k < i {
      assert lines[i - 1..][1..] == lines[i..];
      TotalBytesShrinks(lines, k, i - 1);
    }
  }

  lemma {:induction false} TotalBytesShrinks(lines: seq<Text>, i: nat, j: nat)
    requires i <= j <= |lines|
    ensures TotalBytes(lines[i..]) >= TotalBytes(lines[j..])
    decreases j - i
  {
    if i < j {
      assert lines[i..][1..] == lines[i + 1..];
      TotalBytesShrinks(lines, i + 1, j);
    }
  }

  lemma PushAllNone(c: Clipped)
    ensures PushAll(c, []) == c
  {
  }

  lemma PushAllOne(c: Clipped, text: Text)
    ensures PushAll(c, [text]) == Pushed(c, text)
  {
    assert [text][..0] == [];
    assert PushAll(c, []) == c;
  }

  lemma {:induction false} PushAllAppends(c: Clipped, first: seq<Text>, second: seq<Text>)
    ensures PushAll(PushAll(c, first), second) == PushAll(c, first + second)
    decreases |second|
  {
    hide Pushed;
    hide Valid;
    if |second| == 0 {
      assert first + second == first;
    } else {
      var front := second[..|second| - 1];
      PushAllAppends(c, first, front);
      assert (first + second)[..|first + second| - 1] == first + front;
    }
  }

  // ---- Runs.

  datatype Event = Begin(request: Message, now: int) | Record(message: Message)

  ghost function Bounded(events: seq<Event>): (entries: seq<Entry>) {
    if |events| == 0 then []
    else
      var before := Bounded(events[..|events| - 1]);
      match events[|events| - 1]
      case Begin(request, now) => AfterBegin(before, request, now)
      case Record(m) => AfterRecord(before, m)
  }

  /** The log that never forgets. */
  ghost function Log(events: seq<Event>): (entries: seq<Entry>) {
    if |events| == 0 then []
    else
      var before := Log(events[..|events| - 1]);
      match events[|events| - 1]
      case Begin(request, now) => if IsSilent(request) then before else before + [Begun(request, now)]
      case Record(m) => AfterRecord(before, m)
  }

  function Last(entries: seq<Entry>, n: nat): (r: seq<Entry>) {
    entries[Minus(|entries|, n)..]
  }

  /** The newest match in a window is the newest match of all, unless the window has lost it. */
  lemma NewestInWindow(ids: seq<string>, skip: nat, id: string)
    requires skip <= |ids|
    ensures var all := Newest(ids, id);
            Newest(ids[skip..], id) == if all.Some? && skip <= all.value then Some(all.value - skip) else None
  {
    hide Newest;
    var all, here := Newest(ids, id), Newest(ids[skip..], id);
    if all.Some? && skip <= all.value {
      assert ids[skip..][all.value - skip] == id;
    }
    if here.Some? {
      assert ids[skip + here.value] == id;
    }
  }

  /** Recording into a window is recording into the log it is the end of, even when the
      message belongs to an entry the window has lost. */
  lemma RecordInWindow(log: seq<Entry>, m: Message, n: nat)
    ensures AfterRecord(Last(log, n), m) == Last(AfterRecord(log, m), n)
  {
    hide Newest;
    hide Recorded;
    if m.parent.Some? {
      var skip := Minus(|log|, n);
      assert Ids(Last(log, n)) == Ids(log)[skip..];
      NewestInWindow(Ids(log), skip, m.parent.value.id);
    }
  }

  lemma EmptyWindow(n: nat)
    ensures Last([], n) == []
  {
  }

  lemma BeginInWindow(log: seq<Entry>, e: Entry, n: nat)
    requires n > 0
    ensures Last(log + [e], n) == (if |Last(log, n)| == n then Last(log, n)[1..] else Last(log, n)) + [e]
  {
  }

  /** The bounded history is the end of the unbounded log, for every run. */
  lemma {:induction false} WindowOfLog(events: seq<Event>)
    ensures Bounded(events) == Last(Log(events), 100)
  {
    hide Last;
    hide AfterRecord;
    hide Begun;
    hide IsSilent;
    if |events| == 0 {
      EmptyWindow(MAX_ENTRIES);
    } else {
      var front := events[..|events| - 1];
      WindowOfLog(front);
      match events[|events| - 1]
      case Begin(request, now) => BeginInWindow(Log(front), Begun(request, now), MAX_ENTRIES);
      case Record(m) => RecordInWindow(Log(front), m, MAX_ENTRIES);
    }
  }

  // ---- What each entry holds, told from the run alone.

  /** The requests that start an entry, with their times. */
  function Starts(events: seq<Event>): (r: seq<(Message, int)>) {
    if |events| == 0 then []
    else
      var before := Starts(events[..|events| - 1]);
      var e := events[|events| - 1];
      if e.Begin? && !IsSilent(e.request) then before + [(e.request, e.now)] else before
  }

  function StartIds(events: seq<Event>): (ids: seq<string>) {
    var starts := Starts(events);
    seq(|starts|, i requires 0 <= i < |starts| => starts[i].0.header.id)
  }

  /** The messages that belong to the `k`-th start: those whose parent has its identifier and
      that arrive before a later start takes the identifier over. */
  function Routed(events: seq<Event>, k: nat): (ms: seq<Message>) {
    if |events| == 0 then []
    else
      var front := events[..|events| - 1];
      var e := events[|events| - 1];
      var before := Routed(front, k);
      if e.Record? && e.message.parent.Some? && Newest(StartIds(front), e.message.parent.value.id) == Some(k)
      then before + [e.message] else before
  }

  function AllTexts(ms: seq<Message>): (ts: seq<Text>) {
    if |ms| == 0 then [] else AllTexts(ms[..|ms| - 1]) + OutputTexts(ms[|ms| - 1])
  }

  function LastError(ms: seq<Message>): (content: Option<Json>) {
    if |ms| == 0 then None
    else if IsError(ms[|ms| - 1]) then Some(ms[|ms| - 1].content)
    else LastError(ms[..|ms| - 1])
  }

  function FirstFailure(ms: seq<Message>): (content: Option<Json>) {
    if |ms| == 0 then None
    else
      var before := FirstFailure(ms[..|ms| - 1]);
      if before.Some? then before
      else if IsFailedReply(ms[|ms| - 1]) then Some(ms[|ms| - 1].content)
      else None
  }

  /** The message that decides the error: the last `error`, else the first failing reply. */
  function Decisive(ms: seq<Message>): (content: Option<Json>) {
    if LastError(ms).Some? then LastError(ms) else FirstFailure(ms)
  }

  /** The entry for a start and the messages routed to it. */
  ghost predicate Holds(e: Entry, start: (Message, int), ms: seq<Message>) {
    && e == Begun(start.0, start.1).(output := e.output, error := e.error, errorTruncated := e.errorTruncated)
    && e.output == Pushed(Empty(MAX_OUTPUT_BYTES), Flatten(AllTexts(ms)))
    && (match Decisive(ms)
        case None => e.error == None && !e.errorTruncated
        case Some(content) => e.error == Some(ErrorFrom(content)) && e.errorTruncated == ErrorDrops(content))
  }

  lemma RecordedOutput(ms: seq<Message>, m: Message)
    ensures PushAll(Pushed(Empty(MAX_OUTPUT_BYTES), Flatten(AllTexts(ms))), OutputTexts(m))
         == Pushed(Empty(MAX_OUTPUT_BYTES), Flatten(AllTexts(ms + [m])))
  {
    hide Pushed;
    hide Valid;
    hide OutputTexts;
    hide PushAll;
    assert (ms + [m])[..|ms|] == ms;
    var texts := AllTexts(ms);
    StreamingIsOneShot(MAX_OUTPUT_BYTES, texts);
    StreamingIsOneShot(MAX_OUTPUT_BYTES, texts + OutputTexts(m));
    PushAllAppends(Empty(MAX_OUTPUT_BYTES), texts, OutputTexts(m));
  }

  lemma RecordedHolds(e: Entry, start: (Message, int), ms: seq<Message>, m: Message)
    requires Holds(e, start, ms)
    ensures Holds(Recorded(e, m), start, ms + [m])
  {
    hide Pushed;
    hide PushAll;
    hide Valid;
    hide Ascii;
    hide Flatten;
    hide AllTexts;
    hide OutputTexts;
    hide Begun;
    hide ErrorFrom;
    hide ErrorDrops;
    hide IsFailedReply;
    RecordedOutput(ms, m);
    assert (ms + [m])[..|ms|] == ms;
  }

  lemma BegunHolds(request: Message, now: int)
    ensures Begun(request, now).id == request.header.id
    ensures Holds(Begun(request, now), (request, now), [])
  {
    hide Pushed;
    hide Ascii;
    hide Code;
    hide OptionalText;
    hide IsSuffix;
    FromConserves(MAX_OUTPUT_BYTES, []);
    hide Valid;
  }

  ghost predicate AllHold(events: seq<Event>) {
    && |Log(events)| == |Starts(events)| && Ids(Log(events)) == StartIds(events)
    && forall k :: 0 <= k < |Log(events)| ==> Holds(Log(events)[k], Starts(events)[k], Routed(events, k))
  }

  /** Every entry of the log holds exactly what was routed to it, for every run. */
  lemma {:induction false} LogHolds(events: seq<Event>)
    ensures AllHold(events)
  {
    hide Holds;
    hide AfterRecord;
    hide Begun;
    hide IsSilent;
    if |events| > 0 {
      LogHolds(events[..|events| - 1]);
      match events[|events| - 1] {
        case Begin(request, now) =>
          if !IsSilent(request) {
            LogHoldsBegin(events, events[..|events| - 1], request, now);
          }
        case Record(m) =>
          LogHoldsRecord(events, events[..|events| - 1], m);
      }
    }
  }

  lemma UnfoldBegin(events: seq<Event>, front: seq<Event>, request: Message, now: int)
    requires events == front + [Begin(request, now)] && !IsSilent(request)
    ensures Log(events) == Log(front) + [Begun(request, now)]
    ensures Starts(events) == Starts(front) + [(request, now)]
    ensures forall k: nat :: Routed(events, k) == Routed(front, k)
  {
    hide Begun;
    hide IsSilent;
    hide AfterRecord;
    assert events[..|events| - 1] == front;
  }

  lemma LogHoldsBegin(events: seq<Event>, front: seq<Event>, request: Message, now: int)
    requires events == front + [Begin(request, now)] && !IsSilent(request)
    requires AllHold(front)
    ensures AllHold(events)
  {
    hide Log;
    hide Starts;
    hide Routed;
    hide Begun;
    hide IsSilent;
    hide Holds;
    UnfoldBegin(events, front, request, now);
    RoutedLater(front, |Log(front)|);
    BegunHolds(request, now);
  }

  lemma LogHoldsRecord(events: seq<Event>, front: seq<Event>, m: Message)
    requires events == front + [Record(m)]
    requires AllHold(front)
    ensures AllHold(events)
  {
    hide Holds;
    hide Recorded;
    assert events[..|events| - 1] == front;
    assert Log(events) == AfterRecord(Log(front), m);
    assert Starts(events) == Starts(front);
    if m.parent.Some? {
      var target := Newest(StartIds(front), m.parent.value.id);
      if target.Some? {
        RecordedHolds(Log(front)[target.value], Starts(front)[target.value], Routed(front, target.value), m);
      }
    }
  }

  /** Nothing is routed to a start that has not happened. */
  lemma {:induction false} RoutedLater(events: seq<Event>, k: nat)
    requires |Starts(events)| <= k
    ensures Routed(events, k) == []
  {
    if |events| > 0 {
      RoutedLater(events[..|events| - 1], k);
    }
  }

  /** A report shows the whole code, every byte of output, and the whole error. */
  ghost predicate Complete(report: Report, request: Message, ms: seq<Message>) {
    && report.input == Code(request)
    && report.output == Flatten(AllTexts(ms))
    && report.error == (match Decisive(ms)
                        case None => None
                        case Some(content) => Some(ExecutionError(
                          content.TextField(Ascii("ename")), content.TextField(Ascii("evalue")), Traceback(content))))
  }

  lemma WholeError(content: Json)
    requires !ErrorDrops(content)
    ensures ErrorFrom(content) == ExecutionError(
              content.TextField(Ascii("ename")), content.TextField(Ascii("evalue")), Traceback(content))
  {
    hide Pushed;
    hide Valid;
    hide Render;
    hide KeepFrom;
    hide Json.TextField;
    hide Ascii;
    TruncatedMeansLess(MAX_ERROR_NAME_BYTES, content.TextField(Ascii("ename")));
    TruncatedMeansLess(MAX_ERROR_BYTES / 2, content.TextField(Ascii("evalue")));
    assert KeptTraceback(content) == Traceback(content);
  }

  lemma HoldsComplete(e: Entry, start: (Message, int), ms: seq<Message>)
    requires Holds(e, start, ms) && !ToModel(e).truncated
    ensures Complete(ToModel(e), start.0, ms)
  {
    hide Pushed;
    hide Valid;
    hide Render;
    hide Flatten;
    hide AllTexts;
    hide Decisive;
    hide ErrorFrom;
    hide ErrorDrops;
    hide Json.TextField;
    hide Ascii;
    TruncatedMeansLess(MAX_INPUT_BYTES, Code(start.0));
    TruncatedMeansLess(MAX_OUTPUT_BYTES, Flatten(AllTexts(ms)));
    if Decisive(ms).Some? {
      WholeError(Decisive(ms).value);
    }
  }

  /** What is reported as not truncated is complete: for every run, a reported entry whose flag
      is clear shows the whole code of its request, every byte routed to it, and the whole error
      of the message that decides it. */
  lemma ReportsAreComplete(events: seq<Event>, i: nat)
    requires i < |Bounded(events)| && !ToModel(Bounded(events)[i]).truncated
    ensures |Bounded(events)| <= |Starts(events)|
    ensures var k := |Starts(events)| - |Bounded(events)| + i;
            Complete(ToModel(Bounded(events)[i]), Starts(events)[k].0, Routed(events, k))
  {
    WindowOfLog(events);
    LogHolds(events);
    hide Log;
    hide Bounded;
    hide Starts;
    hide Routed;
    hide Holds;
    hide Complete;
    hide ToModel;
    var k := |Starts(events)| - |Bounded(events)| + i;
    assert Bounded(events)[i] == Log(events)[k];
    HoldsComplete(Bounded(events)[i], Starts(events)[k], Routed(events, k));
  }

  // ---- How much text the history holds.

  const MAX_ENTRY_BYTES: nat := MAX_INPUT_BYTES + MAX_OUTPUT_BYTES + MAX_ERROR_BYTES

  /** The bytes kept of an error's name, message and traceback. */
  ghost function ErrorBytes(decisive: Option<Json>): (n: nat) {
    match decisive
    case None => 0
    case Some(content) => NameClip(content).Kept() + MessageClip(content).Kept() + TotalBytes(KeptTraceback(content))
  }

  /** The bytes an entry keeps of its code, its output and the error that decided it. */
  ghost function EntryBytes(e: Entry, decisive: Option<Json>): (n: nat) {
    e.input.Kept() + e.output.Kept() + ErrorBytes(decisive)
  }

  /** The parts of an entry are those of the deciding error, and each is within its limit. */
  ghost predicate Fits(e: Entry, decisive: Option<Json>) {
    && e.input.Kept() <= 4096 && e.output.Kept() <= 4096
    && e.error == (if decisive.Some? then Some(ErrorFrom(decisive.value)) else None)
    && ErrorBytes(decisive) <= 4096
  }

  lemma HoldsFits(e: Entry, start: (Message, int), ms: seq<Message>)
    requires Holds(e, start, ms)
    ensures Fits(e, Decisive(ms))
  {
    hide Pushed;
    hide Valid;
    hide Flatten;
    hide AllTexts;
    hide Decisive;
    hide ErrorFrom;
    hide ErrorDrops;
    hide Json.TextField;
    hide Ascii;
    hide KeptTraceback;
    FromConserves(MAX_INPUT_BYTES, Code(start.0));
    FromConserves(MAX_OUTPUT_BYTES, Flatten(AllTexts(ms)));
    if Decisive(ms).Some? {
      ErrorBudget(Decisive(ms).value);
    }
  }

  /** The content that decides the error of the `k`-th start. */
  function DecisiveFor(events: seq<Event>, k: nat): (content: Option<Json>) {
    Decisive(Routed(events, k))
  }

  /** The bytes kept by the entries of consecutive starts. */
  ghost function AllBytes(entries: seq<Entry>, events: seq<Event>, first: nat): (n: nat) {
    if |entries| == 0 then 0
    else
      var k := |entries| - 1;
      AllBytes(entries[..k], events, first) + EntryBytes(entries[k], DecisiveFor(events, first + k))
  }

  lemma {:induction false} AllBytesBounded(entries: seq<Entry>, events: seq<Event>, first: nat)
    requires forall i :: 0 <= i < |entries| ==> Fits(entries[i], DecisiveFor(events, first + i))
    ensures AllBytes(entries, events, first) <= |entries| * MAX_ENTRY_BYTES
  {
    hide ErrorBytes;
    hide ErrorFrom;
    hide DecisiveFor;
    if |entries| > 0 {
      var k := |entries| - 1;
      AllBytesBounded(entries[..k], events, first);
      assert Fits(entries[k], DecisiveFor(events, first + k));
    }
  }

  lemma EntryFits(events: seq<Event>, i: nat)
    requires i < |Bounded(events)|
    ensures |Bounded(events)| <= |Starts(events)|
    ensures Fits(Bounded(events)[i], DecisiveFor(events, |Starts(events)| - |Bounded(events)| + i))
  {
    WindowOfLog(events);
    LogHolds(events);
    hide Log;
    hide Bounded;
    hide Starts;
    hide Routed;
    hide Holds;
    hide Fits;
    hide Decisive;
    var k := |Starts(events)| - |Bounded(events)| + i;
    assert Bounded(events)[i] == Log(events)[k];
    HoldsFits(Bounded(events)[i], Starts(events)[k], Routed(events, k));
  }

  lemma EntriesCount(events: seq<Event>)
    ensures |Bounded(events)| <= MAX_ENTRIES && |Bounded(events)| <= |Starts(events)|
  {
    WindowOfLog(events);
    LogHolds(events);
    hide Log;
    hide Bounded;
    hide Starts;
    hide Routed;
    hide Holds;
  }

  /** The history is bounded, for every run: it has at most a hundred entries, each part of an
      entry keeps no more than its limit, and all together keep no more than a hundred times the
      sum of the limits. */
  lemma HistoryIsBounded(events: seq<Event>)
    ensures |Bounded(events)| <= 100 && |Bounded(events)| <= |Starts(events)|
    ensures var h, first := Bounded(events), |Starts(events)| - |Bounded(events)|;
            && (forall i :: 0 <= i < |h| ==> Fits(h[i], DecisiveFor(events, first + i)))
            && AllBytes(h, events, first) <= 100 * (4096 + 4096 + 4096)
  {
    hide Bounded;
    hide Starts;
    hide Fits;
    hide DecisiveFor;
    hide AllBytes;
    EntriesCount(events);
    var h, first := Bounded(events), |Starts(events)| - |Bounded(events)|;
    forall i | 0 <= i < |h|
      ensures Fits(h[i], DecisiveFor(events, first + i))
    {
      EntryFits(events, i);
    }
    AllBytesBounded(h, events, first);
  }

  /** A request to run nothing, attributed to a source and an agent. */
  function Attributed(id: string, source: Text, agent: Text): (request: Message) {
    var attribution := Object([(Ascii("source"), Str(source)), (Ascii("agent_name"), Str(agent))]);
    Message(Header(id, "execute_request"), None, Shell, Object([]), Object([(Ascii("attribution"), attribution)]), [])
  }

  /** The bound is on code, output and errors only: an identifier, a source and an agent of any
      length are kept whole. */
  lemma AttributionIsNotClipped(id: string, source: Text, agent: Text, now: int)
    ensures var h := Bounded([Begin(Attributed(id, source, agent), now)]);
            |h| == 1 && h[0].id == id && h[0].source == Some(source) && h[0].agent == Some(agent)
  {
    hide Pushed;
    hide Valid;
    var events := [Begin(Attributed(id, source, agent), now)];
    assert events[..0] == [];
    assert Bounded(events[..0]) == [];
    AttributionIsRead(id, source, agent);
  }

  lemma AttributionIsRead(id: string, source: Text, agent: Text)
    ensures var request := Attributed(id, source, agent);
            var attribution := request.metadata.Field(Ascii("attribution"));
            && !IsSilent(request)
            && OptionalText(attribution.Field(Ascii("source"))) == Some(source)
            && OptionalText(attribution.Field(Ascii("agent_name"))) == Some(agent)
  {
    hide Valid;
    var first, second := (Ascii("source"), Str(source)), (Ascii("agent_name"), Str(agent));
    assert |Ascii("source")| != |Ascii("agent_name")|;
    hide Ascii;
    assert [first, second][1..] == [second];
    assert Json.Lookup([second], second.0) == second.1;
    assert Json.Lookup([first, second], second.0) == second.1;
    assert Json.Lookup([first, second], first.0) == first.1;
  }

  // ---- What is read from a message, field by field.

  /** Names separated by a comma and a space. */
  function Listed(names: seq<Text>): (t: Bytes) {
    if |names| == 0 then []
    else if |names| == 1 then names[0]
    else Listed(names[..|names| - 1]) + Ascii(", ") + names[|names| - 1]
  }

  function Keys(fields: seq<(Text, Json)>): (names: seq<Text>)
    ensures |names| == |fields| && forall i :: 0 <= i < |names| ==> names[i] == fields[i].0
  {
    seq(|fields|, i requires 0 <= i < |fields| => fields[i].0)
  }

  lemma {:induction false} ListedCons(name: Text, names: seq<Text>)
    requires |names| > 0
    ensures Listed([name] + names) == name + (Ascii(", ") + Listed(names))
    decreases |names|
  {
    hide Valid;
    hide Ascii;
    var all := [name] + names;
    if |names| == 1 {
      assert all[..1] == [name];
    } else {
      var front, last := names[..|names| - 1], names[|names| - 1];
      ListedCons(name, front);
      assert all[..|all| - 1] == [name] + front;
      assert Listed(all) == Listed([name] + front) + Ascii(", ") + last;
      hide Listed;
      Regroup(name, Ascii(", "), Listed(front), last);
    }
  }

  lemma Regroup(a: Bytes, sep: Bytes, b: Bytes, c: Bytes)
    ensures (a + (sep + b)) + sep + c == a + (sep + (b + sep + c))
  {
  }

  lemma {:induction false} NamesAreListed(fields: seq<(Text, Json)>)
    ensures JoinNames(fields) == Listed(Keys(fields))
  {
    hide Valid;
    hide Ascii;
    if |fields| > 1 {
      NamesAreListed(fields[1..]);
      ListedCons(fields[0].0, Keys(fields[1..]));
      assert Keys(fields) == [fields[0].0] + Keys(fields[1..]);
    }
  }

  predicate IsResult(m: Message) {
    m.header.kind == "execute_result" || m.header.kind == "display_data"
  }

  lemma StreamIsRead(m: Message, text: Text)
    requires m.header.kind == "stream" && m.content.Maps(Ascii("text"), Str(text))
    ensures OutputTexts(m) == [text]
  {
    hide Ascii;
    hide Valid;
    FieldIs(m.content, Ascii("text"), Str(text));
  }

  /** Without its text a stream adds nothing, and data that is no object is shown by empty brackets. */
  lemma MissingIsRead(m: Message, data: Json)
    ensures m.header.kind == "stream" && m.content.Lacks(Ascii("text")) ==> OutputTexts(m) == [[]]
    ensures IsResult(m) && m.content.Maps(Ascii("data"), data) && !data.Object? ==>
              |OutputTexts(m)| == 2 && OutputTexts(m)[0] == Ascii("[") + Ascii("]") && OutputTexts(m)[1] == Ascii("\n")
  {
    hide Ascii;
    FieldIs(m.content, Ascii("text"), Null);
    FieldIs(m.content, Ascii("data"), data);
    hide Valid;
  }

  lemma PlainIsRead(m: Message, data: Json, plain: Text)
    requires IsResult(m) && m.content.Maps(Ascii("data"), data) && data.Maps(Ascii("text/plain"), Str(plain))
    ensures OutputTexts(m) == [plain, Ascii("\n")]
  {
    hide Ascii;
    hide Valid;
    hide TypeNames;
    FieldIs(m.content, Ascii("data"), data);
    FieldIs(data, Ascii("text/plain"), Str(plain));
  }

  /** Without plain text, a result is shown by the names of its types in brackets. */
  lemma TypesAreRead(m: Message, fields: seq<(Text, Json)>)
    requires IsResult(m) && m.content.Maps(Ascii("data"), Object(fields)) && Object(fields).Lacks(Ascii("text/plain"))
    ensures |OutputTexts(m)| == 2
    ensures OutputTexts(m)[0] == Ascii("[") + Listed(Keys(fields)) + Ascii("]") && OutputTexts(m)[1] == Ascii("\n")
  {
    hide Ascii;
    hide Valid;
    FieldIs(m.content, Ascii("data"), Object(fields));
    FieldIs(Object(fields), Ascii("text/plain"), Null);
    NamesAreListed(fields);
  }

  lemma OthersAddNothing(m: Message)
    requires m.header.kind != "stream" && !IsResult(m)
    ensures OutputTexts(m) == []
  {
  }

  /** The code and the silence of a request, and the failure of a reply, are read from the fields
      that carry them. */
  lemma RequestIsRead(m: Message, code: Text)
    ensures m.content.Maps(Ascii("code"), Str(code)) ==> Code(m) == code
    ensures IsSilent(m) <==> m.content.Maps(Ascii("silent"), Bool(true))
    ensures IsFailedReply(m) <==> m.header.kind == "execute_reply" && m.content.Maps(Ascii("status"), Str(Ascii("error")))
    ensures IsError(m) <==> m.header.kind == "error"
  {
    hide Ascii;
    hide Valid;
    FieldIs(m.content, Ascii("code"), Str(code));
    FieldIs(m.content, Ascii("silent"), Bool(true));
    FieldIs(m.content, Ascii("status"), Str(Ascii("error")));
  }

  /** The strings among values, in order. */
  function TextsIn(items: seq<Json>): (ts: seq<Text>) {
    if |items| == 0 then []
    else
      var last := items[|items| - 1];
      TextsIn(items[..|items| - 1]) + if last.Str? then [last.text] else []
  }

  lemma TextsInCons(v: Json, items: seq<Json>)
    ensures TextsIn([v] + items) == (if v.Str? then [v.text] else []) + TextsIn(items)
    decreases |items|
  {
    hide Valid;
    var all := [v] + items;
    if |items| == 0 {
      assert all[..0] == [];
    } else {
      TextsInCons(v, items[..|items| - 1]);
      assert all[..|all| - 1] == [v] + items[..|items| - 1];
    }
  }

  lemma {:induction false} StringsAreTexts(items: seq<Json>)
    ensures Strings(items) == TextsIn(items)
  {
    hide Valid;
    if |items| > 0 {
      StringsAreTexts(items[1..]);
      TextsInCons(items[0], items[1..]);
      assert items == [items[0]] + items[1..];
    }
  }

  /** An error's name is clipped to 256 bytes and its message to 2048; its traceback is the strings
      of a list. */
  lemma ErrorIsRead(content: Json, name: Text, message: Text, items: seq<Json>)
    requires content.Maps(Ascii("ename"), Str(name)) && content.Maps(Ascii("evalue"), Str(message))
    requires content.Maps(Ascii("traceback"), Array(items))
    ensures NameClip(content) == Pushed(Empty(256), name) && MessageClip(content) == Pushed(Empty(2048), message)
    ensures Traceback(content) == TextsIn(items)
  {
    hide Ascii;
    hide Valid;
    hide Pushed;
    FieldIs(content, Ascii("ename"), Str(name));
    FieldIs(content, Ascii("evalue"), Str(message));
    FieldIs(content, Ascii("traceback"), Array(items));
    StringsAreTexts(items);
  }

  // ---- The same over runs.

  /** The `k`-th start is the newest one with the identifier. */
  predicate IsNewest(events: seq<Event>, id: string, k: nat) {
    && k < |StartIds(events)| && StartIds(events)[k] == id
    && forall j :: k < j < |StartIds(events)| ==> StartIds(events)[j] != id
  }

  lemma NewestIs(events: seq<Event>, id: string, k: nat)
    requires IsNewest(events, id, k)
    ensures Newest(StartIds(events), id) == Some(k)
  {
    hide StartIds;
    hide Newest;
  }

  lemma FlattenSnoc(chunks: seq<Text>, last: Text)
    ensures Flatten(chunks + [last]) == Flatten(chunks) + last
  {
    hide Valid;
    assert (chunks + [last])[..|chunks|] == chunks;
  }

  lemma FlattenNone()
    ensures Flatten([]) == []
  {
  }

  lemma {:induction false} FlattenConcat(a: seq<Text>, b: seq<Text>)
    ensures Flatten(a + b) == Flatten(a) + Flatten(b)
    decreases |b|
  {
    hide Valid;
    hide Flatten;
    if |b| == 0 {
      FlattenNone();
      assert a + b == a;
    } else {
      var front, last := b[..|b| - 1], b[|b| - 1];
      FlattenConcat(a, front);
      FlattenSnoc(a + front, last);
      FlattenSnoc(front, last);
      assert a + b == (a + front) + [last];
      assert b == front + [last];
    }
  }

  lemma RoutedTexts(events: seq<Event>, m: Message, k: nat)
    requires m.parent.Some? && IsNewest(events, m.parent.value.id, k)
    ensures Routed(events + [Record(m)], k) == Routed(events, k) + [m]
    ensures AllTexts(Routed(events + [Record(m)], k)) == AllTexts(Routed(events, k)) + OutputTexts(m)
  {
    hide OutputTexts;
    hide StartIds;
    hide IsNewest;
    NewestIs(events, m.parent.value.id, k);
    assert (events + [Record(m)])[..|events|] == events;
    var ms := Routed(events, k);
    assert (ms + [m])[..|ms|] == ms;
  }

  /** What the `k`-th execution has put out, byte by byte. */
  function OutputOf(events: seq<Event>, k: nat): (t: Text) {
    Flatten(AllTexts(Routed(events, k)))
  }

  /** In every run, a message adds the texts read from it to the output of the newest execution it
      names, which is kept clipped to 4096 bytes. */
  lemma OutputGrows(events: seq<Event>, m: Message, k: nat)
    requires m.parent.Some? && IsNewest(events, m.parent.value.id, k)
    ensures OutputOf(events + [Record(m)], k) == OutputOf(events, k) + Flatten(OutputTexts(m))
    ensures k < |Log(events + [Record(m)])|
    ensures Log(events + [Record(m)])[k].output == Pushed(Empty(4096), OutputOf(events, k) + Flatten(OutputTexts(m)))
  {
    hide OutputTexts;
    hide Log;
    hide Routed;
    hide AllTexts;
    hide Pushed;
    hide Valid;
    hide Decisive;
    hide Flatten;
    var more := events + [Record(m)];
    RoutedTexts(events, m, k);
    FlattenConcat(AllTexts(Routed(events, k)), OutputTexts(m));
    LogHolds(more);
    SameStarts(events, m);
    assert Holds(Log(more)[k], Starts(more)[k], Routed(more, k));
  }

  lemma SameStarts(events: seq<Event>, m: Message)
    ensures Starts(events + [Record(m)]) == Starts(events)
  {
    assert (events + [Record(m)])[..|events|] == events;
  }

  /** So a stream adds exactly its text, and a result its plain text and a newline. */
  lemma StreamIsShown(events: seq<Event>, m: Message, k: nat, text: Text)
    requires m.parent.Some? && IsNewest(events, m.parent.value.id, k)
    requires m.header.kind == "stream" && m.content.Maps(Ascii("text"), Str(text))
    ensures OutputOf(events + [Record(m)], k) == OutputOf(events, k) + text
  {
    hide OutputTexts;
    hide OutputOf;
    hide IsNewest;
    hide Log;
    StreamIsRead(m, text);
    OutputGrows(events, m, k);
    FlattenOne(text);
  }

  lemma PlainIsShown(events: seq<Event>, m: Message, k: nat, data: Json, plain: Text)
    requires m.parent.Some? && IsNewest(events, m.parent.value.id, k)
    requires IsResult(m) && m.content.Maps(Ascii("data"), data) && data.Maps(Ascii("text/plain"), Str(plain))
    ensures OutputOf(events + [Record(m)], k) == OutputOf(events, k) + plain + Ascii("\n")
  {
    hide OutputTexts;
    hide OutputOf;
    hide IsNewest;
    hide Log;
    hide Ascii;
    PlainIsRead(m, data, plain);
    OutputGrows(events, m, k);
    FlattenOne(plain);
    FlattenOne(Ascii("\n"));
    FlattenConcat([plain], [Ascii("\n")]);
    assert [plain] + [Ascii("\n")] == [plain, Ascii("\n")];
  }

  lemma FlattenOne(text: Text)
    ensures Flatten([text]) == text
  {
    assert [text][..0] == [];
  }

  // ---- What is reported.

  /** The text shown for a clip: all of it, or its start, the number of bytes left out, and its end. */
  ghost predicate ShowsCut(shown: Bytes, text: Text) {
    || shown == text
    || exists start: Bytes, end: Bytes, n: nat ::
         && n > 0 && IsPrefix(start, text) && IsSuffix(end, text) && |start| + n + |end| == |text|
         && shown == start + Ascii("\n[... ") + Ascii(Decimal.PrintNat(n)) + Ascii(" bytes omitted ...]\n") + end
  }

  lemma RenderShowsCut(max: nat, text: Text)
    requires WholeCharacters(max)
    ensures ShowsCut(Render(Pushed(Empty(max), text)), text)
  {
    hide Pushed;
    hide Valid;
    hide Ascii;
    var c := Pushed(Empty(max), text);
    TruncatedMeansLess(max, text);
    FromConserves(max, text);
    PushAllConserves(max, [text]);
    PushAllOne(Empty(max), text);
    FlattenOne(text);
  }

  /** A report of an entry: its texts are those of its execution, cut once where too long for 4096
      bytes; its time is when the request was begun; and it is marked truncated exactly when
      something of the code, the output or the error was dropped. */
  ghost predicate IsReport(e: Entry, start: (Message, int), output: Text, decisive: Option<Json>) {
    var report, code := ToModel(e), Code(start.0);
    && e.input == Pushed(Empty(4096), code) && e.output == Pushed(Empty(4096), output)
    && ShowsCut(report.input, code) && ShowsCut(report.output, output)
    && report.timestamp == start.1
    && report.error == (if decisive.Some? then Some(ErrorFrom(decisive.value)) else None)
    && (report.truncated <==>
          || e.input.head + e.input.tail != code
          || e.output.head + e.output.tail != output
          || (decisive.Some? && ErrorDrops(decisive.value)))
  }

  /** In every run, each entry is reported as what was told to it. */
  lemma ReportsExactly(events: seq<Event>, i: nat)
    requires i < |Bounded(events)|
    ensures |Bounded(events)| <= |Starts(events)|
    ensures var k := |Starts(events)| - |Bounded(events)| + i;
            IsReport(Bounded(events)[i], Starts(events)[k], OutputOf(events, k), DecisiveFor(events, k))
  {
    WindowOfLog(events);
    LogHolds(events);
    hide Log;
    hide Bounded;
    hide Starts;
    hide Routed;
    hide Flatten;
    hide AllTexts;
    hide Decisive;
    hide Valid;
    hide Ids;
    hide StartIds;
    hide Holds;
    hide IsReport;
    var k := |Starts(events)| - |Bounded(events)| + i;
    assert Bounded(events)[i] == Log(events)[k];
    HoldsReported(Bounded(events)[i], Starts(events)[k], Routed(events, k));
  }

  lemma HoldsReported(e: Entry, start: (Message, int), ms: seq<Message>)
    requires Holds(e, start, ms)
    ensures IsReport(e, start, Flatten(AllTexts(ms)), Decisive(ms))
  {
    hide Pushed;
    hide Valid;
    hide Render;
    hide Flatten;
    hide AllTexts;
    hide Decisive;
    hide ErrorFrom;
    hide ErrorDrops;
    hide Json.TextField;
    hide Ascii;
    hide ShowsCut;
    TruncatedMeansLess(MAX_INPUT_BYTES, Code(start.0));
    TruncatedMeansLess(MAX_OUTPUT_BYTES, Flatten(AllTexts(ms)));
    RenderShowsCut(MAX_INPUT_BYTES, Code(start.0));
    RenderShowsCut(MAX_OUTPUT_BYTES, Flatten(AllTexts(ms)));
  }

  /** The source and the agent reported are those the request's metadata names. */
  lemma AttributionIsReported(request: Message, now: int, attribution: Json, source: Text, agent: Text)
    requires request.metadata.Maps(Ascii("attribution"), attribution)
    ensures attribution.Maps(Ascii("source"), Str(source)) ==> ToModel(Begun(request, now)).source == Some(source)
    ensures attribution.Maps(Ascii("agent_name"), Str(agent)) ==> ToModel(Begun(request, now)).agent == Some(agent)
  {
    hide Pushed;
    hide Render;
    hide Valid;
    hide Ascii;
    FieldIs(request.metadata, Ascii("attribution"), attribution);
    FieldIs(attribution, Ascii("source"), Str(source));
    FieldIs(attribution, Ascii("agent_name"), Str(agent));
  }
}

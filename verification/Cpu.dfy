/** `CpuTracker`: cumulative CPU times of processes turned into a usage percentage. */
module Cpu {
  import opened Naturals
  import opened Wrappers

  datatype Sample = Sample(pid: nat, cpu: nat)

  /** One call of `usage_percent`: the samples and the time they were taken. */
  datatype Reading = Reading(samples: seq<Sample>, now: int)

  datatype Tracker = Tracker(previous: map<nat, nat>, sampledAt: Option<int>)

  function Times(samples: seq<Sample>): (m: map<nat, nat>) {
    if |samples| == 0 then map[]
    else
      var last := samples[|samples| - 1];
      Times(samples[..|samples| - 1])[last.pid := last.cpu]
  }

  /** The CPU time the processes used since they were last seen. */
  function Busy(samples: seq<Sample>, previous: map<nat, nat>): (n: nat) {
    if |samples| == 0 then 0
    else
      var last := samples[|samples| - 1];
      Busy(samples[..|samples| - 1], previous) +
      if last.pid in previous then Minus(last.cpu, previous[last.pid]) else 0
  }

  /** The time since the previous reading; an earlier clock reads as no time at all. */
  function Elapsed(t: Tracker, now: int): (n: nat) {
    if t.sampledAt.Some? && t.sampledAt.value < now then now - t.sampledAt.value else 0
  }

  function Percent(busy: nat, elapsed: nat): (p: nat) {
    if elapsed > 0 then busy * 100 / elapsed else 0
  }

  function After(r: Reading): (t: Tracker) {
    Tracker(Times(r.samples), Some(r.now))
  }

  class CpuTracker {
    var previous: map<nat, nat>
    var sampledAt: Option<int>

    function View(): (t: Tracker)
      reads this
    {
      Tracker(previous, sampledAt)
    }

    constructor ()
      ensures View() == Tracker(map[], None)
    {
      previous, sampledAt := map[], None;
    }

    method UsagePercent(samples: seq<Sample>, now: int) returns (percent: nat)
      modifies this
      ensures View() == After(Reading(samples, now))
      ensures percent == Percent(Busy(samples, old(previous)), Elapsed(old(View()), now))
    {
      var elapsed := Elapsed(View(), now);
      sampledAt := Some(now);
      var busy := 0;
      var current: map<nat, nat> := map[];
      for i := 0 to |samples|
        invariant busy == Busy(samples[..i], previous)
        invariant current == Times(samples[..i])
        invariant previous == old(previous) && sampledAt == Some(now)
      {
        assert samples[..i + 1][..i] == samples[..i];
        if samples[i].pid in previous {
          busy := busy + Minus(samples[i].cpu, previous[samples[i].pid]);
        }
        current := current[samples[i].pid := samples[i].cpu];
      }
      assert samples[..|samples|] == samples;
      previous := current;
      percent := Percent(busy, elapsed);
    }
  }

  // ---- Sums over the processes of a reading.

  function Total(samples: seq<Sample>): (n: nat) {
    if |samples| == 0 then 0 else Total(samples[..|samples| - 1]) + samples[|samples| - 1].cpu
  }

  /** The times of the processes that were not in the previous reading. */
  function Appeared(samples: seq<Sample>, previous: map<nat, nat>): (n: nat) {
    if |samples| == 0 then 0
    else
      var last := samples[|samples| - 1];
      Appeared(samples[..|samples| - 1], previous) + if last.pid in previous then 0 else last.cpu
  }

  /** How much the times of the processes went back, as when an identifier is reused. */
  function Regressed(samples: seq<Sample>, previous: map<nat, nat>): (n: nat) {
    if |samples| == 0 then 0
    else
      var last := samples[|samples| - 1];
      Regressed(samples[..|samples| - 1], previous) +
      if last.pid in previous then Minus(previous[last.pid], last.cpu) else 0
  }

  ghost function SumOver(pids: set<nat>, times: map<nat, nat>): (n: nat)
    requires pids <= times.Keys
  {
    if pids == {} then 0
    else
      var p :| p in pids;
      times[p] + SumOver(pids - {p}, times)
  }

  /** The times of the processes that are gone from the reading. */
  ghost function Vanished(samples: seq<Sample>, previous: map<nat, nat>): (n: nat) {
    SumOver(previous.Keys - Times(samples).Keys, previous)
  }

  /** The processes of a reading come from a set. */
  ghost predicate Distinct(samples: seq<Sample>) {
    forall i, j :: 0 <= i < j < |samples| ==> samples[i].pid != samples[j].pid
  }

  lemma {:induction false} SumWithout(pids: set<nat>, times: map<nat, nat>, p: nat)
    requires pids <= times.Keys && p in pids
    ensures SumOver(pids, times) == times[p] + SumOver(pids - {p}, times)
    decreases |pids|
  {
    var q :| q in pids && SumOver(pids, times) == times[q] + SumOver(pids - {q}, times);
    if p != q {
      SumWithout(pids - {q}, times, p);
      SumWithout(pids - {p}, times, q);
      assert pids - {q} - {p} == pids - {p} - {q};
    }
  }

  lemma {:induction false} SumSplits(a: set<nat>, b: set<nat>, times: map<nat, nat>)
    requires a !! b && a + b <= times.Keys
    ensures SumOver(a + b, times) == SumOver(a, times) + SumOver(b, times)
    decreases |a|
  {
    if a == {} {
      assert a + b == b;
    } else {
      var p :| p in a;
      SumWithout(a, times, p);
      SumWithout(a + b, times, p);
      assert a + b - {p} == (a - {p}) + b;
      SumSplits(a - {p}, b, times);
    }
  }

  lemma {:induction false} SumSame(pids: set<nat>, times: map<nat, nat>, more: map<nat, nat>)
    requires pids <= times.Keys && pids <= more.Keys && forall p :: p in pids ==> times[p] == more[p]
    ensures SumOver(pids, times) == SumOver(pids, more)
    decreases |pids|
  {
    if pids != {} {
      var p :| p in pids;
      SumWithout(pids, times, p);
      SumWithout(pids, more, p);
      SumSame(pids - {p}, times, more);
    }
  }

  lemma {:induction false} TimesHold(samples: seq<Sample>)
    ensures forall p :: p in Times(samples) <==> exists i :: 0 <= i < |samples| && samples[i].pid == p
  {
    if |samples| > 0 {
      var front := samples[..|samples| - 1];
      TimesHold(front);
      forall p ensures p in Times(samples) <==> exists i :: 0 <= i < |samples| && samples[i].pid == p {
        if p in Times(front) {
          var i :| 0 <= i < |front| && front[i].pid == p;
          assert samples[i].pid == p;
        }
        if i :| 0 <= i < |samples| && samples[i].pid == p {
          if i < |front| { assert front[i].pid == p; }
        }
        assert samples[|samples| - 1].pid in Times(samples);
      }
    }
  }

  lemma LastIsNew(samples: seq<Sample>)
    requires |samples| > 0 && Distinct(samples)
    ensures Distinct(samples[..|samples| - 1]) && samples[|samples| - 1].pid !in Times(samples[..|samples| - 1])
  {
    TimesHold(samples[..|samples| - 1]);
  }

  lemma {:induction false} TotalIsSum(samples: seq<Sample>)
    requires Distinct(samples)
    ensures SumOver(Times(samples).Keys, Times(samples)) == Total(samples)
  {
    if |samples| > 0 {
      var front, last := samples[..|samples| - 1], samples[|samples| - 1];
      LastIsNew(samples);
      TotalIsSum(front);
      var times := Times(samples);
      SumWithout(times.Keys, times, last.pid);
      assert times.Keys - {last.pid} == Times(front).Keys;
      SumSame(Times(front).Keys, Times(front), times);
    }
  }

  /** Each sampled process is new, or accounts for its previous time. */
  lemma {:induction false} SamplesAccount(samples: seq<Sample>, previous: map<nat, nat>)
    requires Distinct(samples)
    ensures Total(samples) + Regressed(samples, previous) ==
            Busy(samples, previous) + Appeared(samples, previous) + SumOver(previous.Keys * Times(samples).Keys, previous)
  {
    if |samples| == 0 {
      assert previous.Keys * Times(samples).Keys == {};
    } else {
      var front, last := samples[..|samples| - 1], samples[|samples| - 1];
      LastIsNew(samples);
      SamplesAccount(front, previous);
      var seen := previous.Keys * Times(samples).Keys;
      if last.pid in previous {
        SumWithout(seen, previous, last.pid);
        assert seen - {last.pid} == previous.Keys * Times(front).Keys;
      } else {
        assert seen == previous.Keys * Times(front).Keys;
      }
    }
  }

  /** One reading: used, appeared and previous time equal current, vanished and regressed time. */
  lemma ReadingBalances(before: seq<Sample>, samples: seq<Sample>)
    requires Distinct(before) && Distinct(samples)
    ensures var previous := Times(before);
            Busy(samples, previous) + Appeared(samples, previous) + Total(before)
              == Total(samples) + Vanished(samples, previous) + Regressed(samples, previous)
  {
    var previous := Times(before);
    var seen := Times(samples).Keys;
    TotalIsSum(before);
    SamplesAccount(samples, previous);
    SumSplits(previous.Keys * seen, previous.Keys - seen, previous);
    assert previous.Keys * seen + (previous.Keys - seen) == previous.Keys;
  }

  // ---- Runs.

  ghost function Run(readings: seq<Reading>): (t: Tracker) {
    if |readings| == 0 then Tracker(map[], None) else After(readings[|readings| - 1])
  }

  /** The sum over a run of a quantity of each reading and the tracker before it. */
  ghost function SumRun(f: (Tracker, Reading) -> int, readings: seq<Reading>): (n: int) {
    if |readings| == 0 then 0
    else
      var front := readings[..|readings| - 1];
      SumRun(f, front) + f(Run(front), readings[|readings| - 1])
  }

  function BusyIn(t: Tracker, r: Reading): (n: int) { Busy(r.samples, t.previous) }
  function AppearedIn(t: Tracker, r: Reading): (n: int) { Appeared(r.samples, t.previous) }
  ghost function VanishedIn(t: Tracker, r: Reading): (n: int) { Vanished(r.samples, t.previous) }
  function RegressedIn(t: Tracker, r: Reading): (n: int) { Regressed(r.samples, t.previous) }

  /** The percentage reported, times the time it covers. */
  function ReportedIn(t: Tracker, r: Reading): (n: int) {
    Percent(Busy(r.samples, t.previous), Elapsed(t, r.now)) * Elapsed(t, r.now)
  }

  ghost predicate AllDistinct(readings: seq<Reading>) {
    forall i :: 0 <= i < |readings| ==> Distinct(readings[i].samples)
  }

  /** CPU accounting telescopes over every run: all time used while watched is the final total
      less what appeared, plus what vanished and what went back. */
  lemma {:induction false} Telescopes(readings: seq<Reading>)
    requires |readings| > 0 && AllDistinct(readings)
    ensures SumRun(BusyIn, readings) + SumRun(AppearedIn, readings) ==
            Total(readings[|readings| - 1].samples) + SumRun((t, r) => VanishedIn(t, r), readings) + SumRun(RegressedIn, readings)
  {
    var front, last := readings[..|readings| - 1], readings[|readings| - 1];
    if |front| == 0 {
      ReadingBalances([], last.samples);
    } else {
      Telescopes(front);
      ReadingBalances(front[|front| - 1].samples, last.samples);
    }
  }

  /** The same processes in both readings, with times that do not go back. */
  ghost predicate SteadyPair(before: seq<Sample>, samples: seq<Sample>) {
    && Distinct(before) && Distinct(samples) && Times(before).Keys == Times(samples).Keys
    && forall p :: p in Times(before) ==> Times(before)[p] <= Times(samples)[p]
  }

  ghost predicate Steady(readings: seq<Reading>) {
    forall i :: 0 < i < |readings| ==> SteadyPair(readings[i - 1].samples, readings[i].samples)
  }

  lemma {:induction false} NothingAppears(samples: seq<Sample>, previous: map<nat, nat>)
    requires Distinct(samples) && Times(samples).Keys <= previous.Keys
    requires forall p :: p in Times(samples) ==> previous[p] <= Times(samples)[p]
    ensures Appeared(samples, previous) == 0 && Regressed(samples, previous) == 0
  {
    if |samples| > 0 {
      LastIsNew(samples);
      var last := samples[|samples| - 1];
      assert last.pid in Times(samples) && Times(samples)[last.pid] == last.cpu;
      NothingAppears(samples[..|samples| - 1], previous);
    }
  }

  /** Between two readings of the same processes, the time used is the difference of the totals. */
  lemma SteadyReading(before: seq<Sample>, samples: seq<Sample>)
    requires SteadyPair(before, samples)
    ensures Busy(samples, Times(before)) == Total(samples) - Total(before)
  {
    ReadingBalances(before, samples);
    NothingAppears(samples, Times(before));
    assert Times(before).Keys - Times(samples).Keys == {};
  }

  /** With the same processes throughout, the time used is the last total less the first. */
  lemma {:induction false} SteadyRunTelescopes(readings: seq<Reading>)
    requires |readings| > 0 && Steady(readings)
    ensures SumRun(BusyIn, readings) == Total(readings[|readings| - 1].samples) - Total(readings[0].samples)
  {
    hide Times;
    hide Busy;
    hide Total;
    hide SteadyPair;
    var front, last := readings[..|readings| - 1], readings[|readings| - 1];
    if |front| == 0 {
      NoPreviousNoBusy(last.samples);
    } else {
      SteadyRunTelescopes(front);
      assert front[|front| - 1] == readings[|readings| - 2];
      SteadyReading(front[|front| - 1].samples, last.samples);
    }
  }

  lemma {:induction false} NoPreviousNoBusy(samples: seq<Sample>)
    ensures Busy(samples, map[]) == 0
  {
    if |samples| > 0 {
      NoPreviousNoBusy(samples[..|samples| - 1]);
    }
  }

  /** One report never overstates, and understates by less than the elapsed time exactly when the
      clock moved. A clock that did not move hides all the time used. */
  lemma ReportBound(busy: nat, elapsed: nat)
    ensures Percent(busy, elapsed) * elapsed <= 100 * busy
    ensures 100 * busy < Percent(busy, elapsed) * elapsed + elapsed <==> elapsed > 0
    ensures 100 * busy <= Percent(busy, elapsed) * elapsed + elapsed <==> elapsed > 0 || busy == 0
  {
    if elapsed > 0 {
      var q, r := busy * 100 / elapsed, busy * 100 % elapsed;
      assert busy * 100 == q * elapsed + r;
    }
  }

  function ElapsedIn(t: Tracker, r: Reading): (n: int) { Elapsed(t, r.now) }

  /** Time used between two readings of the same clock value, which no report shows. */
  function HiddenIn(t: Tracker, r: Reading): (n: int) {
    if Elapsed(t, r.now) == 0 then Busy(r.samples, t.previous) else 0
  }

  /** Over every run, the percentages reported add up to the time used less what the clock hides,
      short by less than the time that passed. */
  lemma {:induction false} ReportsAddUp(readings: seq<Reading>)
    ensures var used, hidden := SumRun(BusyIn, readings), SumRun(HiddenIn, readings);
            var reported, passed := SumRun(ReportedIn, readings), SumRun(ElapsedIn, readings);
            && 0 <= hidden <= used && 0 <= passed
            && reported <= 100 * (used - hidden)
            && (100 * (used - hidden) < reported + passed || used - hidden == reported == passed == 0)
  {
    if |readings| > 0 {
      var front, last := readings[..|readings| - 1], readings[|readings| - 1];
      ReportsAddUp(front);
      var t := Run(front);
      ReportBound(Busy(last.samples, t.previous), Elapsed(t, last.now));
    }
  }

  /** Each later reading moved the clock, or found that nothing was used. */
  ghost predicate NothingHidden(readings: seq<Reading>) {
    forall i :: 0 < i < |readings| ==>
      readings[i - 1].now < readings[i].now || Busy(readings[i].samples, Times(readings[i - 1].samples)) == 0
  }

  /** The clock hides nothing exactly when each later reading moved it or found nothing used. */
  lemma {:induction false} HiddenExactly(readings: seq<Reading>)
    ensures SumRun(HiddenIn, readings) == 0 <==> NothingHidden(readings)
  {
    hide Busy;
    hide Times;
    if |readings| > 0 {
      var front, last := readings[..|readings| - 1], readings[|readings| - 1];
      HiddenExactly(front);
      ReportsAddUp(front);
      if |front| == 0 {
        NoPreviousNoBusy(last.samples);
      } else {
        assert front[|front| - 1] == readings[|readings| - 2];
        assert forall i :: 0 <= i < |front| ==> readings[i] == front[i];
      }
    }
  }

  /** With a clock that never goes back, the time that passed is the last reading's less the first's. */
  lemma {:induction false} PassedIsSpan(readings: seq<Reading>)
    requires |readings| > 0 && forall i :: 0 < i < |readings| ==> readings[i - 1].now <= readings[i].now
    ensures SumRun(ElapsedIn, readings) == readings[|readings| - 1].now - readings[0].now
  {
    var front := readings[..|readings| - 1];
    if |front| > 0 {
      PassedIsSpan(front);
      assert front[|front| - 1] == readings[|readings| - 2];
    }
  }

  lemma {:induction false} BusyOfConcat(a: seq<Sample>, b: seq<Sample>, previous: map<nat, nat>)
    ensures Busy(a + b, previous) == Busy(a, previous) + Busy(b, previous)
    decreases |b|
  {
    if |b| == 0 {
      assert a + b == a;
    } else {
      assert (a + b)[..|a + b| - 1] == a + b[..|b| - 1];
      BusyOfConcat(a, b[..|b| - 1], previous);
    }
  }

  predicate Absent(pid: nat, samples: seq<Sample>) {
    forall i :: 0 <= i < |samples| ==> samples[i].pid != pid
  }

  /** A process that was not in the last reading, new or back again, adds nothing to the next. */
  lemma NewcomerAddsNothing(readings: seq<Reading>, a: seq<Sample>, s: Sample, b: seq<Sample>, now: int)
    requires |readings| > 0 ==> Absent(s.pid, readings[|readings| - 1].samples)
    ensures BusyIn(Run(readings), Reading(a + [s] + b, now)) == BusyIn(Run(readings), Reading(a + b, now))
  {
    var previous := Run(readings).previous;
    if |readings| > 0 {
      TimesHold(readings[|readings| - 1].samples);
    }
    BusyOfConcat(a, [s], previous);
    BusyOfConcat(a + [s], b, previous);
    BusyOfConcat(a, b, previous);
    assert [s][..0] == [];
  }
}

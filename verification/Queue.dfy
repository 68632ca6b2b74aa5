/** `ExecutionQueue`: one active request and the requests waiting behind it. */
module Queue {
  import opened Wrappers
  import opened Messages

  datatype State = State(active: Option<Message>, pending: seq<Message>)

  datatype Step = Submit(request: Message) | Next | Clear | Remove(id: string)

  function Without(pending: seq<Message>, id: string): (r: seq<Message>) {
    if |pending| == 0 then []
    else
      var front := Without(pending[..|pending| - 1], id);
      if pending[|pending| - 1].header.id == id then front else front + [pending[|pending| - 1]]
  }

  function After(q: State, step: Step): (r: State) {
    match step
    case Submit(request) =>
      if q.active.None? then State(Some(request), q.pending) else State(q.active, q.pending + [request])
    case Next => if |q.pending| > 0 then State(Some(q.pending[0]), q.pending[1..]) else State(None, [])
    case Clear => State(None, [])
    case Remove(id) => State(q.active, Without(q.pending, id))
  }

  /** The request a step makes active, if any. */
  function Activates(q: State, step: Step): (r: Option<Message>) {
    match step
    case Submit(request) => if q.active.None? then Some(request) else None
    case Next => if |q.pending| > 0 then Some(q.pending[0]) else None
    case Clear => None
    case Remove(_) => None
  }

  /** Withdrawing an identifier takes out every request that has it, and no other. */
  lemma {:induction false} WithoutExactly(pending: seq<Message>, id: string, m: Message)
    ensures multiset(Without(pending, id))[m] == if m.header.id == id then 0 else multiset(pending)[m]
  {
    if |pending| > 0 {
      var front, last := pending[..|pending| - 1], pending[|pending| - 1];
      WithoutExactly(front, id, m);
      assert pending == front + [last];
    }
  }

  class ExecutionQueue {
    var active: Option<Message>
    var pending: seq<Message>

    function View(): (q: State)
      reads this
    {
      State(active, pending)
    }

    constructor ()
      ensures View() == State(None, [])
    {
      active, pending := None, [];
    }

    method Discard()
      modifies this
      ensures View() == After(old(View()), Clear)
    {
      active := None;
      pending := [];
    }

    /** True when the request may run at once. */
    method ProcessRequest(request: Message) returns (now: bool)
      modifies this
      ensures View() == After(old(View()), Submit(request))
      ensures now <==> Activates(old(View()), Submit(request)) == Some(request)
    {
      if active.None? {
        active := Some(request);
        now := true;
      } else {
        pending := pending + [request];
        now := false;
      }
    }

    /** True when a request was withdrawn. */
    method RemovePending(id: string) returns (removed: bool)
      modifies this
      ensures View() == After(old(View()), Remove(id))
      ensures removed <==> exists i :: 0 <= i < |old(pending)| && old(pending)[i].header.id == id
    {
      var before := pending;
      var kept: seq<Message> := [];
      for i := 0 to |before|
        invariant kept == Without(before[..i], id)
        invariant |kept| <= i
        invariant |kept| == i <==> forall j :: 0 <= j < i ==> before[j].header.id != id
      {
        assert before[..i + 1][..i] == before[..i];
        if before[i].header.id != id {
          kept := kept + [before[i]];
        }
      }
      assert before[..|before|] == before;
      pending := kept;
      removed := |pending| != |before|;
    }

    method NextRequest() returns (request: Option<Message>)
      modifies this
      ensures View() == After(old(View()), Next)
      ensures request == Activates(old(View()), Next)
    {
      if |pending| > 0 {
        var first := pending[0];
        pending := pending[1..];
        active := Some(first);
        request := Some(first);
      } else {
        active := None;
        request := None;
      }
    }
  }

  // ---- Runs.

  ghost function Run(q: State, steps: seq<Step>): (r: State) {
    if |steps| == 0 then q else After(Run(q, steps[..|steps| - 1]), steps[|steps| - 1])
  }

  /** The requests a run makes active, in order. */
  ghost function Activations(q: State, steps: seq<Step>): (r: seq<Message>) {
    if |steps| == 0 then []
    else
      var front := steps[..|steps| - 1];
      var one := Activates(Run(q, front), steps[|steps| - 1]);
      Activations(q, front) + if one.Some? then [one.value] else []
  }

  const EMPTY: State := State(None, [])

  /** Every request submitted so far, by the number of its submission, and what became of it. */
  datatype Ledger = Ledger(
    submitted: seq<Message>,
    active: Option<nat>,
    activated: seq<nat>,
    pending: seq<nat>,
    discarded: seq<nat>)
  {
    ghost predicate InRange() {
      && (active.Some? ==> active.value < |submitted|)
      && (forall i :: 0 <= i < |activated| ==> activated[i] < |submitted|)
      && (forall i :: 0 <= i < |pending| ==> pending[i] < |submitted|)
    }

    ghost function Queue(): (q: State)
      requires InRange()
    {
      State(if active.Some? then Some(submitted[active.value]) else None, Requests(submitted, pending))
    }
  }

  ghost function Requests(submitted: seq<Message>, numbers: seq<nat>): (r: seq<Message>)
    requires forall i :: 0 <= i < |numbers| ==> numbers[i] < |submitted|
    ensures |r| == |numbers| && forall i :: 0 <= i < |r| ==> r[i] == submitted[numbers[i]]
  {
    seq(|numbers|, i requires 0 <= i < |numbers| => submitted[numbers[i]])
  }

  /** The numbers of the requests with (or without) an identifier, in order. */
  ghost function Pick(submitted: seq<Message>, numbers: seq<nat>, id: string, matching: bool): (r: seq<nat>)
    requires forall i :: 0 <= i < |numbers| ==> numbers[i] < |submitted|
    ensures forall i :: 0 <= i < |r| ==> r[i] in numbers && r[i] < |submitted|
  {
    if |numbers| == 0 then []
    else
      var front, last := numbers[..|numbers| - 1], numbers[|numbers| - 1];
      var picked := Pick(submitted, front, id, matching);
      assert forall x :: x in front ==> x in numbers;
      if (submitted[last].header.id == id) == matching then picked + [last] else picked
  }

  ghost function Entered(l: Ledger, step: Step): (r: Ledger)
    requires l.InRange()
    ensures r.InRange()
  {
    match step
    case Submit(request) =>
      var n := |l.submitted|;
      if l.active.None? then
        l.(submitted := l.submitted + [request], active := Some(n), activated := l.activated + [n])
      else l.(submitted := l.submitted + [request], pending := l.pending + [n])
    case Next =>
      if |l.pending| > 0 then
        l.(active := Some(l.pending[0]), activated := l.activated + [l.pending[0]], pending := l.pending[1..])
      else l.(active := None)
    case Clear => l.(active := None, pending := [], discarded := l.discarded + l.pending)
    case Remove(id) =>
      l.(pending := Pick(l.submitted, l.pending, id, false),
         discarded := l.discarded + Pick(l.submitted, l.pending, id, true))
  }

  ghost function Book(steps: seq<Step>): (l: Ledger)
    ensures l.InRange()
  {
    if |steps| == 0 then Ledger([], None, [], [], [])
    else Entered(Book(steps[..|steps| - 1]), steps[|steps| - 1])
  }

  ghost predicate Increasing(s: seq<nat>) {
    forall i, j :: 0 <= i < j < |s| ==> s[i] < s[j]
  }

  /** Each submission is exactly one of activated, pending or discarded, once. */
  ghost predicate Balanced(l: Ledger) {
    forall n: nat :: Fates(l)[n] == if n < |l.submitted| then 1 else 0
  }

  /** The fates of all submissions: each number once for every place it is booked in. */
  ghost function Fates(l: Ledger): (fates: multiset<nat>) {
    multiset(l.activated) + multiset(l.pending) + multiset(l.discarded)
  }

  ghost predicate Sound(l: Ledger) {
    && l.InRange() && Balanced(l)
    && Increasing(l.activated + l.pending)
    && (l.active.None? ==> l.pending == [])
    && (l.active.Some? ==> |l.activated| > 0 && l.active.value == l.activated[|l.activated| - 1])
  }

  lemma {:induction false} PickRequests(submitted: seq<Message>, numbers: seq<nat>, id: string)
    requires forall i :: 0 <= i < |numbers| ==> numbers[i] < |submitted|
    ensures Requests(submitted, Pick(submitted, numbers, id, false)) == Without(Requests(submitted, numbers), id)
  {
    if |numbers| > 0 {
      var front := numbers[..|numbers| - 1];
      PickRequests(submitted, front, id);
      var all := Requests(submitted, numbers);
      assert all[..|all| - 1] == Requests(submitted, front);
    }
  }

  lemma {:induction false} PickIncreasing(submitted: seq<Message>, numbers: seq<nat>, id: string, matching: bool)
    requires forall i :: 0 <= i < |numbers| ==> numbers[i] < |submitted|
    requires Increasing(numbers)
    ensures Increasing(Pick(submitted, numbers, id, matching))
  {
    if |numbers| > 0 {
      var front, last := numbers[..|numbers| - 1], numbers[|numbers| - 1];
      PickIncreasing(submitted, front, id, matching);
      assert forall x :: x in front ==> x < last;
    }
  }

  lemma {:induction false} PickSplits(submitted: seq<Message>, numbers: seq<nat>, id: string)
    requires forall i :: 0 <= i < |numbers| ==> numbers[i] < |submitted|
    ensures multiset(Pick(submitted, numbers, id, false)) + multiset(Pick(submitted, numbers, id, true)) == multiset(numbers)
  {
    if |numbers| > 0 {
      var front := numbers[..|numbers| - 1];
      PickSplits(submitted, front, id);
      assert numbers == front + [numbers[|numbers| - 1]];
    }
  }

  lemma EnteredFates(l: Ledger, step: Step)
    requires l.InRange()
    ensures var submitted: seq<nat> := if step.Submit? then [|l.submitted|] else [];
            Fates(Entered(l, step)) == Fates(l) + multiset(submitted)
  {
    match step {
      case Submit(_) =>
      case Next =>
        if |l.pending| > 0 {
          assert l.pending == l.pending[..1] + l.pending[1..];
          assert l.pending[..1] == [l.pending[0]];
        }
      case Clear =>
      case Remove(id) =>
        PickSplits(l.submitted, l.pending, id);
    }
  }

  lemma EnteredBalanced(l: Ledger, step: Step)
    requires l.InRange() && Balanced(l)
    ensures Balanced(Entered(l, step))
  {
    hide Fates;
    EnteredFates(l, step);
  }

  /** A part of an increasing sequence is increasing. */
  lemma IncreasingParts(a: seq<nat>, b: seq<nat>)
    requires Increasing(a + b)
    ensures Increasing(a) && Increasing(b)
  {
    assert forall i :: 0 <= i < |a| ==> (a + b)[i] == a[i];
    assert forall i :: 0 <= i < |b| ==> (a + b)[|a| + i] == b[i];
  }

  lemma IncreasingExtends(s: seq<nat>, n: nat)
    requires Increasing(s) && forall i :: 0 <= i < |s| ==> s[i] < n
    ensures Increasing(s + [n])
  {
  }

  lemma EnteredIncreasing(l: Ledger, step: Step)
    requires l.InRange() && Increasing(l.activated + l.pending) && (l.active.None? ==> l.pending == [])
    ensures Increasing(Entered(l, step).activated + Entered(l, step).pending)
  {
    var r := Entered(l, step);
    var all := l.activated + l.pending;
    IncreasingParts(l.activated, l.pending);
    hide Increasing;
    match step {
      case Submit(_) =>
        IncreasingExtends(all, |l.submitted|);
        assert r.activated + r.pending == all + [|l.submitted|];
      case Next =>
        if |l.pending| > 0 { assert r.activated + r.pending == all; }
      case Clear =>
        assert r.activated + r.pending == l.activated;
      case Remove(id) =>
        PickIncreasing(l.submitted, l.pending, id, false);
        RemoveIncreasing(l, r.pending);
    }
  }

  lemma EnteredSound(l: Ledger, step: Step)
    requires Sound(l)
    ensures Sound(Entered(l, step))
  {
    hide Balanced;
    hide Increasing;
    EnteredBalanced(l, step);
    EnteredIncreasing(l, step);
    if step.Remove? && l.pending == [] {
      assert Pick(l.submitted, l.pending, step.id, false) == [];
    }
  }

  lemma RemoveIncreasing(l: Ledger, kept: seq<nat>)
    requires Increasing(l.activated + l.pending) && Increasing(kept)
    requires forall i :: 0 <= i < |kept| ==> kept[i] in l.pending
    ensures Increasing(l.activated + kept)
  {
    var all := l.activated + l.pending;
    forall i, j | 0 <= i < j < |l.activated + kept| ensures (l.activated + kept)[i] < (l.activated + kept)[j] {
      if i < |l.activated| <= j {
        var k :| 0 <= k < |l.pending| && l.pending[k] == kept[j - |l.activated|];
        assert all[i] < all[|l.activated| + k];
      } else if j < |l.activated| {
        assert all[i] < all[j];
      }
    }
  }

  /** For every run: the books balance, activations follow the order of submission without
      repeats and stay ahead of what is pending, and nothing waits while nothing is active. */
  lemma {:induction false} EveryRunBalances(steps: seq<Step>)
    ensures Sound(Book(steps))
  {
    if |steps| > 0 {
      EveryRunBalances(steps[..|steps| - 1]);
      EnteredSound(Book(steps[..|steps| - 1]), steps[|steps| - 1]);
    }
  }

  /** Booking a step describes the queue after the step. */
  lemma EnteredIsQueue(l: Ledger, step: Step)
    requires l.InRange()
    ensures Entered(l, step).Queue() == After(l.Queue(), step)
  {
    var r := Entered(l, step);
    match step {
      case Submit(request) => assert Requests(r.submitted, l.pending) == Requests(l.submitted, l.pending);
      case Next =>
      case Clear =>
      case Remove(id) => PickRequests(l.submitted, l.pending, id);
    }
    assert r.Queue().pending == After(l.Queue(), step).pending;
  }

  lemma EnteredActivates(l: Ledger, step: Step)
    requires l.InRange()
    ensures var r, one := Entered(l, step), Activates(l.Queue(), step);
            Requests(r.submitted, r.activated) == Requests(l.submitted, l.activated) + if one.Some? then [one.value] else []
  {
  }

  /** The ledger describes the queue: same active request, same pending requests, and the
      activations the queue reports are the ones booked. */
  lemma {:induction false} LedgerIsQueue(steps: seq<Step>)
    ensures Book(steps).Queue() == Run(EMPTY, steps)
    ensures Requests(Book(steps).submitted, Book(steps).activated) == Activations(EMPTY, steps)
  {
    hide Entered;
    hide After;
    hide Activates;
    if |steps| > 0 {
      var front, step := steps[..|steps| - 1], steps[|steps| - 1];
      LedgerIsQueue(front);
      EnteredIsQueue(Book(front), step);
      EnteredActivates(Book(front), step);
    }
  }

  ghost predicate OnlySubmitsAndIdles(steps: seq<Step>) {
    forall i :: 0 <= i < |steps| ==> steps[i].Submit? || steps[i].Next?
  }

  ghost function Idles(steps: seq<Step>): (n: nat) {
    if |steps| == 0 then 0 else Idles(steps[..|steps| - 1]) + if steps[|steps| - 1].Next? then 1 else 0
  }

  ghost function Submitted(steps: seq<Step>): (r: seq<Message>) {
    if |steps| == 0 then []
    else
      var step := steps[|steps| - 1];
      Submitted(steps[..|steps| - 1]) + if step.Submit? then [step.request] else []
  }

  /** Without clears and withdrawals, what is active depends only on how many idles there were:
      after the k-th idle it is the k-th request that was pending, whatever is submitted meanwhile. */
  lemma {:induction false} KthIdleActivatesKthPending(q: State, steps: seq<Step>)
    requires OnlySubmitsAndIdles(steps) && q.active.Some? && Idles(steps) <= |q.pending|
    ensures var k := Idles(steps);
            Run(q, steps) == State(if k == 0 then q.active else Some(q.pending[k - 1]),
                                   (q.pending + Submitted(steps))[k..])
  {
    if |steps| > 0 {
      KthIdleActivatesKthPending(q, steps[..|steps| - 1]);
    }
  }
}

/** The wrapper that keeps a scaler from issuing commands while it waits for the answers to earlier ones. */
module BackoffWrappers {
  import opened Wrappers
  import opened Events
  import opened Commands

  const STATUS_TIMEOUT: int := 5

  /** A spawned task that sleeps until a time; the number tells the tasks of one wrapper apart. */
  datatype Timer = Timer(due: int, task: nat)

  datatype Wrapper = Wrapper(
    expected: seq<Expected>, backoff: Option<string>,
    eventTimer: Option<Timer>, statusTimer: Option<Timer>, spawned: nat)

  /** What the required config and secret scalers and the wrapped scaler answer to one call, and whether
      the notification can be published. */
  datatype Answer = Answer(
    config: seq<Command>, secrets: seq<Command>, requirementsFail: bool,
    scaler: Option<seq<Command>>, published: bool)

  datatype Notice = RemoveExpected(event: Event) | RegisterExpected(trigger: Option<Event>)

  datatype Outcome = Outcome(wrapper: Wrapper, commands: Option<seq<Command>>, notices: seq<Notice>)

  function Unanswered(expected: seq<Expected>, e: Event): (r: seq<Expected>)
  {
    if expected == [] then []
    else
      var last := expected[|expected| - 1];
      Unanswered(expected[..|expected| - 1], e) + (if Answers(last, e) then [] else [last])
  }

  predicate SomeFailure(expected: seq<Expected>, e: Event) {
    exists i :: 0 <= i < |expected| && MatchesFailure(expected[i], e)
  }

  predicate Accepting(w: Wrapper) {
    w.expected == [] && w.backoff.None?
  }

  function FailureText(e: Event): string {
    if e.ProviderStartFailed? || e.ComponentScaleFailed? then e.error else "Received a failed event"
  }

  function WithEvents(w: Wrapper, now: int, cleanup: nat, expected: seq<Expected>): Wrapper {
    w.(expected := expected, eventTimer := Some(Timer(now + cleanup, w.spawned)), spawned := w.spawned + 1)
  }

  /** handle_event_internal */
  function HandleEvent(w: Wrapper, now: int, cleanup: nat, e: Event, a: Answer): Outcome {
    var kept := Unanswered(w.expected, e);
    if |kept| < |w.expected| then
      var w1 := w.(expected := kept);
      var w2 := if SomeFailure(w.expected, e) then
          w1.(backoff := Some(FailureText(e)), statusTimer := Some(Timer(now + STATUS_TIMEOUT, w.spawned)),
              spawned := w.spawned + 1)
        else w1;
      if a.published then Outcome(w2, Some([]), [RemoveExpected(e)]) else Outcome(w2, None, [])
    else if !Accepting(w) then Outcome(w, Some([]), [])
    else if a.config + a.secrets != [] then Outcome(w, Some(a.config + a.secrets), [])
    else if a.scaler.None? then Outcome(w, None, [])
    else
      var w1 := WithEvents(w, now, cleanup, CorrespondingEvents(a.scaler.value));
      if w1.expected == [] then Outcome(w1, a.scaler, [])
      else if a.published then Outcome(w1, a.scaler, [RegisterExpected(Some(e))])
      else Outcome(w1, None, [])
  }

  /** reconcile_internal */
  function Reconcile(w: Wrapper, now: int, cleanup: nat, a: Answer): Outcome {
    if !Accepting(w) then Outcome(w, Some([]), [])
    else if a.requirementsFail then Outcome(w, None, [])
    else if a.config + a.secrets != [] then Outcome(w, Some(a.config + a.secrets), [])
    else if a.scaler.None? || a.scaler.value == [] then Outcome(w, a.scaler, [])
    else
      var w1 := WithEvents(w, now, cleanup, CorrespondingEvents(a.scaler.value));
      if w1.expected == [] then Outcome(w1, a.scaler, [])
      else if a.published then Outcome(w1, a.scaler, [RegisterExpected(None)])
      else Outcome(w1, None, [])
  }

  lemma {:induction false} UnansweredKeeps(expected: seq<Expected>, e: Event, pair: Expected)
    ensures pair in Unanswered(expected, e) <==> pair in expected && !Answers(pair, e)
    ensures |Unanswered(expected, e)| <= |expected|
    ensures |Unanswered(expected, e)| == |expected| ==> Unanswered(expected, e) == expected
  {
    if expected != [] {
      var n := |expected| - 1;
      UnansweredKeeps(expected[..n], e, pair);
      assert expected == expected[..n] + [expected[n]];
    }
  }

  lemma OneMorePair(expected: seq<Expected>, i: nat, e: Event)
    requires i < |expected|
    ensures Unanswered(expected[..i + 1], e) ==
            Unanswered(expected[..i], e) + (if Answers(expected[i], e) then [] else [expected[i]])
    ensures SomeFailure(expected[..i + 1], e) <==> (SomeFailure(expected[..i], e) || MatchesFailure(expected[i], e))
  {
    var more := expected[..i + 1];
    assert more[..i] == expected[..i] && more[i] == expected[i];
    if j :| 0 <= j < i && MatchesFailure(expected[..i][j], e) {
      assert MatchesFailure(more[j], e);
    }
  }

  class BackoffWrapper {
    var expectedEvents: seq<Expected>
    var backoffStatus: Option<string>
    var eventCleaner: Option<Timer>
    var statusCleaner: Option<Timer>
    var spawned: nat
    const cleanupTimeout: nat

    constructor (timeout: nat)
      ensures State() == Wrapper([], None, None, None, 0) && cleanupTimeout == timeout
    {
      expectedEvents, backoffStatus, eventCleaner, statusCleaner, spawned := [], None, None, None, 0;
      cleanupTimeout := timeout;
    }

    function State(): Wrapper
      reads this
    {
      Wrapper(expectedEvents, backoffStatus, eventCleaner, statusCleaner, spawned)
    }

    method AddEvents(events: seq<Expected>, clearPrevious: bool, now: int)
      modifies this
      ensures State() == WithEvents(old(State()), now, cleanupTimeout,
                                    (if clearPrevious then [] else old(expectedEvents)) + events)
    {
      if clearPrevious { expectedEvents := []; }
      expectedEvents := expectedEvents + events;
      eventCleaner := Some(Timer(now + cleanupTimeout, spawned));
      spawned := spawned + 1;
    }

    /** Keeps the pairs that the event does not answer, and notes whether it is some pair's failure. */
    method RemoveEvent(e: Event) returns (removed: bool, failed: bool)
      modifies this`expectedEvents
      ensures expectedEvents == Unanswered(old(expectedEvents), e)
      ensures removed <==> |expectedEvents| < |old(expectedEvents)|
      ensures !removed ==> expectedEvents == old(expectedEvents)
      ensures failed <==> SomeFailure(old(expectedEvents), e)
    {
      var kept, pairs := [], expectedEvents;
      failed := false;
      for i := 0 to |pairs|
        invariant expectedEvents == old(expectedEvents)
        invariant kept == Unanswered(pairs[..i], e) && failed == SomeFailure(pairs[..i], e)
      {
        OneMorePair(pairs, i, e);
        var matchesFailure := MatchesFailure(pairs[i], e);
        failed := failed || matchesFailure;
        if !(MatchesSuccess(pairs[i], e) || matchesFailure) { kept := kept + [pairs[i]]; }
      }
      assert pairs[..|pairs|] == pairs;
      UnansweredKeeps(pairs, e, Expected(e, None));
      removed := |kept| < |pairs|;
      expectedEvents := kept;
    }

    method HandleEventInternal(e: Event, a: Answer, now: int)
      returns (commands: Option<seq<Command>>, notices: seq<Notice>)
      modifies this
      ensures Outcome(State(), commands, notices) == HandleEvent(old(State()), now, cleanupTimeout, e, a)
    {
      var expectedEvent, failedEvent := RemoveEvent(e);
      if expectedEvent {
        if failedEvent {
          backoffStatus := Some(FailureText(e));
          statusCleaner := Some(Timer(now + STATUS_TIMEOUT, spawned));
          spawned := spawned + 1;
        }
        if !a.published { return None, []; }
        return Some([]), [RemoveExpected(e)];
      }
      if |expectedEvents| > 0 || backoffStatus.Some? { return Some([]), []; }
      if a.config + a.secrets != [] { return Some(a.config + a.secrets), []; }
      if a.scaler.None? { return None, []; }
      AddEvents(CorrespondingEvents(a.scaler.value), false, now);
      if expectedEvents == [] { return a.scaler, []; }
      if !a.published { return None, []; }
      return a.scaler, [RegisterExpected(Some(e))];
    }

    method ReconcileInternal(a: Answer, now: int) returns (commands: Option<seq<Command>>, notices: seq<Notice>)
      modifies this
      ensures Outcome(State(), commands, notices) == Reconcile(old(State()), now, cleanupTimeout, a)
    {
      if |expectedEvents| > 0 || backoffStatus.Some? { return Some([]), []; }
      if a.requirementsFail { return None, []; }
      if a.config + a.secrets != [] { return Some(a.config + a.secrets), []; }
      if a.scaler.None? || a.scaler.value == [] { return a.scaler, []; }
      AddEvents(CorrespondingEvents(a.scaler.value), true, now);
      if expectedEvents == [] { return a.scaler, []; }
      if !a.published { return None, []; }
      return a.scaler, [RegisterExpected(None)];
    }
  }

  // ---------- runs of one wrapper ----------

  datatype Step =
    | Handle(event: Event, answer: Answer)
    | Reconciled(answer: Answer)
    | FireEvents
    | FireStatus
    | Wait(until: int)

  datatype Clocked = Clocked(wrapper: Wrapper, now: int)

  /** Time does not pass a pending timer. */
  predicate MayWait(c: Clocked, until: int) {
    && c.now <= until
    && (c.wrapper.eventTimer.Some? ==> until <= c.wrapper.eventTimer.value.due)
    && (c.wrapper.statusTimer.Some? ==> until <= c.wrapper.statusTimer.value.due)
  }

  function After(c: Clocked, cleanup: nat, s: Step): Clocked {
    match s
    case Handle(e, a) => c.(wrapper := HandleEvent(c.wrapper, c.now, cleanup, e, a).wrapper)
    case Reconciled(a) => c.(wrapper := Reconcile(c.wrapper, c.now, cleanup, a).wrapper)
    case FireEvents =>
      if c.wrapper.eventTimer.Some? && c.wrapper.eventTimer.value.due <= c.now then
        c.(wrapper := c.wrapper.(expected := [], eventTimer := None))
      else c
    case FireStatus =>
      if c.wrapper.statusTimer.Some? && c.wrapper.statusTimer.value.due <= c.now then
        c.(wrapper := c.wrapper.(backoff := None, statusTimer := None))
      else c
    case Wait(until) => if MayWait(c, until) then c.(now := until) else c
  }

  function Run(c: Clocked, cleanup: nat, steps: seq<Step>): Clocked {
    if steps == [] then c else After(Run(c, cleanup, steps[..|steps| - 1]), cleanup, steps[|steps| - 1])
  }

  /** The commands that a step returns to its caller. */
  function Returned(c: Clocked, cleanup: nat, s: Step): seq<Command> {
    match s
    case Handle(e, a) => HandleEvent(c.wrapper, c.now, cleanup, e, a).commands.GetOr([])
    case Reconciled(a) => Reconcile(c.wrapper, c.now, cleanup, a).commands.GetOr([])
    case _ => []
  }

  lemma CommandsOnlyWhenAccepting(c: Clocked, cleanup: nat, s: Step)
    ensures Returned(c, cleanup, s) != [] ==> Accepting(c.wrapper)
  {
  }

  /** A step that returns commands either registers exactly the events they expect, under a new timer,
      or returns the commands of config and secret scalers, which expect none. */
  lemma BatchRegistered(c: Clocked, cleanup: nat, s: Step)
    requires Returned(c, cleanup, s) != []
    ensures var w, w' := c.wrapper, After(c, cleanup, s).wrapper;
      || (w' == w && Returned(c, cleanup, s) == s.answer.config + s.answer.secrets)
      || (w'.expected == CorrespondingEvents(Returned(c, cleanup, s))
          && w'.eventTimer == Some(Timer(c.now + cleanup, w.spawned)) && w'.backoff.None?)
  {
  }

  ghost predicate Settles(s: Step, pair: Expected) {
    s.Handle? && Answers(pair, s.event)
  }

  /** Either some step answered the pair, or the given timer fired on the way. */
  ghost predicate Settled(c: Clocked, cleanup: nat, steps: seq<Step>, pair: Expected, timer: Timer) {
    exists k :: 0 <= k < |steps| && SettledAt(c, cleanup, steps, pair, timer, k)
  }

  ghost predicate SettledAt(c: Clocked, cleanup: nat, steps: seq<Step>, pair: Expected, timer: Timer, k: nat)
    requires k < |steps|
  {
    var before := Run(c, cleanup, steps[..k]);
    || Settles(steps[k], pair)
    || (steps[k].FireEvents? && before.wrapper.eventTimer == Some(timer) && timer.due <= before.now)
  }

  lemma PairStays(c: Clocked, cleanup: nat, s: Step, pair: Expected, timer: Timer)
    requires pair in c.wrapper.expected && c.wrapper.eventTimer == Some(timer)
    requires !Settles(s, pair) && !(s.FireEvents? && timer.due <= c.now)
    ensures pair in After(c, cleanup, s).wrapper.expected && After(c, cleanup, s).wrapper.eventTimer == Some(timer)
  {
    if s.Handle? { UnansweredKeeps(c.wrapper.expected, s.event, pair); }
  }

  lemma {:induction false} PairAccounted(c: Clocked, cleanup: nat, steps: seq<Step>, pair: Expected, timer: Timer)
    requires pair in c.wrapper.expected && c.wrapper.eventTimer == Some(timer)
    ensures var w := Run(c, cleanup, steps).wrapper;
      Settled(c, cleanup, steps, pair, timer) || (pair in w.expected && w.eventTimer == Some(timer))
  {
    if steps != [] {
      var n := |steps| - 1;
      var front := steps[..n];
      PairAccounted(c, cleanup, front, pair, timer);
      if Settled(c, cleanup, front, pair, timer) {
        var k :| 0 <= k < n && SettledAt(c, cleanup, front, pair, timer, k);
        assert front[..k] == steps[..k];
        assert SettledAt(c, cleanup, steps, pair, timer, k);
      } else if !SettledAt(c, cleanup, steps, pair, timer, n) {
        PairStays(Run(c, cleanup, front), cleanup, steps[n], pair, timer);
      }
    }
  }

  /** No overlapping batches: between a batch of commands that expect events and the next commands that
      the wrapper returns, every expected pair was answered by its success or its failure, or the timer
      that this very batch started fired. */
  lemma NoOverlappingBatches(c: Clocked, cleanup: nat, first: Step, steps: seq<Step>, next: Step, pair: Expected)
    requires var c1 := After(c, cleanup, first);
      && Returned(c, cleanup, first) != [] && c1.wrapper != c.wrapper
      && Returned(Run(c1, cleanup, steps), cleanup, next) != []
    requires pair in CorrespondingEvents(Returned(c, cleanup, first))
    ensures Settled(After(c, cleanup, first), cleanup, steps, pair, Timer(c.now + cleanup, c.wrapper.spawned))
  {
    var c1 := After(c, cleanup, first);
    BatchRegistered(c, cleanup, first);
    PairAccounted(c1, cleanup, steps, pair, Timer(c.now + cleanup, c.wrapper.spawned));
    CommandsOnlyWhenAccepting(Run(c1, cleanup, steps), cleanup, next);
  }

  // ---------- bounded waiting ----------

  ghost predicate SomePrefixAccepts(c: Clocked, cleanup: nat, steps: seq<Step>) {
    exists k :: 0 <= k <= |steps| && Accepting(Run(c, cleanup, steps[..k]).wrapper)
  }

  /** A wrapper that registered at time t and has been busy since. */
  ghost predicate BusySince(c: Clocked, cleanup: nat, t: int) {
    var w := c.wrapper;
    && (w.expected != [] ==> w.eventTimer.Some? && w.eventTimer.value.due == t + cleanup && c.now <= t + cleanup)
    && (w.backoff.Some? ==> w.statusTimer.Some? && c.now <= w.statusTimer.value.due <= t + cleanup + 5)
  }

  lemma BusyStep(c: Clocked, cleanup: nat, s: Step, t: int)
    requires BusySince(c, cleanup, t) && !Accepting(c.wrapper)
    ensures BusySince(After(c, cleanup, s), cleanup, t)
  {
    if s.Handle? { UnansweredKeeps(c.wrapper.expected, s.event, Expected(s.event, None)); }
  }

  lemma PrefixAccepts(c: Clocked, cleanup: nat, steps: seq<Step>, k: nat)
    requires k <= |steps|
    ensures SomePrefixAccepts(c, cleanup, steps[..k]) ==> SomePrefixAccepts(c, cleanup, steps)
    ensures Accepting(Run(c, cleanup, steps[..k]).wrapper) ==> SomePrefixAccepts(c, cleanup, steps)
  {
    var front := steps[..k];
    if j :| 0 <= j <= |front| && Accepting(Run(c, cleanup, front[..j]).wrapper) {
      assert front[..j] == steps[..j];
    }
  }

  /** Whatever happens after a wrapper registers expected events at time t, it accepts work again no
      later than the cleanup timeout plus five seconds after t. */
  lemma {:induction false} BoundedWaiting(c: Clocked, cleanup: nat, steps: seq<Step>, t: int)
    requires BusySince(c, cleanup, t)
    ensures SomePrefixAccepts(c, cleanup, steps)
         || (!Accepting(Run(c, cleanup, steps).wrapper) && BusySince(Run(c, cleanup, steps), cleanup, t)
             && Run(c, cleanup, steps).now <= t + cleanup + 5)
  {
    var n := |steps|;
    if n > 0 {
      var front := steps[..n - 1];
      BoundedWaiting(c, cleanup, front, t);
      PrefixAccepts(c, cleanup, steps, n - 1);
      if !SomePrefixAccepts(c, cleanup, front) {
        BusyStep(Run(c, cleanup, front), cleanup, steps[n - 1], t);
      }
    }
    assert steps[..n] == steps;
    PrefixAccepts(c, cleanup, steps, n);
  }

  /** The step spawned a timer while nothing was expected, so it has registered events, whether or not their
      notification could be published and the commands returned. */
  predicate Registers(c: Clocked, cleanup: nat, s: Step) {
    c.wrapper.expected == [] && After(c, cleanup, s).wrapper.spawned > c.wrapper.spawned
  }

  /** Every registration starts such a wait, under a timer of its own. */
  lemma RegistrationIsBusy(c: Clocked, cleanup: nat, s: Step)
    requires Registers(c, cleanup, s)
    ensures BusySince(After(c, cleanup, s), cleanup, c.now)
    ensures After(c, cleanup, s).wrapper.eventTimer == Some(Timer(c.now + cleanup, c.wrapper.spawned))
  {
    if s.Handle? { UnansweredKeeps(c.wrapper.expected, s.event, Expected(s.event, None)); }
  }

  /** Whatever makes the expected list longer is such a registration. */
  lemma OnlyRegistrationsExpect(c: Clocked, cleanup: nat, s: Step)
    requires |After(c, cleanup, s).wrapper.expected| > |c.wrapper.expected|
    ensures Registers(c, cleanup, s)
  {
    if s.Handle? { UnansweredKeeps(c.wrapper.expected, s.event, Expected(s.event, None)); }
  }

  /** From the empty list: any step that registers, and any steps after it. */
  lemma RegisteredThenAccepts(c: Clocked, cleanup: nat, s: Step, steps: seq<Step>)
    requires Registers(c, cleanup, s)
    ensures SomePrefixAccepts(After(c, cleanup, s), cleanup, steps)
         || Run(After(c, cleanup, s), cleanup, steps).now <= c.now + cleanup + 5
  {
    RegistrationIsBusy(c, cleanup, s);
    BoundedWaiting(After(c, cleanup, s), cleanup, steps, c.now);
  }

  // ---------- failures back off ----------

  ghost predicate HeldUntil(c: Clocked, t: int) {
    c.now >= t || (c.wrapper.backoff.Some? && c.wrapper.statusTimer.Some? && c.wrapper.statusTimer.value.due >= t)
  }

  lemma {:induction false} StaysHeld(c: Clocked, cleanup: nat, steps: seq<Step>, t: int)
    requires HeldUntil(c, t) && t <= c.now + 5
    ensures HeldUntil(Run(c, cleanup, steps), t) && t <= Run(c, cleanup, steps).now + 5
  {
    if steps != [] {
      StaysHeld(c, cleanup, steps[..|steps| - 1], t);
      var before, s := Run(c, cleanup, steps[..|steps| - 1]), steps[|steps| - 1];
      if s.Handle? { UnansweredKeeps(before.wrapper.expected, s.event, Expected(s.event, None)); }
    }
  }

  /** After an expected failure at time t, no commands come before t plus five seconds. */
  lemma FailureBacksOff(c: Clocked, cleanup: nat, e: Event, a: Answer, steps: seq<Step>, next: Step)
    requires SomeFailure(c.wrapper.expected, e)
    requires Returned(Run(After(c, cleanup, Handle(e, a)), cleanup, steps), cleanup, next) != []
    ensures Run(After(c, cleanup, Handle(e, a)), cleanup, steps).now >= c.now + 5
  {
    var c1 := After(c, cleanup, Handle(e, a));
    var i :| 0 <= i < |c.wrapper.expected| && MatchesFailure(c.wrapper.expected[i], e);
    UnansweredKeeps(c.wrapper.expected, e, c.wrapper.expected[i]);
    StaysHeld(c1, cleanup, steps, c.now + 5);
    CommandsOnlyWhenAccepting(Run(c1, cleanup, steps), cleanup, next);
  }

  // ---------- a batch is fully answered ----------

  ghost predicate HandledIn(steps: seq<Step>, pair: Expected) {
    exists k :: 0 <= k < |steps| && Settles(steps[k], pair)
  }

  ghost predicate AlwaysWaiting(c: Clocked, cleanup: nat, steps: seq<Step>) {
    forall k :: 0 <= k <= |steps| ==> Run(c, cleanup, steps[..k]).wrapper.expected != []
  }

  lemma WaitingShrinks(c: Clocked, cleanup: nat, s: Step, pair: Expected)
    requires c.wrapper.expected != [] && pair in After(c, cleanup, s).wrapper.expected
    ensures pair in c.wrapper.expected && !Settles(s, pair)
  {
    if s.Handle? { UnansweredKeeps(c.wrapper.expected, s.event, pair); }
  }

  lemma AlwaysWaitingFront(c: Clocked, cleanup: nat, steps: seq<Step>)
    requires steps != [] && AlwaysWaiting(c, cleanup, steps)
    ensures AlwaysWaiting(c, cleanup, steps[..|steps| - 1])
    ensures Run(c, cleanup, steps[..|steps| - 1]).wrapper.expected != []
  {
    var front := steps[..|steps| - 1];
    forall k | 0 <= k <= |front| ensures Run(c, cleanup, front[..k]).wrapper.expected != [] {
      assert front[..k] == steps[..k];
    }
  }

  /** While the wrapper waits, an answered pair does not come back. */
  lemma {:induction false} StillUnanswered(c: Clocked, cleanup: nat, steps: seq<Step>, pair: Expected)
    requires AlwaysWaiting(c, cleanup, steps) && pair in Run(c, cleanup, steps).wrapper.expected
    ensures pair in c.wrapper.expected && !HandledIn(steps, pair)
  {
    if steps != [] {
      var n := |steps| - 1;
      AlwaysWaitingFront(c, cleanup, steps);
      WaitingShrinks(Run(c, cleanup, steps[..n]), cleanup, steps[n], pair);
      StillUnanswered(c, cleanup, steps[..n], pair);
      forall k | 0 <= k < |steps| ensures !Settles(steps[k], pair) {
        if k < n { assert steps[..n][k] == steps[k]; }
      }
    }
  }

  /** For any list of commands: once every one that expects an event has been echoed, in any order and
      with anything in between, the expected list has been empty. */
  lemma BatchAnswered(c: Clocked, cleanup: nat, batch: seq<Command>, steps: seq<Step>)
    requires c.wrapper.expected == CorrespondingEvents(batch)
    requires forall i :: 0 <= i < |batch| && CorrespondingEvent(batch[i]).Some? ==>
               exists k :: 0 <= k < |steps| && steps[k].Handle? && Echoes(batch[i], steps[k].event)
    ensures exists k :: 0 <= k <= |steps| && Run(c, cleanup, steps[..k]).wrapper.expected == []
  {
    if AlwaysWaiting(c, cleanup, steps) {
      assert steps[..|steps|] == steps;
      var left := Run(c, cleanup, steps).wrapper.expected;
      var pair := left[0];
      assert pair in left;
      StillUnanswered(c, cleanup, steps, pair);
      CorrespondingEventsHas(batch, pair);
      var i :| 0 <= i < |batch| && CorrespondingEvent(batch[i]) == Some(pair);
      var k :| 0 <= k < |steps| && steps[k].Handle? && Echoes(batch[i], steps[k].event);
      EchoAnswers(batch[i], steps[k].event);
      assert Settles(steps[k], pair);
      assert false;
    }
  }
}

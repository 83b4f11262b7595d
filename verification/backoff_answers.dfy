/** What one step of a wrapper returns, publishes and remembers, case by case. */
module BackoffAnswers {
  import opened Wrappers
  import opened LatticeState
  import opened Events
  import opened Commands
  import opened BackoffWrappers

  /** What a step publishes. */
  function Published(c: Clocked, cleanup: nat, s: Step): seq<Notice> {
    match s
    case Handle(e, a) => HandleEvent(c.wrapper, c.now, cleanup, e, a).notices
    case Reconciled(a) => Reconcile(c.wrapper, c.now, cleanup, a).notices
    case _ => []
  }

  /** Whether it ends in an error. */
  predicate Fails(c: Clocked, cleanup: nat, s: Step) {
    match s
    case Handle(e, a) => HandleEvent(c.wrapper, c.now, cleanup, e, a).commands.None?
    case Reconciled(a) => Reconcile(c.wrapper, c.now, cleanup, a).commands.None?
    case _ => false
  }

  ghost predicate Expects(w: Wrapper, e: Event) {
    exists i :: 0 <= i < |w.expected| && Answers(w.expected[i], e)
  }

  lemma {:induction false} AnsweredGoes(expected: seq<Expected>, e: Event, i: nat)
    requires i < |expected| && Answers(expected[i], e)
    ensures |Unanswered(expected, e)| < |expected|
  {
    var n := |expected| - 1;
    UnansweredKeeps(expected[..n], e, expected[n]);
    if i < n { AnsweredGoes(expected[..n], e, i); }
  }

  lemma {:induction false} SomeAnswered(expected: seq<Expected>, e: Event) returns (i: nat)
    requires |Unanswered(expected, e)| < |expected|
    ensures i < |expected| && Answers(expected[i], e)
  {
    i := |expected| - 1;
    if !Answers(expected[i], e) { i := SomeAnswered(expected[..i], e); }
  }

  lemma Removes(w: Wrapper, e: Event)
    requires Expects(w, e)
    ensures |Unanswered(w.expected, e)| < |w.expected|
  {
    var i :| 0 <= i < |w.expected| && Answers(w.expected[i], e);
    AnsweredGoes(w.expected, e, i);
  }

  /** An expected event returns nothing, and the others are told, if they can be. */
  lemma ExpectedEvent(c: Clocked, cleanup: nat, e: Event, a: Answer)
    requires Expects(c.wrapper, e)
    ensures Returned(c, cleanup, Handle(e, a)) == []
    ensures Published(c, cleanup, Handle(e, a)) == if a.published then [RemoveExpected(e)] else []
    ensures Fails(c, cleanup, Handle(e, a)) <==> !a.published
  {
    Removes(c.wrapper, e);
  }

  /** What it answers is taken off the list, whatever else is there. */
  lemma ExpectedIsTakenOff(c: Clocked, cleanup: nat, e: Event, a: Answer, pair: Expected)
    requires Expects(c.wrapper, e)
    ensures var w, w' := c.wrapper, After(c, cleanup, Handle(e, a)).wrapper;
            (pair in w'.expected <==> pair in w.expected && !Answers(pair, e)) && w'.eventTimer == w.eventTimer
  {
    Removes(c.wrapper, e);
    UnansweredKeeps(c.wrapper.expected, e, pair);
  }

  /** A failure backs off for five seconds under its error, anything else not at all. */
  lemma ExpectedFailure(c: Clocked, cleanup: nat, e: Event, a: Answer)
    requires Expects(c.wrapper, e)
    ensures var w, w' := c.wrapper, After(c, cleanup, Handle(e, a)).wrapper;
      if exists i :: 0 <= i < |w.expected| && MatchesFailure(w.expected[i], e) then
        && w'.backoff == Some(if e.ProviderStartFailed? || e.ComponentScaleFailed? then e.error else "Received a failed event")
        && w'.statusTimer == Some(Timer(c.now + 5, w.spawned)) && w'.spawned == w.spawned + 1
      else
        w'.backoff == w.backoff && w'.statusTimer == w.statusTimer && w'.spawned == w.spawned
  {
    Removes(c.wrapper, e);
  }

  lemma NothingExpected(w: Wrapper, e: Event)
    requires !Expects(w, e)
    ensures Unanswered(w.expected, e) == w.expected
  {
    if |Unanswered(w.expected, e)| < |w.expected| { var i := SomeAnswered(w.expected, e); }
    UnansweredKeeps(w.expected, e, Expected(e, None));
  }

  /** Any other event leaves a wrapper alone that expects events or backs off, and so does a reconcile. */
  lemma BusyIgnores(c: Clocked, cleanup: nat, e: Event, a: Answer)
    requires c.wrapper.expected != [] || c.wrapper.backoff.Some?
    ensures !Expects(c.wrapper, e) ==>
              After(c, cleanup, Handle(e, a)) == c && Returned(c, cleanup, Handle(e, a)) == [] && Published(c, cleanup, Handle(e, a)) == []
              && !Fails(c, cleanup, Handle(e, a))
    ensures After(c, cleanup, Reconciled(a)) == c && Returned(c, cleanup, Reconciled(a)) == [] && Published(c, cleanup, Reconciled(a)) == []
            && !Fails(c, cleanup, Reconciled(a))
  {
    if !Expects(c.wrapper, e) { NothingExpected(c.wrapper, e); }
  }

  /** The commands of config and secret scalers are returned first, alone, and register nothing. */
  lemma RequirementsFirst(c: Clocked, cleanup: nat, s: Step)
    requires s.Handle? || (s.Reconciled? && !s.answer.requirementsFail)
    requires c.wrapper.expected == [] && c.wrapper.backoff.None? && (s.answer.config != [] || s.answer.secrets != [])
    ensures Returned(c, cleanup, s) == s.answer.config + s.answer.secrets
    ensures After(c, cleanup, s) == c && Published(c, cleanup, s) == [] && !Fails(c, cleanup, s)
  {
    assert s.answer.config + s.answer.secrets != [];
    if s.Handle? { NothingExpected(c.wrapper, s.event); }
  }

  /** A reconcile whose requirements fail returns nothing, but an error if it was not busy; an event goes on
      without them. */
  lemma FailingRequirements(c: Clocked, cleanup: nat, a: Answer)
    requires a.requirementsFail
    ensures Fails(c, cleanup, Reconciled(a)) <==> c.wrapper.expected == [] && c.wrapper.backoff.None?
    ensures After(c, cleanup, Reconciled(a)) == c && Returned(c, cleanup, Reconciled(a)) == [] && Published(c, cleanup, Reconciled(a)) == []
    ensures forall e :: After(c, cleanup, Handle(e, a)) == After(c, cleanup, Handle(e, a.(requirementsFail := false)))
                        && Returned(c, cleanup, Handle(e, a)) == Returned(c, cleanup, Handle(e, a.(requirementsFail := false)))
  {}

  /** The wrapped scaler is asked when these have none. Its commands are returned with their events registered
      under a new timer; the others are told of any. When they cannot be, the commands are lost and the
      events stay registered. */
  lemma OwnCommands(c: Clocked, cleanup: nat, s: Step, commands: seq<Command>)
    requires s.Handle? || (s.Reconciled? && !s.answer.requirementsFail && commands != [])
    requires c.wrapper.expected == [] && c.wrapper.backoff.None? && s.answer.config == [] && s.answer.secrets == []
    requires s.answer.scaler == Some(commands)
    ensures After(c, cleanup, s).now == c.now
    ensures After(c, cleanup, s).wrapper ==
            c.wrapper.(expected := CorrespondingEvents(commands), eventTimer := Some(Timer(c.now + cleanup, c.wrapper.spawned)),
                       spawned := c.wrapper.spawned + 1)
    ensures Returned(c, cleanup, s) == if CorrespondingEvents(commands) != [] && !s.answer.published then [] else commands
    ensures Fails(c, cleanup, s) <==> CorrespondingEvents(commands) != [] && !s.answer.published
    ensures Published(c, cleanup, s) ==
            if CorrespondingEvents(commands) != [] && s.answer.published
            then [RegisterExpected(if s.Handle? then Some(s.event) else None)] else []
  {
    if s.Handle? { NothingExpected(c.wrapper, s.event); }
  }

  /** Without commands a reconcile registers nothing; and neither does a step whose scaler fails. */
  lemma NoCommands(c: Clocked, cleanup: nat, s: Step)
    requires s.Handle? || s.Reconciled?
    requires c.wrapper.expected == [] && c.wrapper.backoff.None? && s.answer.config == [] && s.answer.secrets == []
    requires s.answer.scaler == None || (s.Reconciled? && s.answer.scaler == Some([]))
    ensures After(c, cleanup, s) == c && Returned(c, cleanup, s) == [] && Published(c, cleanup, s) == []
    ensures Fails(c, cleanup, s) <==> s.answer.scaler == None || (s.Reconciled? && s.answer.requirementsFail)
  {
    if s.Handle? { NothingExpected(c.wrapper, s.event); }
  }

  /** A timer that is due empties what it guards and nothing else, and until one is due time may pass. */
  lemma TimersFire(c: Clocked, cleanup: nat)
    ensures var w, w' := c.wrapper, After(c, cleanup, FireEvents).wrapper;
      if w.eventTimer.Some? && w.eventTimer.value.due <= c.now then
        w'.expected == [] && w'.eventTimer == None
        && w'.backoff == w.backoff && w'.statusTimer == w.statusTimer && w'.spawned == w.spawned
      else w' == w
    ensures var w, w' := c.wrapper, After(c, cleanup, FireStatus).wrapper;
      if w.statusTimer.Some? && w.statusTimer.value.due <= c.now then
        w'.backoff == None && w'.statusTimer == None
        && w'.expected == w.expected && w'.eventTimer == w.eventTimer && w'.spawned == w.spawned
      else w' == w
    ensures forall t: int :: c.now <= t && !(c.wrapper.eventTimer.Some? && c.wrapper.eventTimer.value.due < t)
                             && !(c.wrapper.statusTimer.Some? && c.wrapper.statusTimer.value.due < t) ==>
              After(c, cleanup, Wait(t)) == Clocked(c.wrapper, t)
  {}

  // ---------- which events answer which commands ----------

  /** What a command expects is exactly what a host echoes of it, and its failure exactly the failing echo. */
  lemma AnsweredByEchoes(command: Command, e: Event)
    ensures CorrespondingEvent(command).Some? <==> command.StartProvider? || command.ScaleComponent?
    ensures CorrespondingEvent(command).Some? ==>
              && (Answers(CorrespondingEvent(command).value, e) <==> Echoes(command, e))
              && (MatchesFailure(CorrespondingEvent(command).value, e) <==>
                    Echoes(command, e) && (e.ProviderStartFailed? || e.ComponentScaleFailed?))
  {}

  /** The expected events carry what the command says, with its managed annotations. */
  lemma ExpectedEvents(command: Command)
    requires command.StartProvider? || command.ScaleComponent?
    ensures var pair, managed := CorrespondingEvent(command).value, Managed(command.annotations, command.modelName);
      if command.StartProvider? then
        && pair.success == ProviderStarted(command.providerId, command.hostId, managed, command.reference, None)
        && pair.failure == Some(ProviderStartFailed(command.providerId, command.hostId, command.reference, ""))
      else
        && pair.success == ComponentScaled(command.componentId, command.hostId, managed, command.count, command.reference, None)
        && pair.failure == Some(ComponentScaleFailed(command.componentId, command.hostId, managed, command.count, command.reference, None, ""))
  {}

  /** A command's annotations go out with two more. */
  lemma ManagedAnnotations(a: Annotations, model: string)
    ensures var r := Managed(a, model);
      && r.Keys == a.Keys + {"wasmcloud.dev/managed-by", "wasmcloud.dev/appspec"}
      && r["wasmcloud.dev/managed-by"] == "wadm" && r["wasmcloud.dev/appspec"] == model
      && forall k :: k in a && k != "wasmcloud.dev/managed-by" && k != "wasmcloud.dev/appspec" ==> r[k] == a[k]
  {
    assert |"wasmcloud.dev/managed-by"| == 24 && |"wasmcloud.dev/appspec"| == 21;
  }

  /** Every command that expects an event registers it, in the order of the commands. */
  lemma {:induction false} EventsOfAll(commands: seq<Command>, more: seq<Command>)
    ensures CorrespondingEvents(commands + more) == CorrespondingEvents(commands) + CorrespondingEvents(more)
    ensures |commands| == 1 ==>
              CorrespondingEvents(commands) ==
              if CorrespondingEvent(commands[0]).Some? then [CorrespondingEvent(commands[0]).value] else []
  {
    if more != [] {
      assert (commands + more)[..|commands + more| - 1] == commands + more[..|more| - 1];
      EventsOfAll(commands, more[..|more| - 1]);
    } else {
      assert commands + more == commands;
      if |commands| == 1 { assert commands[..0] == []; }
    }
  }
}

/** The commands that scalers issue, and the events they expect in answer. */
module Commands {
  import opened Wrappers
  import opened LatticeState
  import opened Events

  const MANAGED_BY_ANNOTATION := "wasmcloud.dev/managed-by"
  const MANAGED_BY_IDENTIFIER := "wadm"
  const APP_SPEC_ANNOTATION := "wasmcloud.dev/appspec"
  const SCALER_KEY := "wasmcloud.dev/scaler"
  const SPREAD_KEY := "wasmcloud.dev/spread_name"

  datatype Command =
    | ScaleComponent(componentId: Id, hostId: Id, count: nat, reference: string, modelName: string,
                     annotations: Annotations, config: seq<string>)
    | StartProvider(reference: string, providerId: Id, hostId: Id, modelName: string, config: seq<string>,
                    annotations: Annotations)
    | StopProvider(providerId: Id, hostId: Id, modelName: string, annotations: Annotations)
    | PutLink(sourceId: Id, target: Id, linkName: string)
    | DeleteLink(sourceId: Id, linkName: string)
    | PutConfig(configName: string, values: map<string, string>)
    | DeleteConfig(configName: string)

  /** The annotations as both the command worker and the expected events carry them. */
  function Managed(a: Annotations, model: string): Annotations {
    a[MANAGED_BY_ANNOTATION := MANAGED_BY_IDENTIFIER][APP_SPEC_ANNOTATION := model]
  }

  /** The event that answers a command, and the one that reports its failure. */
  datatype Expected = Expected(success: Event, failure: Option<Event>)

  /** Command::corresponding_event */
  function CorrespondingEvent(c: Command): Option<Expected> {
    match c
    case StartProvider(reference, provider, host, model, _, annotations) =>
      Some(Expected(ProviderStarted(provider, host, Managed(annotations, model), reference, None),
                    Some(ProviderStartFailed(provider, host, reference, ""))))
    case ScaleComponent(component, host, count, reference, model, annotations, _) =>
      var managed := Managed(annotations, model);
      Some(Expected(ComponentScaled(component, host, managed, count, reference, None),
                    Some(ComponentScaleFailed(component, host, managed, count, reference, None, ""))))
    case _ => None
  }

  function CorrespondingEvents(cs: seq<Command>): seq<Expected> {
    if cs == [] then []
    else
      var last := CorrespondingEvent(cs[|cs| - 1]);
      CorrespondingEvents(cs[..|cs| - 1]) + (if last.Some? then [last.value] else [])
  }

  /** evt_matches_expected: the fields that a command determines, and no others. */
  predicate Matches(incoming: Event, expected: Event) {
    match (incoming, expected)
    case (ProviderStarted(p1, h1, a1, i1, _), ProviderStarted(p2, h2, a2, i2, _)) =>
      a1 == a2 && i1 == i2 && p1 == p2 && h1 == h2
    case (ProviderStartFailed(p1, h1, i1, _), ProviderStartFailed(p2, h2, i2, _)) =>
      p1 == p2 && h1 == h2 && i1 == i2
    case (ComponentScaled(c1, h1, a1, _, i1, _), ComponentScaled(c2, h2, a2, _, i2, _)) =>
      a1 == a2 && i1 == i2 && c1 == c2 && h1 == h2
    case (ComponentScaleFailed(c1, h1, a1, _, i1, _, _), ComponentScaleFailed(c2, h2, a2, _, i2, _, _)) =>
      a1 == a2 && i1 == i2 && c1 == c2 && h1 == h2
    case _ => false
  }

  predicate MatchesSuccess(pair: Expected, e: Event) {
    Matches(pair.success, e)
  }

  predicate MatchesFailure(pair: Expected, e: Event) {
    pair.failure.Some? && Matches(pair.failure.value, e)
  }

  predicate Answers(pair: Expected, e: Event) {
    MatchesSuccess(pair, e) || MatchesFailure(pair, e)
  }

  /** What a host reports after the command worker sent it the command: the ids, reference and managed
      annotations come back; claims, counts and error texts are the host's own. */
  ghost predicate Echoes(c: Command, e: Event) {
    match c
    case StartProvider(reference, provider, host, model, _, annotations) =>
      || (e.ProviderStarted? && e.providerId == provider && e.hostId == host && e.imageRef == reference
          && e.annotations == Managed(annotations, model))
      || (e.ProviderStartFailed? && e.providerId == provider && e.hostId == host && e.imageRef == reference)
    case ScaleComponent(component, host, _, reference, model, annotations, _) =>
      && (e.ComponentScaled? || e.ComponentScaleFailed?)
      && e.componentId == component && e.hostId == host && e.imageRef == reference
      && e.annotations == Managed(annotations, model)
    case _ => false
  }

  lemma EchoAnswers(c: Command, e: Event)
    requires Echoes(c, e)
    ensures CorrespondingEvent(c).Some? && Answers(CorrespondingEvent(c).value, e)
  {
  }

  lemma {:induction false} CorrespondingEventsHas(cs: seq<Command>, pair: Expected)
    requires pair in CorrespondingEvents(cs)
    ensures exists i :: 0 <= i < |cs| && CorrespondingEvent(cs[i]) == Some(pair)
  {
    var n := |cs| - 1;
    if pair in CorrespondingEvents(cs[..n]) {
      CorrespondingEventsHas(cs[..n], pair);
      var i :| 0 <= i < n && CorrespondingEvent(cs[..n][i]) == Some(pair);
      assert CorrespondingEvent(cs[i]) == Some(pair);
    } else {
      assert CorrespondingEvent(cs[n]) == Some(pair);
    }
  }
}

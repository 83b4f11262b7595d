/** From the components of a manifest to the scalers that watch over them. */
module Conversion {
  import opened Wrappers
  import opened Spreads
  import opened Manifests

  /** A library constant; no property depends on its value. */
  const SECRET_PREFIX := "SECRET"

  /** None stands for a panic. */
  type Outcome<+T> = Option<T>

  datatype ConfigScaler = ConfigScaler(name: string, properties: Option<map<string, string>>)

  datatype SecretScaler = SecretScaler(
    name: string,
    secret: SecretProperty,
    backend: string,
    properties: map<string, string>)

  datatype ScalerKind = ComponentSpread | ComponentDaemon | ProviderSpread | ProviderDaemon

  datatype Job =
    | Run(kind: ScalerKind, id: string, image: string, name: string, config: seq<string>, instances: nat, spread: seq<Spread>)
    | Connect(source: string, target: string, link: LinkProperty, sourceConfig: seq<string>, targetConfig: seq<string>)

  /** A wrapped scaler waits so many seconds for the events it expects. */
  datatype Scaler =
    | Wrapped(job: Job, model: string, configs: seq<ConfigScaler>, secrets: seq<SecretScaler>, wait: nat)
    | Placeholder(name: string)
  {
    predicate IsLink() { Wrapped? && job.Connect? }
  }

  // ---------- names ----------

  function SanitizeChar(c: char): (r: char)
    ensures 'a' <= r <= 'z' || '0' <= r <= '9' || r == '_'
  {
    if 'A' <= c <= 'Z' then c - 'A' + 'a'
    else if 'a' <= c <= 'z' || '0' <= c <= '9' then c
    else '_'
  }

  function Sanitize(s: string): (r: string)
    ensures |r| == |s| && '-' !in r
  {
    seq(|s|, i requires 0 <= i < |s| => SanitizeChar(s[i]))
  }

  function ComputeComponentId(manifestName: string, id: Option<string>, component: string): string {
    if id.Some? then id.value else Sanitize(manifestName) + "-" + Sanitize(component)
  }

  function ComputeSecretId(manifestName: string, secret: string): string {
    SECRET_PREFIX + "_" + ComputeComponentId(manifestName, None, secret)
  }

  /** The application and the name under which a component runs, or an error. */
  function Resolve(manifestName: string, name: string, image: Option<string>, shared: Option<SharedComponent>)
    : Option<(string, string)>
  {
    match (image, shared)
    case (Some(_), None) => Some((manifestName, name))
    case (None, Some(app)) => Some((app.name, app.component))
    case _ => None
  }

  // ---------- configs and secrets ----------

  function ConfigName(manifestName: string, c: ConfigProperty): string {
    if c.properties.Some? then ComputeComponentId(manifestName, None, c.name) else c.name
  }

  function ConfigNames(manifestName: string, configs: seq<ConfigProperty>): seq<string> {
    seq(|configs|, i requires 0 <= i < |configs| => ConfigName(manifestName, configs[i]))
  }

  function ConfigScalers(manifestName: string, configs: seq<ConfigProperty>): seq<ConfigScaler> {
    seq(|configs|, i requires 0 <= i < |configs| =>
      ConfigScaler(ConfigName(manifestName, configs[i]), configs[i].properties))
  }

  /** Panics when the policy is unknown or has no backend. */
  function ForSecret(manifestName: string, s: SecretProperty, policies: map<string, Policy>): Outcome<SecretScaler> {
    if s.policy !in policies then None
    else
      var properties := policies[s.policy].properties;
      if "backend" !in properties then None
      else Some(SecretScaler(ComputeSecretId(manifestName, s.name), s, properties["backend"], properties - {"backend"}))
  }

  function SecretScalers(manifestName: string, secrets: seq<SecretProperty>, policies: map<string, Policy>)
    : Outcome<seq<SecretScaler>>
  {
    if secrets == [] then Some([])
    else
      var before := SecretScalers(manifestName, secrets[..|secrets| - 1], policies);
      var last := ForSecret(manifestName, secrets[|secrets| - 1], policies);
      if before.Some? && last.Some? then Some(before.value + [last.value]) else None
  }

  function SecretNames(manifestName: string, secrets: seq<SecretProperty>): seq<string> {
    seq(|secrets|, i requires 0 <= i < |secrets| => ComputeSecretId(manifestName, secrets[i].name))
  }

  // ---------- one component ----------

  /** A component being converted, with the manifest around it and what it resolved to. */
  datatype Site = Site(
    manifestName: string,
    components: seq<Component>,
    policies: map<string, Policy>,
    component: Component,
    application: string,
    name: string)
  {
    /** The id its instances run under. */
    function Id(): string {
      ComputeComponentId(if component.image.Some? then manifestName else application, component.id, name)
    }
  }

  predicate CanLinkTo(source: ComponentType, target: Component) {
    source == WasmComponent || target.kind == WasmComponent
  }

  /** The first component of that name that a link from such a source may have as its target. */
  function FindTarget(components: seq<Component>, source: ComponentType, name: string): (r: Option<Component>)
    ensures r.Some? ==> r.value in components && r.value.name == name && CanLinkTo(source, r.value)
  {
    if components == [] then None
    else if components[0].name == name && CanLinkTo(source, components[0]) then Some(components[0])
    else FindTarget(components[1..], source, name)
  }

  function ForLink(site: Site, p: LinkProperty, target: Component): Outcome<Scaler> {
    var m := site.manifestName;
    var sources := SecretScalers(m, p.SourceSecrets(), site.policies);
    var targets := SecretScalers(m, p.target.secrets, site.policies);
    if sources.None? || targets.None? then None
    else
      var resolved := Resolve(m, target.name, target.image, target.application);
      if resolved.None? then Some(Placeholder(target.name))
      else
        Some(Wrapped(
               Connect(
                 site.Id(),
                 ComputeComponentId(resolved.value.0, target.id, resolved.value.1),
                 p,
                 ConfigNames(m, p.SourceConfig()) + SecretNames(m, p.SourceSecrets()),
                 ConfigNames(m, p.target.config) + SecretNames(m, p.target.secrets)),
               site.application,
               ConfigScalers(m, p.SourceConfig()) + ConfigScalers(m, p.target.config),
               sources.value + targets.value,
               5))
  }

  function ForTarget(site: Site, p: LinkProperty): Outcome<Option<Scaler>> {
    var target := FindTarget(site.components, site.component.kind, p.target.name);
    if target.None? then Some(None)
    else
      var scaler := ForLink(site, p, target.value);
      if scaler.Some? then Some(Some(scaler.value)) else None
  }

  /** A provider takes longer to start. Config and secret names are those of the manifest for a component and those of the application for
      a provider; for anything with an image the two are the same. */
  function Runner(site: Site, kind: ScalerKind, instances: nat, spread: seq<Spread>): Outcome<Scaler>
    requires site.component.image.Some?
  {
    var c := site.component;
    var owner := if c.kind == WasmComponent then site.manifestName else site.application;
    var secrets := SecretScalers(owner, c.secrets, site.policies);
    if secrets.None? then None
    else
      var names := ConfigNames(owner, c.config) + SecretNames(owner, c.secrets);
      Some(Wrapped(
             Run(kind, site.Id(), c.image.value, site.name, names, instances, spread),
             site.application,
             ConfigScalers(owner, c.config),
             secrets.value,
             if c.kind == WasmComponent then 5 else 60))
  }

  /** A scaler trait whose properties say how to scale. */
  predicate Scales(t: Trait) {
    t.IsScaler() && t.properties.SpreadScaler?
  }

  function KindFor(c: Component, t: Trait): ScalerKind {
    match (c.kind, t.traitType == SPREADSCALER_TRAIT)
    case (WasmComponent, true) => ComponentSpread
    case (WasmComponent, false) => ComponentDaemon
    case (Capability, true) => ProviderSpread
    case (Capability, false) => ProviderDaemon
  }

  function ForTrait(site: Site, t: Trait): Outcome<Option<Scaler>> {
    var c := site.component;
    if c.kind == WasmComponent && SecretScalers(site.manifestName, c.secrets, site.policies).None? then None
    else if Scales(t) then
      if c.image.None? then Some(None)
      else
        var runner := Runner(site, KindFor(c, t), t.properties.instances, t.properties.spread);
        if runner.Some? then Some(Some(runner.value)) else None
    else if t.IsLink() && t.properties.Link? then ForTarget(site, t.properties.link)
    else Some(None)
  }

  function ForTraits(site: Site, traits: seq<Trait>): Outcome<seq<Scaler>> {
    if traits == [] then Some([])
    else
      var before := ForTraits(site, traits[..|traits| - 1]);
      var last := ForTrait(site, traits[|traits| - 1]);
      if before.None? || last.None? then None
      else Some(before.value + if last.value.Some? then [last.value.value] else [])
  }

  predicate ScalerSpecified(traits: seq<Trait>) {
    exists t :: t in traits && Scales(t)
  }

  function ForSite(site: Site): Outcome<seq<Scaler>> {
    var c := site.component;
    var scalers := ForTraits(site, c.Traits());
    if scalers.Some? && c.kind == Capability && c.image.Some? && !ScalerSpecified(c.Traits()) then
      var default := Runner(site, ProviderSpread, 1, []);
      if default.Some? then Some(scalers.value + [default.value]) else None
    else scalers
  }

  function SiteOf(manifestName: string, components: seq<Component>, policies: map<string, Policy>, c: Component)
    : Option<Site>
  {
    var resolved := Resolve(manifestName, c.name, c.image, c.application);
    if resolved.None? then None
    else Some(Site(manifestName, components, policies, c, resolved.value.0, resolved.value.1))
  }

  function ForComponent(manifestName: string, components: seq<Component>, policies: map<string, Policy>, c: Component)
    : Outcome<seq<Scaler>>
  {
    var site := SiteOf(manifestName, components, policies, c);
    if site.None? then Some([Placeholder(c.name)]) else ForSite(site.value)
  }

  function ForComponents(manifestName: string, components: seq<Component>, policies: map<string, Policy>, cs: seq<Component>)
    : Outcome<seq<Scaler>>
  {
    if cs == [] then Some([])
    else
      var before := ForComponents(manifestName, components, policies, cs[..|cs| - 1]);
      var last := ForComponent(manifestName, components, policies, cs[|cs| - 1]);
      if before.None? || last.None? then None else Some(before.value + last.value)
  }

  function Convert(m: Manifest): Outcome<seq<Scaler>> {
    ForComponents(m.name, m.components, PolicyLookup(m.policies), m.components)
  }

  // ---------- the loops that append to one list of scalers ----------

  lemma TraitsStep(site: Site, traits: seq<Trait>, i: nat, added: seq<Scaler>)
    requires i < |traits| && ForTraits(site, traits[..i]) == Some(added) && ForTrait(site, traits[i]).Some?
    ensures ForTraits(site, traits[..i + 1]) ==
            var scaler := ForTrait(site, traits[i]).value;
            Some(if scaler.Some? then added + [scaler.value] else added)
  {
    assert traits[..i + 1][..i] == traits[..i] && traits[..i + 1][i] == traits[i];
    assert added + [] == added;
  }

  lemma SpecifiedStep(traits: seq<Trait>, i: nat)
    requires i < |traits|
    ensures ScalerSpecified(traits[..i + 1]) <==> (ScalerSpecified(traits[..i]) || Scales(traits[i]))
  {
    assert traits[..i + 1] == traits[..i] + [traits[i]];
  }

  method ComponentScalers(scalers: seq<Scaler>, site: Site) returns (r: Outcome<seq<Scaler>>)
    requires site.component.kind == WasmComponent
    ensures r == if ForSite(site).None? then None else Some(scalers + ForSite(site).value)
  {
    var added: seq<Scaler> := [];
    var traits := site.component.Traits();
    for i := 0 to |traits|
      invariant ForTraits(site, traits[..i]) == Some(added)
    {
      var scaler := ForTrait(site, traits[i]);
      if scaler.None? {
        PanicsEarly(site, traits, i);
        return None;
      }
      TraitsStep(site, traits, i, added);
      if scaler.value.Some? { added := added + [scaler.value.value]; }
    }
    assert traits[..|traits|] == traits;
    return Some(scalers + added);
  }

  method ProviderScalers(scalers: seq<Scaler>, site: Site) returns (r: Outcome<seq<Scaler>>)
    requires site.component.kind == Capability
    ensures r == if ForSite(site).None? then None else Some(scalers + ForSite(site).value)
  {
    var added: seq<Scaler>, scalerSpecified := [], false;
    var c := site.component;
    var traits := c.Traits();
    for i := 0 to |traits|
      invariant ForTraits(site, traits[..i]) == Some(added)
      invariant c.image.Some? ==> (scalerSpecified <==> ScalerSpecified(traits[..i]))
    {
      SpecifiedStep(traits, i);
      var scaler := ForTrait(site, traits[i]);
      if scaler.None? {
        PanicsEarly(site, traits, i);
        return None;
      }
      TraitsStep(site, traits, i, added);
      if scaler.value.Some? { added := added + [scaler.value.value]; }
      if Scales(traits[i]) && c.image.Some? { scalerSpecified := true; }
    }
    assert traits[..|traits|] == traits;
    if !scalerSpecified && c.image.Some? {
      var default := Runner(site, ProviderSpread, 1, []);
      if default.None? { return None; }
      added := added + [default.value];
    }
    return Some(scalers + added);
  }

  lemma {:induction false} PanicsEarly(site: Site, traits: seq<Trait>, i: nat)
    requires i < |traits| && ForTrait(site, traits[i]).None?
    ensures ForTraits(site, traits).None?
  {
    if i < |traits| - 1 {
      PanicsEarly(site, traits[..|traits| - 1], i);
    }
  }

  lemma {:induction false} ComponentPanics(m: Manifest, cs: seq<Component>, i: nat)
    requires i < |cs| && ForComponent(m.name, m.components, PolicyLookup(m.policies), cs[i]).None?
    ensures ForComponents(m.name, m.components, PolicyLookup(m.policies), cs).None?
  {
    if i < |cs| - 1 {
      ComponentPanics(m, cs[..|cs| - 1], i);
    }
  }

  /** None when the conversion panics. */
  method ManifestComponentsToScalers(m: Manifest) returns (r: Outcome<seq<Scaler>>)
    ensures r == Convert(m)
  {
    var scalers: seq<Scaler> := [];
    var policies, cs := PolicyLookup(m.policies), m.components;
    for i := 0 to |cs|
      invariant ForComponents(m.name, cs, policies, cs[..i]) == Some(scalers)
    {
      assert cs[..i + 1][..i] == cs[..i];
      var c := cs[i];
      var resolved := Resolve(m.name, c.name, c.image, c.application);
      if resolved.None? {
        scalers := scalers + [Placeholder(c.name)];
      } else {
        var site := Site(m.name, cs, policies, c, resolved.value.0, resolved.value.1);
        var extended;
        match c.kind {
          case WasmComponent => extended := ComponentScalers(scalers, site);
          case Capability => extended := ProviderScalers(scalers, site);
        }
        if extended.None? {
          ComponentPanics(m, cs, i);
          return None;
        }
        scalers := extended.value;
      }
    }
    assert cs[..|cs|] == cs;
    return Some(scalers);
  }
}

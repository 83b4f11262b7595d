/** On a manifest that passed validation, conversion is total and gives the scalers the manifest asks for. */
module ConversionCorrectness {
  import opened Wrappers
  import opened Manifests
  import opened Validation
  import opened Validity
  import opened Conversion

  // ---------- it does not panic ----------

  /** What making the scaler of a secret needs, the policy's type apart. */
  ghost predicate Backed(policies: map<string, Policy>, s: SecretProperty) {
    s.policy in policies && "backend" in policies[s.policy].properties
  }

  ghost predicate AllBacked(policies: map<string, Policy>, secrets: seq<SecretProperty>) {
    forall s :: s in secrets ==> Backed(policies, s)
  }

  lemma {:induction false} SecretsConvertIff(manifestName: string, secrets: seq<SecretProperty>, policies: map<string, Policy>)
    ensures SecretScalers(manifestName, secrets, policies).Some? <==> AllBacked(policies, secrets)
  {
    if secrets != [] {
      var front, last := secrets[..|secrets| - 1], secrets[|secrets| - 1];
      assert secrets == front + [last];
      SecretsConvertIff(manifestName, front, policies);
      assert AllBacked(policies, secrets) <==> (AllBacked(policies, front) && Backed(policies, last));
    }
  }

  ghost predicate IsSite(m: Manifest, site: Site) {
    && site.component in m.components
    && SiteOf(m.name, m.components, PolicyLookup(m.policies), site.component) == Some(site)
  }

  /** Every component of a well-formed manifest resolves. */
  lemma SiteExists(m: Manifest, c: Component)
    requires WellFormed(m) && c in m.components
    ensures SiteOf(m.name, m.components, PolicyLookup(m.policies), c).Some?
    ensures IsSite(m, SiteOf(m.name, m.components, PolicyLookup(m.policies), c).value)
  {
    assert Located(c);
  }

  lemma OwnSecretsConvert(m: Manifest, site: Site, manifestName: string)
    requires WellFormed(m) && IsSite(m, site)
    ensures SecretScalers(manifestName, site.component.secrets, site.policies).Some?
  {
    var c := site.component;
    assert SecretsBacked(site.policies, c.Secrets());
    forall s | s in c.secrets ensures Backed(site.policies, s) {
      assert s in c.Secrets();
      assert HasBackend(site.policies, s);
    }
    SecretsConvertIff(manifestName, c.secrets, site.policies);
  }

  lemma LinkSecretsConvert(m: Manifest, site: Site, t: Trait)
    requires WellFormed(m) && IsSite(m, site) && t in site.component.Traits() && t.properties.Link?
    ensures SecretScalers(m.name, t.properties.link.SourceSecrets(), site.policies).Some?
    ensures SecretScalers(m.name, t.properties.link.target.secrets, site.policies).Some?
  {
    var c, p := site.component, t.properties.link;
    assert SecretsBacked(site.policies, c.Secrets());
    forall s | s in p.SourceSecrets() || s in p.target.secrets ensures Backed(site.policies, s) {
      LinkSecretIn(c.Traits(), s);
      assert s in c.Secrets();
      assert HasBackend(site.policies, s);
    }
    SecretsConvertIff(m.name, p.SourceSecrets(), site.policies);
    SecretsConvertIff(m.name, p.target.secrets, site.policies);
  }

  /** The application in which a component's instances run, and the id they run under. */
  function OwnApplication(manifestName: string, c: Component): string {
    if c.application.Some? then c.application.value.name else manifestName
  }

  function OwnId(manifestName: string, c: Component): string {
    if c.id.Some? then c.id.value
    else Sanitize(OwnApplication(manifestName, c)) + "-" + Sanitize(if c.application.Some? then c.application.value.component else c.name)
  }

  lemma OwnIdIs(manifestName: string, c: Component)
    requires Resolve(manifestName, c.name, c.image, c.application).Some?
    ensures var at := Resolve(manifestName, c.name, c.image, c.application).value;
            ComputeComponentId(at.0, c.id, at.1) == OwnId(manifestName, c) && at.0 == OwnApplication(manifestName, c)
  {}

  // ---------- configs and secrets ----------

  /** A config with properties is the application's own and is named after it; another goes by its name. */
  function OwnConfigName(owner: string, c: ConfigProperty): string {
    if c.properties.Some? then Sanitize(owner) + "-" + Sanitize(c.name) else c.name
  }

  function OwnSecretName(owner: string, s: SecretProperty): string {
    SECRET_PREFIX + "_" + (Sanitize(owner) + "-" + Sanitize(s.name))
  }

  /** One name for each config and then one for each secret, in order. */
  ghost predicate NamesThem(owner: string, configs: seq<ConfigProperty>, secrets: seq<SecretProperty>, names: seq<string>) {
    && |names| == |configs| + |secrets|
    && (forall i :: 0 <= i < |configs| ==> names[i] == OwnConfigName(owner, configs[i]))
    && (forall i :: 0 <= i < |secrets| ==> names[|configs| + i] == OwnSecretName(owner, secrets[i]))
  }

  /** One scaler for each config, with its properties. */
  ghost predicate KeepsConfigs(owner: string, configs: seq<ConfigProperty>, scalers: seq<ConfigScaler>) {
    && |scalers| == |configs|
    && forall i :: 0 <= i < |configs| ==>
         scalers[i].name == OwnConfigName(owner, configs[i]) && scalers[i].properties == configs[i].properties
  }

  /** The secret with the backend and the other properties of its policy; of two policies of one name the later. */
  ghost predicate KeepsSecret(owner: string, policies: seq<Policy>, s: SecretProperty, scaler: SecretScaler) {
    && scaler.name == OwnSecretName(owner, s) && scaler.secret == s
    && exists k :: 0 <= k < |policies| && policies[k].name == s.policy
         && (forall j :: k < j < |policies| ==> policies[j].name != s.policy)
         && "backend" in policies[k].properties && scaler.backend == policies[k].properties["backend"]
         && scaler.properties == policies[k].properties - {"backend"}
  }

  ghost predicate KeepsSecrets(owner: string, policies: seq<Policy>, secrets: seq<SecretProperty>, scalers: seq<SecretScaler>) {
    |scalers| == |secrets| && forall i :: 0 <= i < |secrets| ==> KeepsSecret(owner, policies, secrets[i], scalers[i])
  }

  lemma NamesAre(owner: string, configs: seq<ConfigProperty>, secrets: seq<SecretProperty>)
    ensures NamesThem(owner, configs, secrets, ConfigNames(owner, configs) + SecretNames(owner, secrets))
    ensures KeepsConfigs(owner, configs, ConfigScalers(owner, configs))
  {}

  lemma {:induction false} PolicyAt(policies: seq<Policy>, name: string)
    requires name in PolicyLookup(policies)
    ensures exists k :: 0 <= k < |policies| && policies[k].name == name && PolicyLookup(policies)[name] == policies[k]
              && forall j :: k < j < |policies| ==> policies[j].name != name
  {
    var n := |policies| - 1;
    if policies[n].name != name {
      PolicyAt(policies[..n], name);
      var k :| 0 <= k < n && policies[..n][k].name == name && PolicyLookup(policies[..n])[name] == policies[..n][k]
               && forall j :: k < j < n ==> policies[..n][j].name != name;
      forall j | k < j < |policies| ensures policies[j].name != name {
        if j < n { assert policies[..n][j].name != name; }
      }
      assert policies[k] == policies[..n][k];
    }
  }

  lemma SecretIs(owner: string, s: SecretProperty, policies: seq<Policy>)
    requires ForSecret(owner, s, PolicyLookup(policies)).Some?
    ensures KeepsSecret(owner, policies, s, ForSecret(owner, s, PolicyLookup(policies)).value)
  {
    PolicyAt(policies, s.policy);
  }

  lemma {:induction false} SecretsAre(owner: string, secrets: seq<SecretProperty>, policies: seq<Policy>)
    requires SecretScalers(owner, secrets, PolicyLookup(policies)).Some?
    ensures KeepsSecrets(owner, policies, secrets, SecretScalers(owner, secrets, PolicyLookup(policies)).value)
  {
    if secrets != [] {
      SecretsAre(owner, secrets[..|secrets| - 1], policies);
      SecretIs(owner, secrets[|secrets| - 1], policies);
    }
  }

  lemma KeepBoth(owner: string, cs: seq<ConfigProperty>, cs': seq<ConfigProperty>, ks: seq<ConfigScaler>, ks': seq<ConfigScaler>)
    requires KeepsConfigs(owner, cs, ks) && KeepsConfigs(owner, cs', ks')
    ensures KeepsConfigs(owner, cs + cs', ks + ks')
  {
    var all, made, n := cs + cs', ks + ks', |cs|;
    forall i | 0 <= i < |all| ensures made[i].name == OwnConfigName(owner, all[i]) && made[i].properties == all[i].properties {
      if i < n { assert all[i] == cs[i] && made[i] == ks[i]; } else { assert all[i] == cs'[i - n] && made[i] == ks'[i - n]; }
    }
  }

  lemma KeepBothSecrets(owner: string, policies: seq<Policy>, cs: seq<SecretProperty>, cs': seq<SecretProperty>,
                        ks: seq<SecretScaler>, ks': seq<SecretScaler>)
    requires KeepsSecrets(owner, policies, cs, ks) && KeepsSecrets(owner, policies, cs', ks')
    ensures KeepsSecrets(owner, policies, cs + cs', ks + ks')
  {
    var all, made, n := cs + cs', ks + ks', |cs|;
    forall i | 0 <= i < |all| ensures KeepsSecret(owner, policies, all[i], made[i]) {
      if i < n { assert all[i] == cs[i] && made[i] == ks[i]; } else { assert all[i] == cs'[i - n] && made[i] == ks'[i - n]; }
    }
  }

  // ---------- one scaler ----------

  /** A link is made from the id of its source to the id of its target, with the configs and secrets of each
      end given to that end, and all of them kept. */
  ghost predicate ConnectsAs(m: Manifest, c: Component, p: LinkProperty, s: Scaler) {
    && s.IsLink()
    && s.job.link == p
    && s.job.source == OwnId(m.name, c)
    && (exists d :: d in m.components && d.name == p.target.name && s.job.target == OwnId(m.name, d))
    && s.model == OwnApplication(m.name, c) && s.wait == 5
    && LinkHasConfigs(m, if p.source.Some? then p.source.value else ConfigDefinition([], []), p.target, s)
  }

  ghost predicate LinkHasConfigs(m: Manifest, source: ConfigDefinition, target: Target, s: Scaler)
    requires s.IsLink()
  {
    && NamesThem(m.name, source.config, source.secrets, s.job.sourceConfig)
    && NamesThem(m.name, target.config, target.secrets, s.job.targetConfig)
    && KeepsConfigs(m.name, source.config + target.config, s.configs)
    && KeepsSecrets(m.name, m.policies, source.secrets + target.secrets, s.secrets)
  }

  ghost predicate RunsAs(m: Manifest, c: Component, t: Trait, s: Scaler) {
    && t.traitType in {"spreadscaler", "daemonscaler"} && t.properties.SpreadScaler?
    && c.image.Some? && c.application.None?
    && s.Wrapped? && s.job.Run?
    && s.job.kind == (if c.kind == WasmComponent
                      then if t.traitType == "spreadscaler" then ComponentSpread else ComponentDaemon
                      else if t.traitType == "spreadscaler" then ProviderSpread else ProviderDaemon)
    && s.job.id == OwnId(m.name, c)
    && s.job.name == c.name
    && s.job.image == c.image.value
    && s.job.instances == t.properties.instances
    && s.job.spread == t.properties.spread
    && s.model == m.name && s.wait == (if c.kind == WasmComponent then 5 else 60)
    && NamesThem(m.name, c.config, c.secrets, s.job.config)
    && KeepsConfigs(m.name, c.config, s.configs)
    && KeepsSecrets(m.name, m.policies, c.secrets, s.secrets)
  }

  predicate LinkAllowed(components: seq<Component>, source: ComponentType, t: Trait) {
    t.IsLink() && t.properties.Link? && FindTarget(components, source, t.properties.link.target.name).Some?
  }

  lemma LinkEnds(site: Site, p: LinkProperty, d: Component)
    requires SecretScalers(site.manifestName, p.SourceSecrets(), site.policies).Some?
    requires SecretScalers(site.manifestName, p.target.secrets, site.policies).Some?
    requires Resolve(site.manifestName, d.name, d.image, d.application).Some?
    ensures var r := ForLink(site, p, d);
            r.Some? && r.value.IsLink() && r.value.job.link == p && r.value.model == site.application && r.value.wait == 5
            && r.value.job.source == site.Id() && r.value.job.target == OwnId(site.manifestName, d)
  {
    OwnIdIs(site.manifestName, d);
  }

  lemma LinkConfigsAre(m: Manifest, site: Site, p: LinkProperty, d: Component)
    requires IsSite(m, site)
    requires ForLink(site, p, d).Some? && ForLink(site, p, d).value.IsLink()
    ensures LinkHasConfigs(m, if p.source.Some? then p.source.value else ConfigDefinition([], []), p.target, ForLink(site, p, d).value)
  {
    var source := if p.source.Some? then p.source.value else ConfigDefinition([], []);
    NamesAre(m.name, source.config, source.secrets);
    NamesAre(m.name, p.target.config, p.target.secrets);
    SecretsAre(m.name, source.secrets, m.policies);
    SecretsAre(m.name, p.target.secrets, m.policies);
    KeepBoth(m.name, source.config, p.target.config, ConfigScalers(m.name, source.config), ConfigScalers(m.name, p.target.config));
    KeepBothSecrets(m.name, m.policies, source.secrets, p.target.secrets,
                    SecretScalers(m.name, source.secrets, site.policies).value, SecretScalers(m.name, p.target.secrets, site.policies).value);
  }

  lemma SiteId(m: Manifest, site: Site)
    requires IsSite(m, site)
    ensures Resolve(m.name, site.component.name, site.component.image, site.component.application).Some?
    ensures site.Id() == OwnId(m.name, site.component) && site.application == OwnApplication(m.name, site.component)
  {
    OwnIdIs(m.name, site.component);
  }

  lemma LinkConverts(m: Manifest, site: Site, t: Trait)
    requires WellFormed(m) && IsSite(m, site) && t in site.component.Traits()
    requires LinkAllowed(m.components, site.component.kind, t)
    ensures ForTarget(site, t.properties.link).Some? && ForTarget(site, t.properties.link).value.Some?
    ensures ConnectsAs(m, site.component, t.properties.link, ForTarget(site, t.properties.link).value.value)
  {
    LinkSecretsConvert(m, site, t);
    var d := FindTarget(m.components, site.component.kind, t.properties.link.target.name).value;
    assert Located(d);
    LinkEnds(site, t.properties.link, d);
    LinkConfigsAre(m, site, t.properties.link, d);
    SiteId(m, site);
  }

  lemma RunnerConverts(m: Manifest, site: Site, t: Trait)
    requires WellFormed(m) && IsSite(m, site) && Scales(t) && site.component.image.Some?
    ensures var r := Runner(site, KindFor(site.component, t), t.properties.instances, t.properties.spread);
            r.Some? && RunsAs(m, site.component, t, r.value)
  {
    var c := site.component;
    OwnSecretsConvert(m, site, m.name);
    assert Located(c);
    SiteId(m, site);
    TraitTypes();
    NamesAre(m.name, c.config, c.secrets);
    SecretsAre(m.name, c.secrets, m.policies);
  }

  /** No trait is both. */
  lemma LinkOrScaler(m: Manifest, site: Site, t: Trait)
    requires LinkAllowed(m.components, site.component.kind, t)
    ensures !Scales(t)
  {
    TraitTypes();
  }

  lemma LinkTrait(m: Manifest, site: Site, t: Trait)
    requires WellFormed(m) && IsSite(m, site) && t in site.component.Traits()
    requires LinkAllowed(m.components, site.component.kind, t)
    ensures ForTrait(site, t).Some? && ForTrait(site, t).value.Some?
    ensures ConnectsAs(m, site.component, t.properties.link, ForTrait(site, t).value.value)
  {
    LinkOrScaler(m, site, t);
    OwnSecretsConvert(m, site, m.name);
    LinkConverts(m, site, t);
  }

  lemma ScalingTrait(m: Manifest, site: Site, t: Trait)
    requires WellFormed(m) && IsSite(m, site) && t in site.component.Traits()
    requires Scales(t) && site.component.image.Some?
    ensures ForTrait(site, t).Some? && ForTrait(site, t).value.Some?
    ensures RunsAs(m, site.component, t, ForTrait(site, t).value.value)
  {
    OwnSecretsConvert(m, site, m.name);
    RunnerConverts(m, site, t);
  }

  lemma OtherTrait(m: Manifest, site: Site, t: Trait)
    requires WellFormed(m) && IsSite(m, site) && t in site.component.Traits()
    requires !LinkAllowed(m.components, site.component.kind, t) && !(Scales(t) && site.component.image.Some?)
    ensures ForTrait(site, t) == Some(None)
  {
    OwnSecretsConvert(m, site, m.name);
  }

  lemma TraitConverts(m: Manifest, site: Site, t: Trait)
    requires WellFormed(m) && IsSite(m, site) && t in site.component.Traits()
    ensures ForTrait(site, t).Some? && (ForTrait(site, t).value.Some? ==> ForTrait(site, t).value.value.Wrapped?)
  {
    if LinkAllowed(m.components, site.component.kind, t) {
      LinkTrait(m, site, t);
    } else if Scales(t) && site.component.image.Some? {
      ScalingTrait(m, site, t);
    } else {
      OtherTrait(m, site, t);
    }
  }

  lemma {:induction false} TraitsConvert(m: Manifest, site: Site, traits: seq<Trait>)
    requires WellFormed(m) && IsSite(m, site) && forall t :: t in traits ==> t in site.component.Traits()
    ensures ForTraits(site, traits).Some?
    ensures forall s :: s in ForTraits(site, traits).value ==> s.Wrapped?
  {
    if traits != [] {
      var front, t := traits[..|traits| - 1], traits[|traits| - 1];
      assert traits == front + [t];
      TraitsConvert(m, site, front);
      TraitConverts(m, site, t);
    }
  }

  lemma ComponentConverts(m: Manifest, c: Component)
    requires WellFormed(m) && c in m.components
    ensures ForComponent(m.name, m.components, PolicyLookup(m.policies), c).Some?
    ensures forall s :: s in ForComponent(m.name, m.components, PolicyLookup(m.policies), c).value ==> s.Wrapped?
  {
    SiteExists(m, c);
    SiteConverts(m, SiteOf(m.name, m.components, PolicyLookup(m.policies), c).value);
  }

  lemma SiteConverts(m: Manifest, site: Site)
    requires WellFormed(m) && IsSite(m, site)
    ensures ForSite(site).Some? && forall s :: s in ForSite(site).value ==> s.Wrapped?
  {
    TraitsConvert(m, site, site.component.Traits());
    OwnSecretsConvert(m, site, site.application);
    if site.component.image.Some? { OwnSecretsConvert(m, site, m.name); }
  }

  lemma {:induction false} ComponentsConvert(m: Manifest, cs: seq<Component>)
    requires WellFormed(m) && forall c :: c in cs ==> c in m.components
    ensures ForComponents(m.name, m.components, PolicyLookup(m.policies), cs).Some?
    ensures forall s :: s in ForComponents(m.name, m.components, PolicyLookup(m.policies), cs).value ==> s.Wrapped?
  {
    if cs != [] {
      var front, c := cs[..|cs| - 1], cs[|cs| - 1];
      assert cs == front + [c];
      ComponentsConvert(m, front);
      ComponentConverts(m, c);
    }
  }

  /** No unwrap fails, and no placeholder takes the place of a scaler. */
  lemma ValidConverts(m: Manifest)
    requires Valid(m)
    ensures Convert(m).Some? && forall s :: s in Convert(m).value ==> s.Wrapped?
  {
    ValidIffWellFormed(m);
    ComponentsConvert(m, m.components);
  }

  // ---------- when it panics ----------

  /** A link to a component that it may lead to, with a secret of either end whose policy is unknown or has no
      backend. */
  ghost predicate BadLink(m: Manifest, kind: ComponentType, t: Trait) {
    && t.IsLink() && t.properties.Link?
    && (exists d :: d in m.components && d.name == t.properties.link.target.name && (kind == WasmComponent || d.kind == WasmComponent))
    && exists s :: !Backed(PolicyLookup(m.policies), s)
         && (s in t.properties.link.target.secrets || (t.properties.link.source.Some? && s in t.properties.link.source.value.secrets))
  }

  ghost predicate BadSecrets(m: Manifest, c: Component) {
    exists s :: s in c.secrets && !Backed(PolicyLookup(m.policies), s)
  }

  /** A Wasm component with a trait, and a provider with an image, panic at their own bad secrets. */
  ghost predicate BadComponent(m: Manifest, c: Component) {
    && (c.image.Some? <==> c.application.None?)
    && ((BadSecrets(m, c) && if c.kind == WasmComponent then c.Traits() != [] else c.image.Some?)
        || exists t :: t in c.Traits() && BadLink(m, c.kind, t))
  }

  lemma {:induction false} TargetFoundIff(components: seq<Component>, kind: ComponentType, name: string)
    ensures FindTarget(components, kind, name).Some? <==>
            exists d :: d in components && d.name == name && (kind == WasmComponent || d.kind == WasmComponent)
  {
    if components != [] {
      TargetFoundIff(components[1..], kind, name);
      assert components == [components[0]] + components[1..];
    }
  }

  lemma BadLinkIff(m: Manifest, site: Site, t: Trait)
    requires site.manifestName == m.name && site.components == m.components && site.policies == PolicyLookup(m.policies)
    requires t.IsLink() && t.properties.Link?
    ensures ForTarget(site, t.properties.link).None? <==> BadLink(m, site.component.kind, t)
  {
    var p := t.properties.link;
    TargetFoundIff(m.components, site.component.kind, p.target.name);
    SecretsConvertIff(m.name, p.SourceSecrets(), site.policies);
    SecretsConvertIff(m.name, p.target.secrets, site.policies);
  }

  /** One trait panics. */
  ghost predicate BadTrait(m: Manifest, c: Component, t: Trait) {
    || (BadSecrets(m, c) && (c.kind == WasmComponent || (c.image.Some? && Scales(t))))
    || BadLink(m, c.kind, t)
  }

  lemma BadTraitIff(m: Manifest, site: Site, t: Trait)
    requires SiteOf(m.name, m.components, PolicyLookup(m.policies), site.component) == Some(site)
    ensures ForTrait(site, t).None? <==> BadTrait(m, site.component, t)
  {
    var c := site.component;
    SecretsConvertIff(site.manifestName, c.secrets, site.policies);
    SecretsConvertIff(site.application, c.secrets, site.policies);
    TraitTypes();
    if t.IsLink() && t.properties.Link? { BadLinkIff(m, site, t); }
  }

  lemma {:induction false} BadTraitsIff(m: Manifest, site: Site, traits: seq<Trait>)
    requires SiteOf(m.name, m.components, PolicyLookup(m.policies), site.component) == Some(site)
    ensures ForTraits(site, traits).None? <==> exists t :: t in traits && BadTrait(m, site.component, t)
  {
    if traits != [] {
      var front, t := traits[..|traits| - 1], traits[|traits| - 1];
      assert traits == front + [t];
      BadTraitsIff(m, site, front);
      BadTraitIff(m, site, t);
    }
  }

  lemma BadSiteIff(m: Manifest, site: Site)
    requires SiteOf(m.name, m.components, PolicyLookup(m.policies), site.component) == Some(site)
    ensures ForSite(site).None? <==> BadComponent(m, site.component)
  {
    var c := site.component;
    BadTraitsIff(m, site, c.Traits());
    SecretsConvertIff(m.name, c.secrets, site.policies);
    SecretsConvertIff(site.application, c.secrets, site.policies);
    if c.Traits() != [] { assert c.Traits()[0] in c.Traits(); }
  }

  lemma {:induction false} BadComponentsIff(m: Manifest, cs: seq<Component>)
    ensures ForComponents(m.name, m.components, PolicyLookup(m.policies), cs).None? <==> exists c :: c in cs && BadComponent(m, c)
  {
    if cs != [] {
      var front, c := cs[..|cs| - 1], cs[|cs| - 1];
      assert cs == front + [c];
      BadComponentsIff(m, front);
      var site := SiteOf(m.name, m.components, PolicyLookup(m.policies), c);
      if site.Some? { BadSiteIff(m, site.value); }
    }
  }

  /** Conversion of any manifest panics exactly where a secret that it uses has no policy with a backend: of a
      Wasm component with traits, of a provider with an image, or of a link that leads somewhere. */
  lemma ConvertPanicsIff(m: Manifest)
    ensures Convert(m).None? <==> exists c :: c in m.components && BadComponent(m, c)
  {
    BadComponentsIff(m, m.components);
  }

  // ---------- it gives what the traits ask for ----------

  function LinkScalers(scalers: seq<Scaler>): seq<Scaler> {
    if scalers == [] then []
    else
      var s := scalers[|scalers| - 1];
      LinkScalers(scalers[..|scalers| - 1]) + if s.IsLink() then [s] else []
  }

  function Runners(scalers: seq<Scaler>): seq<Scaler> {
    if scalers == [] then []
    else
      var s := scalers[|scalers| - 1];
      Runners(scalers[..|scalers| - 1]) + if s.Wrapped? && s.job.Run? then [s] else []
  }

  /** The link traits that a component of this kind may have, given their targets. */
  function AllowedLinks(components: seq<Component>, kind: ComponentType, traits: seq<Trait>): seq<Trait> {
    if traits == [] then []
    else
      var t := traits[|traits| - 1];
      AllowedLinks(components, kind, traits[..|traits| - 1]) + if LinkAllowed(components, kind, t) then [t] else []
  }

  function ScalingTraits(traits: seq<Trait>): seq<Trait> {
    if traits == [] then []
    else
      var t := traits[|traits| - 1];
      ScalingTraits(traits[..|traits| - 1]) + if Scales(t) then [t] else []
  }

  lemma ScalersSnoc(scalers: seq<Scaler>, s: Scaler)
    ensures LinkScalers(scalers + [s]) == LinkScalers(scalers) + if s.IsLink() then [s] else []
    ensures Runners(scalers + [s]) == Runners(scalers) + if s.Wrapped? && s.job.Run? then [s] else []
  {
    assert (scalers + [s])[..|scalers|] == scalers;
  }

  lemma TraitsSnoc(components: seq<Component>, kind: ComponentType, traits: seq<Trait>, t: Trait)
    ensures AllowedLinks(components, kind, traits + [t]) ==
            AllowedLinks(components, kind, traits) + if LinkAllowed(components, kind, t) then [t] else []
    ensures ScalingTraits(traits + [t]) == ScalingTraits(traits) + if Scales(t) then [t] else []
  {
    assert (traits + [t])[..|traits|] == traits;
  }

  ghost predicate AllConnect(m: Manifest, c: Component, traits: seq<Trait>, scalers: seq<Scaler>) {
    && |scalers| == |traits|
    && forall i :: 0 <= i < |traits| ==>
         traits[i].properties.Link? && ConnectsAs(m, c, traits[i].properties.link, scalers[i])
  }

  ghost predicate AllRun(m: Manifest, c: Component, traits: seq<Trait>, scalers: seq<Scaler>) {
    |scalers| == |traits| && forall i :: 0 <= i < |traits| ==> RunsAs(m, c, traits[i], scalers[i])
  }

  /** What one trait becomes, if anything. */
  function Made(site: Site, t: Trait): seq<Scaler> {
    var made := ForTrait(site, t);
    if made.Some? && made.value.Some? then [made.value.value] else []
  }

  lemma ForTraitsSnoc(site: Site, front: seq<Trait>, t: Trait)
    requires ForTraits(site, front).Some? && ForTrait(site, t).Some?
    ensures ForTraits(site, front + [t]) == Some(ForTraits(site, front).value + Made(site, t))
  {
    assert (front + [t])[..|front|] == front;
  }

  lemma ConnectSnoc(m: Manifest, c: Component, traits: seq<Trait>, scalers: seq<Scaler>, t: Trait, s: Scaler)
    requires AllConnect(m, c, traits, scalers) && t.properties.Link? && ConnectsAs(m, c, t.properties.link, s)
    ensures AllConnect(m, c, traits + [t], scalers + [s])
  {}

  lemma RunSnoc(m: Manifest, c: Component, traits: seq<Trait>, scalers: seq<Scaler>, t: Trait, s: Scaler)
    requires AllRun(m, c, traits, scalers) && RunsAs(m, c, t, s)
    ensures AllRun(m, c, traits + [t], scalers + [s])
  {}

  lemma MadeLink(m: Manifest, site: Site, t: Trait, scalers: seq<Scaler>)
    requires WellFormed(m) && IsSite(m, site) && t in site.component.Traits()
    requires LinkAllowed(m.components, site.component.kind, t)
    ensures |Made(site, t)| == 1 && ConnectsAs(m, site.component, t.properties.link, Made(site, t)[0])
    ensures LinkScalers(scalers + Made(site, t)) == LinkScalers(scalers) + Made(site, t)
    ensures Runners(scalers + Made(site, t)) == Runners(scalers)
  {
    LinkTrait(m, site, t);
    var made := Made(site, t);
    assert made == [made[0]];
    ScalersSnoc(scalers, made[0]);
  }

  lemma MadeRunner(m: Manifest, site: Site, t: Trait, scalers: seq<Scaler>)
    requires WellFormed(m) && IsSite(m, site) && t in site.component.Traits()
    requires Scales(t) && site.component.image.Some?
    ensures |Made(site, t)| == 1 && RunsAs(m, site.component, t, Made(site, t)[0])
    ensures Runners(scalers + Made(site, t)) == Runners(scalers) + Made(site, t)
    ensures LinkScalers(scalers + Made(site, t)) == LinkScalers(scalers)
  {
    ScalingTrait(m, site, t);
    var made := Made(site, t);
    assert made == [made[0]];
    ScalersSnoc(scalers, made[0]);
  }

  lemma MadeNothing(m: Manifest, site: Site, t: Trait, scalers: seq<Scaler>)
    requires WellFormed(m) && IsSite(m, site) && t in site.component.Traits()
    requires !LinkAllowed(m.components, site.component.kind, t) && !(Scales(t) && site.component.image.Some?)
    ensures scalers + Made(site, t) == scalers
  {
    OtherTrait(m, site, t);
  }

  lemma LinksStep(m: Manifest, site: Site, front: seq<Trait>, t: Trait, scalers: seq<Scaler>)
    requires WellFormed(m) && IsSite(m, site) && t in site.component.Traits()
    requires AllConnect(m, site.component, AllowedLinks(m.components, site.component.kind, front), LinkScalers(scalers))
    ensures AllConnect(m, site.component, AllowedLinks(m.components, site.component.kind, front + [t]),
                       LinkScalers(scalers + Made(site, t)))
  {
    var c := site.component;
    var before := AllowedLinks(m.components, c.kind, front);
    TraitsSnoc(m.components, c.kind, front, t);
    if LinkAllowed(m.components, c.kind, t) {
      MadeLink(m, site, t, scalers);
      ConnectSnoc(m, c, before, LinkScalers(scalers), t, Made(site, t)[0]);
      assert Made(site, t) == [Made(site, t)[0]];
    } else {
      assert AllowedLinks(m.components, c.kind, front + [t]) == before;
      if Scales(t) && c.image.Some? {
        MadeRunner(m, site, t, scalers);
      } else {
        MadeNothing(m, site, t, scalers);
      }
    }
  }

  lemma WantedStep(m: Manifest, c: Component, front: seq<Trait>, t: Trait)
    ensures Wanted(c, front + [t]) == Wanted(c, front) + if Scales(t) && c.image.Some? then [t] else []
  {
    TraitsSnoc(m.components, c.kind, front, t);
  }

  lemma RunnersStep(m: Manifest, site: Site, front: seq<Trait>, t: Trait, scalers: seq<Scaler>)
    requires WellFormed(m) && IsSite(m, site) && t in site.component.Traits()
    requires AllRun(m, site.component, Wanted(site.component, front), Runners(scalers))
    ensures AllRun(m, site.component, Wanted(site.component, front + [t]), Runners(scalers + Made(site, t)))
  {
    var c := site.component;
    WantedStep(m, c, front, t);
    if Scales(t) && c.image.Some? {
      MadeRunner(m, site, t, scalers);
      RunSnoc(m, c, Wanted(c, front), Runners(scalers), t, Made(site, t)[0]);
      assert Made(site, t) == [Made(site, t)[0]];
    } else {
      assert Wanted(c, front + [t]) == Wanted(c, front);
      if LinkAllowed(m.components, c.kind, t) {
        MadeLink(m, site, t, scalers);
      } else {
        MadeNothing(m, site, t, scalers);
      }
    }
  }

  /** The scaling traits of a component that is not shared. */
  function Wanted(c: Component, traits: seq<Trait>): seq<Trait> {
    if c.image.Some? then ScalingTraits(traits) else []
  }

  /** The allowed links become the link scalers, in order. */
  lemma {:induction false} LinksAsAsked(m: Manifest, site: Site, traits: seq<Trait>)
    requires WellFormed(m) && IsSite(m, site) && forall t :: t in traits ==> t in site.component.Traits()
    ensures ForTraits(site, traits).Some?
    ensures AllConnect(m, site.component, AllowedLinks(m.components, site.component.kind, traits),
                       LinkScalers(ForTraits(site, traits).value))
  {
    if traits != [] {
      var front, t := traits[..|traits| - 1], traits[|traits| - 1];
      assert traits == front + [t];
      LinksAsAsked(m, site, front);
      TraitConverts(m, site, t);
      ForTraitsSnoc(site, front, t);
      LinksStep(m, site, front, t, ForTraits(site, front).value);
    }
  }

  /** The scaling traits become the other scalers, in order. */
  lemma {:induction false} RunnersAsAsked(m: Manifest, site: Site, traits: seq<Trait>)
    requires WellFormed(m) && IsSite(m, site) && forall t :: t in traits ==> t in site.component.Traits()
    ensures ForTraits(site, traits).Some?
    ensures AllRun(m, site.component, Wanted(site.component, traits), Runners(ForTraits(site, traits).value))
  {
    if traits != [] {
      var front, t := traits[..|traits| - 1], traits[|traits| - 1];
      assert traits == front + [t];
      RunnersAsAsked(m, site, front);
      TraitConverts(m, site, t);
      ForTraitsSnoc(site, front, t);
      RunnersStep(m, site, front, t, ForTraits(site, front).value);
    }
  }

  // ---------- which links there are ----------

  lemma {:induction false} TargetFound(components: seq<Component>, kind: ComponentType, c: Component)
    requires Distinct(Names(components)) && c in components && CanLinkTo(kind, c)
    ensures FindTarget(components, kind, c.name) == Some(c)
  {
    var i :| 0 <= i < |components| && components[i] == c;
    if i > 0 {
      assert Names(components)[0] != Names(components)[i];
      assert components[1..][i - 1] == c;
      forall j, k | 0 <= j < k < |components[1..]| ensures Names(components[1..])[j] != Names(components[1..])[k] {
        assert Names(components)[j + 1] != Names(components)[k + 1];
      }
      TargetFound(components[1..], kind, c);
    } else {
      assert components[0] == c;
    }
  }

  /** A Wasm component may link to every component of the manifest, a provider to the Wasm components. */
  lemma LinkAllowedIff(m: Manifest, c: Component, t: Trait, d: Component)
    requires WellFormed(m) && c in m.components && t in c.Traits() && t.IsLink()
    requires d in m.components && t.properties.Link? && d.name == t.properties.link.target.name
    ensures LinkAllowed(m.components, c.kind, t) <==> c.kind == WasmComponent || d.kind == WasmComponent
  {
    if CanLinkTo(c.kind, d) {
      TargetFound(m.components, c.kind, d);
    } else {
      var r := FindTarget(m.components, c.kind, d.name);
      if r.Some? { TargetFound(m.components, WasmComponent, r.value); TargetFound(m.components, WasmComponent, d); }
    }
  }

  lemma TraitOf(m: Manifest, c: Component, t: Trait)
    requires WellFormed(m) && c in m.components && t in c.Traits()
    ensures WellTyped(t)
    ensures t.properties.Link? ==> exists d :: d in m.components && d.name == t.properties.link.target.name
  {
    TraitIn(m.components, t);
    assert t in AllTraits(m.components);
    if t.properties.Link? {
      var i :| 0 <= i < |m.components| && Names(m.components)[i] == t.properties.link.target.name;
      assert m.components[i] in m.components;
    }
  }

  lemma {:induction false} WasmLinksAllowed(m: Manifest, c: Component, traits: seq<Trait>)
    requires WellFormed(m) && c in m.components && c.kind == WasmComponent && forall t :: t in traits ==> t in c.Traits()
    ensures AllowedLinks(m.components, c.kind, traits) == LinkTraits(traits)
  {
    if traits != [] {
      var front, t := traits[..|traits| - 1], traits[|traits| - 1];
      assert traits == front + [t];
      WasmLinksAllowed(m, c, front);
      TraitOf(m, c, t);
      if t.IsLink() {
        var d :| d in m.components && d.name == t.properties.link.target.name;
        LinkAllowedIff(m, c, t, d);
      }
    }
  }

  // ---------- the whole of one component ----------

  function ScalersOf(m: Manifest, c: Component): seq<Scaler> {
    ForComponent(m.name, m.components, PolicyLookup(m.policies), c).GetOr([])
  }

  /** A Wasm component gets one link scaler for each of its link traits, in order, from its own id to the
      target's. */
  lemma OneLinkPerTrait(m: Manifest, c: Component)
    requires Valid(m) && c in m.components && c.kind == WasmComponent
    ensures AllConnect(m, c, LinkTraits(c.Traits()), LinkScalers(ScalersOf(m, c)))
  {
    ValidIffWellFormed(m);
    SiteExists(m, c);
    LinksAsAsked(m, SiteOf(m.name, m.components, PolicyLookup(m.policies), c).value, c.Traits());
    WasmLinksAllowed(m, c, c.Traits());
  }

  /** The links to the manifest's own Wasm components. */
  function LinksToWasm(components: seq<Component>, traits: seq<Trait>): seq<Trait> {
    if traits == [] then []
    else
      var t := traits[|traits| - 1];
      LinksToWasm(components, traits[..|traits| - 1])
      + if t.IsLink() && t.properties.Link? && exists d :: d in components && d.name == t.properties.link.target.name && d.kind == WasmComponent
        then [t] else []
  }

  lemma {:induction false} ProviderLinksAllowed(m: Manifest, c: Component, traits: seq<Trait>)
    requires WellFormed(m) && c in m.components && c.kind == Capability && forall t :: t in traits ==> t in c.Traits()
    ensures AllowedLinks(m.components, c.kind, traits) == LinksToWasm(m.components, traits)
  {
    if traits != [] {
      var front, t := traits[..|traits| - 1], traits[|traits| - 1];
      assert traits == front + [t];
      ProviderLinksAllowed(m, c, front);
      if t.IsLink() && t.properties.Link? {
        forall d | d in m.components && d.name == t.properties.link.target.name { LinkAllowedIff(m, c, t, d); }
      }
    }
  }

  /** A provider gets one for each of its links to a Wasm component. */
  lemma OneLinkPerProviderTrait(m: Manifest, c: Component)
    requires Valid(m) && c in m.components && c.kind == Capability
    ensures AllConnect(m, c, LinksToWasm(m.components, c.Traits()), LinkScalers(ScalersOf(m, c)))
  {
    ValidIffWellFormed(m);
    SiteExists(m, c);
    var site := SiteOf(m.name, m.components, PolicyLookup(m.policies), c).value;
    LinksAsAsked(m, site, c.Traits());
    ProviderLinksAllowed(m, c, c.Traits());
    if c.image.Some? && !ScalerSpecified(c.Traits()) {
      DefaultRuns(m, site);
      ScalersSnoc(ForTraits(site, c.Traits()).value, Runner(site, ProviderSpread, 1, []).value);
    }
  }

  /** The scalers of all components, in order. */
  function ScalersOfAll(m: Manifest, cs: seq<Component>): seq<Scaler> {
    if cs == [] then [] else ScalersOfAll(m, cs[..|cs| - 1]) + ScalersOf(m, cs[|cs| - 1])
  }

  lemma {:induction false} ComponentsGive(m: Manifest, cs: seq<Component>)
    requires WellFormed(m) && forall c :: c in cs ==> c in m.components
    ensures ForComponents(m.name, m.components, PolicyLookup(m.policies), cs) == Some(ScalersOfAll(m, cs))
  {
    if cs != [] {
      var front, c := cs[..|cs| - 1], cs[|cs| - 1];
      assert cs == front + [c];
      ComponentsGive(m, front);
      ComponentConverts(m, c);
    }
  }

  /** A valid manifest becomes what its components become, component by component. */
  lemma ConvertGivesAll(m: Manifest)
    requires Valid(m)
    ensures Convert(m) == Some(ScalersOfAll(m, m.components))
  {
    ValidIffWellFormed(m);
    ComponentsGive(m, m.components);
  }

  /** And one scaler for each trait that scales, if it has an image. */
  lemma OneScalerPerTrait(m: Manifest, c: Component)
    requires Valid(m) && c in m.components && c.kind == WasmComponent
    ensures AllRun(m, c, Wanted(c, c.Traits()), Runners(ScalersOf(m, c)))
  {
    ValidIffWellFormed(m);
    SiteExists(m, c);
    RunnersAsAsked(m, SiteOf(m.name, m.components, PolicyLookup(m.policies), c).value, c.Traits());
  }

  const ONE_ANYWHERE := Trait(SPREADSCALER_TRAIT, SpreadScaler(1, []))

  lemma {:induction false} SpecifiedIff(traits: seq<Trait>)
    ensures ScalerSpecified(traits) <==> ScalingTraits(traits) != []
  {
    if traits != [] {
      var front := traits[..|traits| - 1];
      assert traits == front + [traits[|traits| - 1]];
      SpecifiedIff(front);
    }
  }

  lemma DefaultRuns(m: Manifest, site: Site)
    requires WellFormed(m) && IsSite(m, site) && site.component.kind == Capability && site.component.image.Some?
    ensures var r := Runner(site, ProviderSpread, 1, []);
            r.Some? && RunsAs(m, site.component, ONE_ANYWHERE, r.value)
  {
    RunnerConverts(m, site, ONE_ANYWHERE);
  }

  /** A provider with an image gets one scaler for each trait that scales, or one that keeps a single
      instance anywhere. */
  lemma ProviderAlwaysScaled(m: Manifest, c: Component)
    requires Valid(m) && c in m.components && c.kind == Capability && c.image.Some?
    ensures var wanted := ScalingTraits(c.Traits());
            AllRun(m, c, if wanted == [] then [ONE_ANYWHERE] else wanted, Runners(ScalersOf(m, c)))
  {
    ValidIffWellFormed(m);
    SiteExists(m, c);
    var site := SiteOf(m.name, m.components, PolicyLookup(m.policies), c).value;
    RunnersAsAsked(m, site, c.Traits());
    if ScalingTraits(c.Traits()) == [] { OneByDefault(m, site); } else { SpecifiedIff(c.Traits()); }
  }

  lemma OneByDefault(m: Manifest, site: Site)
    requires WellFormed(m) && IsSite(m, site) && site.component.kind == Capability && site.component.image.Some?
    requires ScalingTraits(site.component.Traits()) == []
    ensures AllRun(m, site.component, [ONE_ANYWHERE], Runners(ScalersOf(m, site.component)))
  {
    var c := site.component;
    RunnersAsAsked(m, site, c.Traits());
    SpecifiedIff(c.Traits());
    DefaultRuns(m, site);
    ScalersSnoc(ForTraits(site, c.Traits()).value, Runner(site, ProviderSpread, 1, []).value);
  }

  /** A shared provider gets none. */
  lemma SharedProviderNotScaled(m: Manifest, c: Component)
    requires Valid(m) && c in m.components && c.kind == Capability && c.image.None?
    ensures Runners(ScalersOf(m, c)) == []
  {
    ValidIffWellFormed(m);
    SiteExists(m, c);
    RunnersAsAsked(m, SiteOf(m.name, m.components, PolicyLookup(m.policies), c).value, c.Traits());
  }

  function ScalerTyped(traits: seq<Trait>): (r: seq<Trait>)
    ensures |ScalingTraits(traits)| <= |r|
  {
    if traits == [] then []
    else
      var t := traits[|traits| - 1];
      ScalerTyped(traits[..|traits| - 1]) + if t.IsScaler() then [t] else []
  }

  /** A scaler trait whose properties were parsed as a link passes validation and scales nothing, so the
      number of scalers is the number of scaler traits (or one when there is none) exactly when there is
      no such trait, or it is the only scaler trait. */
  lemma ScalersCountTraitsIff(m: Manifest, c: Component)
    requires Valid(m) && c in m.components && c.kind == Capability && c.image.Some?
    ensures var typed := |ScalerTyped(c.Traits())|;
            |Runners(ScalersOf(m, c))| == (if typed == 0 then 1 else typed) <==>
            (|ScalingTraits(c.Traits())| == typed || typed == 1)
  {
    ProviderAlwaysScaled(m, c);
  }

  /** As for a provider with two scaler traits, of which one is parsed as a link: it gets one scaler. */
  lemma MistypedScalerIsLost() returns (m: Manifest, c: Component)
    ensures Valid(m) && m.components == [c] && c.kind == Capability && c.image.Some?
    ensures |ScalerTyped(c.Traits())| == 2 && |Runners(ScalersOf(m, c))| == 1
  {
    var scaler := Trait(SPREADSCALER_TRAIT, SpreadScaler(1, []));
    var link := Trait(SPREADSCALER_TRAIT, Link(LinkProperty("", "", [], None, Target("p", [], []), None)));
    c := Component("p", Capability, Some("image"), None, None, [], [], Some([scaler, link]));
    m := Single("app", c);
    TwoTraits(scaler, link);
    SingleIsValid("app", c);
    ProviderAlwaysScaled(m, c);
  }

  lemma TwoTraits(t: Trait, t': Trait)
    requires t.traitType == t'.traitType == SPREADSCALER_TRAIT && t.properties.SpreadScaler? && t'.properties.Link?
    requires t'.properties.link.target.secrets == [] && t'.properties.link.source == None
    ensures LinkTraits([t, t']) == [] && LinkSecrets([t, t']) == []
    ensures |ScalerTyped([t, t'])| == 2 && |ScalingTraits([t, t'])| == 1
  {
    TraitTypes();
    assert [t, t'][..1] == [t] && [t][..0] == [];
    assert LinkTraits([t]) == [] && LinkSecrets([t]) == [];
    assert ScalerTyped([t]) == [t] && ScalingTraits([t]) == [t];
  }

  // ---------- every link leads to something that runs ----------

  lemma {:induction false} ScalersIn(m: Manifest, cs: seq<Component>, c: Component, s: Scaler)
    requires c in cs && s in ScalersOf(m, c)
    requires ForComponents(m.name, m.components, PolicyLookup(m.policies), cs).Some?
    ensures s in ForComponents(m.name, m.components, PolicyLookup(m.policies), cs).value
  {
    var front, last := cs[..|cs| - 1], cs[|cs| - 1];
    assert cs == front + [last];
    if c in front {
      ScalersIn(m, front, c, s);
    }
  }

  lemma {:induction false} RunnerIn(scalers: seq<Scaler>, s: Scaler)
    requires s in Runners(scalers)
    ensures s in scalers
  {
    var front := scalers[..|scalers| - 1];
    assert scalers == front + [scalers[|scalers| - 1]];
    if s in Runners(front) {
      RunnerIn(front, s);
    }
  }

  lemma UniqueNames(m: Manifest, c: Component, d: Component)
    requires WellFormed(m) && c in m.components && d in m.components && c.name == d.name
    ensures c == d
  {
    TargetFound(m.components, WasmComponent, c);
    TargetFound(m.components, WasmComponent, d);
  }

  /** Some scaler of the conversion keeps instances under this id. */
  ghost predicate IsRun(scalers: seq<Scaler>, id: string) {
    exists s :: s in scalers && s.Wrapped? && s.job.Run? && s.job.id == id
  }

  lemma ScaledComponentIsRun(m: Manifest, d: Component)
    requires Valid(m) && d in m.components && d.image.Some?
    requires d.kind == Capability || ScalingTraits(d.Traits()) != []
    ensures Resolve(m.name, d.name, d.image, d.application).Some?
    ensures Convert(m).Some? && IsRun(Convert(m).value, OwnId(m.name, d))
  {
    ValidConverts(m);
    ValidIffWellFormed(m);
    SiteExists(m, d);
    if d.kind == Capability { ProviderAlwaysScaled(m, d); } else { OneScalerPerTrait(m, d); }
    var s := Runners(ScalersOf(m, d))[0];
    RunnerIn(ScalersOf(m, d), s);
    ScalersIn(m, m.components, d, s);
  }

  /** The target of a link that the manifest's own scalers provide for is run under the id that the link
      is made to. */
  lemma LinkedTargetIsRun(m: Manifest, c: Component, t: Trait, s: Scaler, d: Component)
    requires Valid(m) && c in m.components && d in m.components && t.properties.Link?
    requires ConnectsAs(m, c, t.properties.link, s) && d.name == t.properties.link.target.name
    requires d.image.Some? && (d.kind == Capability || ScalingTraits(d.Traits()) != [])
    ensures Convert(m).Some? && IsRun(Convert(m).value, s.job.target)
  {
    ValidIffWellFormed(m);
    var e :| e in m.components && e.name == t.properties.link.target.name
             && Resolve(m.name, e.name, e.image, e.application).Some? && s.job.target == OwnId(m.name, e);
    UniqueNames(m, d, e);
    ScaledComponentIsRun(m, d);
  }

  /** A reference to a component of another application has the id that application runs it under exactly
      when both choose one id, an absent one counting as the generated id. */
  lemma SharedReferenceIff(m: Manifest, ref: Component, owner: Manifest, c: Component)
    requires Valid(m) && ref in m.components && Valid(owner) && c in owner.components && c.image.Some?
    requires ref.application == Some(SharedComponent(owner.name, c.name))
    ensures Resolve(m.name, ref.name, ref.image, ref.application).Some?
    ensures Resolve(owner.name, c.name, c.image, c.application).Some?
    ensures var generated := ComputeComponentId(owner.name, None, c.name);
            OwnId(m.name, ref) == OwnId(owner.name, c) <==> ref.id.GetOr(generated) == c.id.GetOr(generated)
  {
    ValidIffWellFormed(m);
    ValidIffWellFormed(owner);
    assert Located(ref) && Located(c);
  }

  /** As when the owner chooses an id and the reference does not repeat it. */
  lemma SharedReferenceFails() returns (m: Manifest, ref: Component, owner: Manifest, c: Component)
    ensures Valid(m) && m.components == [ref] && Valid(owner) && owner.components == [c] && c.image.Some?
    ensures ref.application == Some(SharedComponent(owner.name, c.name))
    ensures Resolve(m.name, ref.name, ref.image, ref.application).Some?
    ensures Resolve(owner.name, c.name, c.image, c.application).Some?
    ensures OwnId(m.name, ref) != OwnId(owner.name, c)
  {
    c := Component("c", WasmComponent, Some("image"), None, Some("chosen"), [], [], None);
    ref := Component("r", WasmComponent, None, Some(SharedComponent("owner", "c")), None, [], [], None);
    owner, m := Single("owner", c), Single("app", ref);
    SingleIsValid("owner", c);
    SingleIsValid("app", ref);
    SharedReferenceIff(m, ref, owner, c);
    assert "chosen"[5] == 'n' && ComputeComponentId("owner", None, "c")[5] == '-';
  }

  /** Generated ids differ unless manifest and component names agree up to case and punctuation. */
  lemma GeneratedIdsCollideIff(m1: string, c1: string, m2: string, c2: string)
    ensures ComputeComponentId(m1, None, c1) == ComputeComponentId(m2, None, c2) <==>
            (Sanitize(m1) == Sanitize(m2) && Sanitize(c1) == Sanitize(c2))
  {
    var a1, b1, a2, b2 := Sanitize(m1), Sanitize(c1), Sanitize(m2), Sanitize(c2);
    var id1, id2 := a1 + "-" + b1, a2 + "-" + b2;
    if id1 == id2 {
      assert id1[|a1|] == '-' && id2[|a2|] == '-';
      assert a1 == id1[..|a1|] && a2 == id2[..|a2|];
      assert b1 == id1[|a1| + 1..] && b2 == id2[|a2| + 1..];
    }
  }

  /** Letters become small, digits stay, and everything else becomes an underscore. */
  lemma SanitizedAt(s: string, i: nat)
    requires i < |s|
    ensures |Sanitize(s)| == |s|
    ensures 'a' <= s[i] <= 'z' || '0' <= s[i] <= '9' ==> Sanitize(s)[i] == s[i]
    ensures 'A' <= s[i] <= 'Z' ==> Sanitize(s)[i] as int == s[i] as int + 32
    ensures !('a' <= s[i] <= 'z' || '0' <= s[i] <= '9' || 'A' <= s[i] <= 'Z') ==> Sanitize(s)[i] == '_'
  {}

  /** Two components of one manifest may so get one id, although their names differ. */
  lemma IdsCollideInOneManifest()
    ensures ComputeComponentId("app", None, "echo-a") == ComputeComponentId("app", None, "echo_a")
  {
    assert Sanitize("echo-a") == Sanitize("echo_a");
  }
}

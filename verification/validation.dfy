/** What the API refuses before it stores a manifest. */
module Validation {
  import opened Wrappers
  import opened Manifests
  import opened OamLabels

  datatype LinkId = LinkId(name: string, namespace: string, package: string, interface: string)

  datatype Failure =
    | BadName
    | ReservedVersion
    | BadLabel(key: string)
    | BadAnnotation(key: string)
    | UnrecognizedInterface(namespace: string, package: string, interface: string)
    | DuplicateName(name: string)
    | DuplicateId(id: string)
    | MissingTargets(targets: set<string>)
    | CustomLink(target: CustomTarget)
    | CustomScaler(target: CustomTarget)
    | LinkWithoutTarget
    | LinkWithoutTargetName
    | UnlistedTarget(target_: string)
    | UnlistedCustomTarget(name_: string)
    | UnknownPolicy(secret: string, policy: string)
    | NotASecretPolicy(secret: string, policy: string)
    | PolicyWithoutBackend(secret: string, policy: string)
    | ImageAndApplication
    | NoImageNorApplication
    | SharedWithConfig(app: string)
    | SharedWithSecrets(app: string)
    | SharedWithScaler(app: string)
    | DuplicateLink(component: string, link: LinkId)
    | DuplicateConfigName(config: string)
  {
    /** Warnings do not stop a manifest. */
    predicate IsError() { !UnlistedTarget? && !UnlistedCustomTarget? && !UnrecognizedInterface? }
  }

  // ---------- what each failure says about a manifest ----------

  predicate IsNameChar(c: char) {
    'a' <= c <= 'z' || 'A' <= c <= 'Z' || '0' <= c <= '9' || c == '_' || c == '-'
  }

  predicate IsValidManifestName(name: string) {
    name != "" && forall i :: 0 <= i < |name| ==> IsNameChar(name[i])
  }

  function Targets(traits: seq<Trait>): (r: set<string>)
    ensures forall x :: x in r <==> exists t :: t in traits && t.properties.Link? && t.properties.link.target.name == x
  {
    set t | t in traits && t.properties.Link? :: t.properties.link.target.name
  }

  function SecretFault(policies: map<string, Policy>, s: SecretProperty): Option<Failure> {
    if s.policy !in policies then Some(UnknownPolicy(s.name, s.policy))
    else if policies[s.policy].policyType != SECRET_POLICY_TYPE then Some(NotASecretPolicy(s.name, s.policy))
    else if "backend" !in policies[s.policy].properties then Some(PolicyWithoutBackend(s.name, s.policy))
    else None
  }

  predicate HasScaler(c: Component) {
    exists t :: t in c.Traits() && t.IsScaler()
  }

  /** The first fault, in the order of the checks. */
  function PropertiesFault(c: Component): Option<Failure> {
    match (c.image, c.application)
    case (Some(_), Some(_)) => Some(ImageAndApplication)
    case (None, None) => Some(NoImageNorApplication)
    case (Some(_), None) => None
    case (None, Some(app)) =>
      if c.config != [] then Some(SharedWithConfig(app.name))
      else if c.secrets != [] then Some(SharedWithSecrets(app.name))
      else if HasScaler(c) then Some(SharedWithScaler(app.name))
      else None
  }

  function InterfaceIds(l: LinkProperty, interfaces: seq<string>): seq<LinkId> {
    if interfaces == [] then []
    else
      InterfaceIds(l, interfaces[..|interfaces| - 1])
      + [LinkId(l.LinkName(), l.namespace, l.package, interfaces[|interfaces| - 1])]
  }

  function LinkIds(links: seq<Trait>): seq<LinkId> {
    if links == [] then []
    else
      var p := links[|links| - 1].properties;
      LinkIds(links[..|links| - 1]) + if p.Link? then InterfaceIds(p.link, p.link.interfaces) else []
  }

  /** The configs that carry properties, and so are created by name. */
  function CreatedConfigs(configs: seq<ConfigProperty>): seq<string> {
    if configs == [] then []
    else
      var c := configs[|configs| - 1];
      CreatedConfigs(configs[..|configs| - 1]) + if c.properties.Some? then [c.name] else []
  }

  function LinkConfigs(links: seq<Trait>): seq<string> {
    if links == [] then []
    else
      var p := links[|links| - 1].properties;
      LinkConfigs(links[..|links| - 1])
      + if p.Link? then CreatedConfigs(p.link.target.config) + CreatedConfigs(p.link.SourceConfig()) else []
  }

  ghost predicate OamFault(m: Manifest, f: Failure) {
    || (f.BadLabel? && f.key in m.labels && !IsOamLabel(f.key))
    || (f.BadAnnotation? && f.key in m.annotations && !IsOamLabel(f.key))
  }

  /** The interfaces of the namespaces that are known. */
  const KNOWN_INTERFACES: map<string, map<string, set<string>>> := map[
    "wrpc" := map[
      "blobstore" := {"blobstore"},
      "keyvalue" := {"atomics", "store"},
      "http" := {"incoming-handler", "outgoing-handler"}],
    "wasi" := map[
      "blobstore" := {"blobstore"},
      "config" := {"runtime"},
      "keyvalue" := {"atomics", "store", "batch", "watch"},
      "http" := {"incoming-handler", "outgoing-handler"},
      "logging" := {"logging"}],
    "wasmcloud" := map["messaging" := {"consumer", "handler"}]]

  /** An interface of a known namespace that this namespace does not have. */
  predicate IsMisnamed(namespace: string, package: string, interface: string) {
    namespace in KNOWN_INTERFACES
    && (package !in KNOWN_INTERFACES[namespace] || interface !in KNOWN_INTERFACES[namespace][package])
  }

  ghost predicate MisnamedIn(l: LinkProperty, interfaces: seq<string>, f: Failure) {
    && f.UnrecognizedInterface? && f.namespace == l.namespace && f.package == l.package
    && f.interface in interfaces && IsMisnamed(l.namespace, l.package, f.interface)
  }

  ghost predicate MisnamedFault(links: seq<Trait>, f: Failure) {
    exists t :: t in links && t.properties.Link? && MisnamedIn(t.properties.link, t.properties.link.interfaces, f)
  }

  ghost predicate CoreFault(cs: seq<Component>, f: Failure) {
    match f
    case DuplicateName(n) => multiset(Names(cs))[n] > 1
    case DuplicateId(id) => multiset(ExplicitIds(cs))[id] > 1
    case MissingTargets(ts) => ts != {} && ts == (set x | x in Targets(AllTraits(cs)) && x !in Names(cs))
    case _ => false
  }

  ghost predicate TraitFault(t: Trait, f: Failure)
    requires t.properties.Custom?
  {
    f == if t.IsLink() then CustomLink(t.properties.target) else CustomScaler(t.properties.target)
  }

  ghost predicate CustomFault(traits: seq<Trait>, f: Failure) {
    exists t :: t in traits && t.properties.Custom? && (t.IsLink() || t.IsScaler()) && TraitFault(t, f)
  }

  function DanglingFault(names: seq<string>, p: TraitProperty): Option<Failure>
    requires !p.SpreadScaler?
  {
    match p
    case Link(l) => if l.target.name in names then None else Some(UnlistedTarget(l.target.name))
    case Custom(Absent) => Some(LinkWithoutTarget)
    case Custom(Unnamed) => Some(LinkWithoutTargetName)
    case Custom(Named(n)) => if n in names then None else Some(UnlistedCustomTarget(n))
  }

  /** The check of dangling links meets a trait of type link that was parsed as a scaler. */
  ghost predicate Panics(links: seq<Trait>) {
    exists t :: t in links && t.properties.SpreadScaler?
  }

  ghost predicate Dangling(names: seq<string>, links: seq<Trait>, f: Failure) {
    exists t :: t in links && !t.properties.SpreadScaler? && DanglingFault(names, t.properties) == Some(f)
  }

  ghost predicate SecretFaults(policies: map<string, Policy>, cs: seq<Component>, f: Failure) {
    exists c :: c in cs && AnySecretFault(policies, c.Secrets(), f)
  }

  ghost predicate AnySecretFault(policies: map<string, Policy>, secrets: seq<SecretProperty>, f: Failure) {
    exists s :: s in secrets && SecretFault(policies, s) == Some(f)
  }

  ghost predicate PropertiesFaults(cs: seq<Component>, f: Failure) {
    exists c :: c in cs && PropertiesFault(c) == Some(f)
  }

  ghost predicate LinkFaults(cs: seq<Component>, f: Failure) {
    f.DuplicateLink? && exists c :: c in cs && c.name == f.component && multiset(LinkIds(LinkTraits(c.Traits())))[f.link] > 1
  }

  ghost predicate ConfigFaults(links: seq<Trait>, f: Failure) {
    f.DuplicateConfigName? && multiset(LinkConfigs(links))[f.config] > 1
  }

  /** The failures of a manifest. */
  ghost predicate Fault(m: Manifest, f: Failure) {
    || (f == BadName && !IsValidManifestName(m.name))
    || (f == ReservedVersion && m.Version() == LATEST_VERSION)
    || OamFault(m, f)
    || CoreFault(m.components, f)
    || MisnamedFault(Links(m), f)
    || Dangling(Names(m.components), Links(m), f)
    || SecretFaults(PolicyLookup(m.policies), m.components, f)
    || CustomFault(AllTraits(m.components), f)
    || PropertiesFaults(m.components, f)
    || LinkFaults(m.components, f)
    || ConfigFaults(Links(m), f)
  }

  /** Validation completes and reports no error. */
  ghost predicate Valid(m: Manifest) {
    !Panics(Links(m)) && forall f: Failure :: f.IsError() ==> !Fault(m, f)
  }

  // ---------- the checks, each over growing registries ----------

  function Elements<T>(s: seq<T>): set<T> {
    set x | x in s
  }

  lemma Snoc<T>(s: seq<T>, i: nat)
    requires i < |s|
    ensures s[..i + 1] == s[..i] + [s[i]] && s[..i + 1][..i] == s[..i]
  {}

  /** The duplicates that one more component brings. */
  function NewDuplicates(names: set<string>, ids: set<string>, c: Component): seq<Failure> {
    (if c.name in names then [DuplicateName(c.name)] else [])
    + if c.id.Some? && c.id.value in ids then [DuplicateId(c.id.value)] else []
  }

  lemma NameStep(cs: seq<Component>, c: Component, n: string)
    ensures CoreFault(cs + [c], DuplicateName(n)) <==>
            (CoreFault(cs, DuplicateName(n)) || (n == c.name && n in Names(cs)))
  {
    assert (cs + [c])[..|cs|] == cs;
    assert Names(cs + [c]) == Names(cs) + [c.name];
  }

  lemma IdStep(cs: seq<Component>, c: Component, id: string)
    ensures CoreFault(cs + [c], DuplicateId(id)) <==>
            (CoreFault(cs, DuplicateId(id)) || (Some(id) == c.id && id in ExplicitIds(cs)))
  {
    assert (cs + [c])[..|cs|] == cs;
    assert ExplicitIds(cs + [c]) == ExplicitIds(cs) + if c.id.Some? then [c.id.value] else [];
  }

  function CoreDuplicates(cs: seq<Component>): seq<Failure> {
    if cs == [] then []
    else
      var front := cs[..|cs| - 1];
      CoreDuplicates(front)
      + NewDuplicates(Elements(Names(front)), Elements(ExplicitIds(front)), cs[|cs| - 1])
  }

  lemma NewDuplicatesAre(names: set<string>, ids: set<string>, c: Component, f: Failure)
    ensures f in NewDuplicates(names, ids, c) <==>
            (f.DuplicateName? && f.name == c.name && f.name in names) || (f.DuplicateId? && Some(f.id) == c.id && f.id in ids)
  {}

  lemma {:induction false} CoreDuplicatesAre(cs: seq<Component>, f: Failure)
    ensures f in CoreDuplicates(cs) <==> (!f.MissingTargets? && CoreFault(cs, f))
  {
    if cs != [] {
      var front, c := cs[..|cs| - 1], cs[|cs| - 1];
      assert cs == front + [c];
      CoreDuplicatesAre(front, f);
      NewDuplicatesAre(Elements(Names(front)), Elements(ExplicitIds(front)), c, f);
      assert f in CoreDuplicates(cs) <==>
             f in CoreDuplicates(front) || f in NewDuplicates(Elements(Names(front)), Elements(ExplicitIds(front)), c);
      if f.DuplicateName? {
        NameStep(front, c, f.name);
      } else if f.DuplicateId? {
        IdStep(front, c, f.id);
      }
    }
  }

  method LinkTargets(traits: seq<Trait>, before: set<string>) returns (required: set<string>)
    ensures required == before + Targets(traits)
  {
    required := before;
    for j := 0 to |traits|
      invariant required == before + Targets(traits[..j])
    {
      Snoc(traits, j);
      var p := traits[j].properties;
      if p.Link? { required := required + {p.link.target.name}; }
    }
    assert traits[..|traits|] == traits;
  }

  lemma RegistriesStep(cs: seq<Component>, i: nat)
    requires i < |cs|
    ensures Elements(Names(cs[..i + 1])) == Elements(Names(cs[..i])) + {cs[i].name}
    ensures Elements(ExplicitIds(cs[..i + 1])) ==
            Elements(ExplicitIds(cs[..i])) + if cs[i].id.Some? then {cs[i].id.value} else {}
    ensures Targets(AllTraits(cs[..i + 1])) == Targets(AllTraits(cs[..i])) + Targets(cs[i].Traits())
  {
    Snoc(cs, i);
    assert Names(cs[..i + 1]) == Names(cs[..i]) + [cs[i].name];
    assert ExplicitIds(cs[..i + 1]) == ExplicitIds(cs[..i]) + if cs[i].id.Some? then [cs[i].id.value] else [];
    assert AllTraits(cs[..i + 1]) == AllTraits(cs[..i]) + cs[i].Traits();
  }

  lemma DuplicatesStep(cs: seq<Component>, i: nat)
    requires i < |cs|
    ensures CoreDuplicates(cs[..i + 1]) ==
            CoreDuplicates(cs[..i]) + NewDuplicates(Elements(Names(cs[..i])), Elements(ExplicitIds(cs[..i])), cs[i])
  {
    Snoc(cs, i);
  }

  /** The targets that name no component. */
  function Missing(cs: seq<Component>): seq<Failure> {
    var missing := Targets(AllTraits(cs)) - Elements(Names(cs));
    if missing == {} then [] else [MissingTargets(missing)]
  }

  lemma CoreFailuresAre(cs: seq<Component>, f: Failure)
    ensures f in CoreDuplicates(cs) + Missing(cs) <==> CoreFault(cs, f)
  {
    CoreDuplicatesAre(cs, f);
    assert (set x | x in Targets(AllTraits(cs)) && x !in Names(cs)) == Targets(AllTraits(cs)) - Elements(Names(cs));
  }

  /** The keys among these that are no OAM labels, in some order. */
  method BadKeys(keys: set<string>) returns (bad: seq<string>)
    ensures forall k :: k in bad <==> k in keys && !IsOamLabel(k)
  {
    bad := [];
    var todo := keys;
    while todo != {}
      invariant todo <= keys
      invariant forall k :: k in bad <==> k in keys && k !in todo && !IsOamLabel(k)
    {
      var k :| k in todo;
      todo := todo - {k};
      if !IsOamLabel(k) { bad := bad + [k]; }
    }
  }

  method OamFailures(m: Manifest) returns (failures: seq<Failure>)
    ensures forall f :: f in failures <==> OamFault(m, f)
  {
    var labels := BadKeys(m.labels.Keys);
    var annotations := BadKeys(m.annotations.Keys);
    var first := seq(|labels|, k requires 0 <= k < |labels| => BadLabel(labels[k]));
    var second := seq(|annotations|, k requires 0 <= k < |annotations| => BadAnnotation(annotations[k]));
    failures := first + second;
    forall f | OamFault(m, f) ensures f in failures {
      if f.BadLabel? {
        var k :| 0 <= k < |labels| && labels[k] == f.key;
        assert first[k] == f;
      } else {
        var k :| 0 <= k < |annotations| && annotations[k] == f.key;
        assert second[k] == f;
      }
    }
  }

  method CoreValidation(m: Manifest) returns (failures: seq<Failure>)
    ensures forall f :: f in failures <==> (OamFault(m, f) || CoreFault(m.components, f))
  {
    var oam := OamFailures(m);
    var core := ComponentFailures(m);
    failures := oam + core;
  }

  method MisnamedInterfaces(l: LinkProperty) returns (failures: seq<Failure>)
    ensures forall f :: f in failures <==> MisnamedIn(l, l.interfaces, f)
  {
    failures := [];
    for j := 0 to |l.interfaces|
      invariant forall f :: f in failures <==> MisnamedIn(l, l.interfaces[..j], f)
    {
      Snoc(l.interfaces, j);
      if IsMisnamed(l.namespace, l.package, l.interfaces[j]) {
        failures := failures + [UnrecognizedInterface(l.namespace, l.package, l.interfaces[j])];
      }
    }
    assert l.interfaces[..|l.interfaces|] == l.interfaces;
  }

  method CheckMisnamedInterfaces(m: Manifest) returns (failures: seq<Failure>)
    ensures forall f :: f in failures <==> MisnamedFault(Links(m), f)
  {
    failures := [];
    var links := Links(m);
    for i := 0 to |links|
      invariant forall f :: f in failures <==> MisnamedFault(links[..i], f)
    {
      Snoc(links, i);
      var p := links[i].properties;
      if p.Link? {
        var more := MisnamedInterfaces(p.link);
        failures := failures + more;
      }
    }
    assert links[..|links|] == links;
  }

  /** Names, identifiers and targets of the components. */
  method ComponentFailures(m: Manifest) returns (failures: seq<Failure>)
    ensures forall f :: f in failures <==> CoreFault(m.components, f)
  {
    failures := [];
    var nameRegistry, idRegistry, required: set<string> := {}, {}, {};
    var cs := m.components;
    for i := 0 to |cs|
      invariant nameRegistry == Elements(Names(cs[..i]))
      invariant idRegistry == Elements(ExplicitIds(cs[..i]))
      invariant required == Targets(AllTraits(cs[..i]))
      invariant failures == CoreDuplicates(cs[..i])
    {
      var c := cs[i];
      RegistriesStep(cs, i);
      DuplicatesStep(cs, i);
      failures := failures + NewDuplicates(nameRegistry, idRegistry, c);
      nameRegistry := nameRegistry + {c.name};
      if c.id.Some? { idRegistry := idRegistry + {c.id.value}; }
      required := LinkTargets(c.Traits(), required);
    }
    assert cs[..|cs|] == cs;
    var missing := required - nameRegistry;
    if missing != {} { failures := failures + [MissingTargets(missing)]; }
    assert failures == CoreDuplicates(cs) + Missing(cs);
    forall f ensures f in failures <==> CoreFault(cs, f) { CoreFailuresAre(cs, f); }
  }

  method CustomTraits(traits: seq<Trait>) returns (failures: seq<Failure>)
    ensures forall f :: f in failures <==> CustomFault(traits, f)
  {
    failures := [];
    for j := 0 to |traits|
      invariant forall f :: f in failures <==> CustomFault(traits[..j], f)
    {
      Snoc(traits, j);
      var t := traits[j];
      if t.properties.Custom? && t.IsLink() {
        failures := failures + [CustomLink(t.properties.target)];
      } else if t.properties.Custom? && t.IsScaler() {
        failures := failures + [CustomScaler(t.properties.target)];
      }
    }
    assert traits[..|traits|] == traits;
  }

  method EnsureNoCustomTraits(m: Manifest) returns (failures: seq<Failure>)
    ensures forall f :: f in failures <==> CustomFault(AllTraits(m.components), f)
  {
    failures := [];
    var cs := m.components;
    for i := 0 to |cs|
      invariant forall f :: f in failures <==> CustomFault(AllTraits(cs[..i]), f)
    {
      Snoc(cs, i);
      var more := CustomTraits(cs[i].Traits());
      failures := failures + more;
    }
    assert cs[..|cs|] == cs;
  }

  /** None when the check panics. */
  method CheckDanglingLinks(m: Manifest) returns (failures: Option<seq<Failure>>)
    ensures failures.None? <==> Panics(Links(m))
    ensures failures.Some? ==> forall f :: f in failures.value <==> Dangling(Names(m.components), Links(m), f)
  {
    var links, names := Links(m), Names(m.components);
    var found: seq<Failure> := [];
    for i := 0 to |links|
      invariant !Panics(links[..i])
      invariant forall f :: f in found <==> Dangling(names, links[..i], f)
    {
      Snoc(links, i);
      var p := links[i].properties;
      match p {
        case Custom(target) =>
          if target.Absent? {
            found := found + [LinkWithoutTarget];
          } else if target.Unnamed? {
            found := found + [LinkWithoutTargetName];
          } else if target.name !in names {
            found := found + [UnlistedCustomTarget(target.name)];
          }
        case Link(l) =>
          if l.target.name !in names { found := found + [UnlistedTarget(l.target.name)]; }
        case SpreadScaler(_, _) =>
          assert links[i] in links;
          return None;
      }
    }
    assert links[..|links|] == links;
    return Some(found);
  }

  method SecretFailures(policies: map<string, Policy>, secrets: seq<SecretProperty>) returns (failures: seq<Failure>)
    ensures forall f :: f in failures <==> AnySecretFault(policies, secrets, f)
  {
    failures := [];
    for j := 0 to |secrets|
      invariant forall f :: f in failures <==> AnySecretFault(policies, secrets[..j], f)
    {
      Snoc(secrets, j);
      var secret := secrets[j];
      assert forall f :: AnySecretFault(policies, secrets[..j] + [secret], f) <==>
                         (AnySecretFault(policies, secrets[..j], f) || SecretFault(policies, secret) == Some(f));
      if secret.policy in policies {
        var policy := policies[secret.policy];
        if policy.policyType != SECRET_POLICY_TYPE {
          failures := failures + [NotASecretPolicy(secret.name, secret.policy)];
        } else if "backend" !in policy.properties {
          failures := failures + [PolicyWithoutBackend(secret.name, secret.policy)];
        }
      } else {
        failures := failures + [UnknownPolicy(secret.name, secret.policy)];
      }
    }
    assert secrets[..|secrets|] == secrets;
  }

  method ValidatePolicies(m: Manifest) returns (failures: seq<Failure>)
    ensures forall f :: f in failures <==> SecretFaults(PolicyLookup(m.policies), m.components, f)
  {
    failures := [];
    var policies, cs := PolicyLookup(m.policies), m.components;
    for i := 0 to |cs|
      invariant forall f :: f in failures <==> SecretFaults(policies, cs[..i], f)
    {
      Snoc(cs, i);
      var more := SecretFailures(policies, cs[i].Secrets());
      failures := failures + more;
    }
    assert cs[..|cs|] == cs;
  }

  method ValidateComponentProperties(m: Manifest) returns (failures: seq<Failure>)
    ensures forall f :: f in failures <==> PropertiesFaults(m.components, f)
  {
    failures := [];
    var cs := m.components;
    for i := 0 to |cs|
      invariant forall f :: f in failures <==> PropertiesFaults(cs[..i], f)
    {
      Snoc(cs, i);
      var fault := PropertiesFault(cs[i]);
      if fault.Some? { failures := failures + [fault.value]; }
    }
    assert cs[..|cs|] == cs;
  }

  /** The items that were there before, one for each time an item comes again. */
  function Repeats<T(==)>(items: seq<T>): seq<T> {
    if items == [] then []
    else
      var front, x := items[..|items| - 1], items[|items| - 1];
      Repeats(front) + if x in front then [x] else []
  }

  lemma {:induction false} RepeatsAre<T>(items: seq<T>, x: T)
    ensures x in Repeats(items) <==> multiset(items)[x] > 1
  {
    if items != [] {
      var front, y := items[..|items| - 1], items[|items| - 1];
      assert items == front + [y];
      RepeatsAre(front, x);
    }
  }

  lemma RepeatsStep<T>(items: seq<T>, x: T)
    ensures Repeats(items + [x]) == Repeats(items) + if x in items then [x] else []
    ensures Elements(items + [x]) == Elements(items) + {x}
  {
    assert (items + [x])[..|items|] == items;
  }

  method RepeatedInterfaces(l: LinkProperty, ghost before: seq<LinkId>, linkIds: set<LinkId>)
    returns (repeated: seq<LinkId>, registry: set<LinkId>)
    requires linkIds == Elements(before)
    ensures Repeats(before) + repeated == Repeats(before + InterfaceIds(l, l.interfaces))
    ensures registry == Elements(before + InterfaceIds(l, l.interfaces))
  {
    repeated, registry := [], linkIds;
    assert before + InterfaceIds(l, []) == before;
    for j := 0 to |l.interfaces|
      invariant Repeats(before) + repeated == Repeats(before + InterfaceIds(l, l.interfaces[..j]))
      invariant registry == Elements(before + InterfaceIds(l, l.interfaces[..j]))
    {
      Snoc(l.interfaces, j);
      var id := LinkId(l.LinkName(), l.namespace, l.package, l.interfaces[j]);
      ghost var so := before + InterfaceIds(l, l.interfaces[..j]);
      assert before + InterfaceIds(l, l.interfaces[..j + 1]) == so + [id];
      RepeatsStep(so, id);
      if id in registry { repeated := repeated + [id]; }
      registry := registry + {id};
    }
    assert l.interfaces[..|l.interfaces|] == l.interfaces;
  }

  method RepeatedLinks(links: seq<Trait>) returns (repeated: seq<LinkId>)
    ensures repeated == Repeats(LinkIds(links))
  {
    repeated := [];
    var linkIds: set<LinkId> := {};
    for i := 0 to |links|
      invariant linkIds == Elements(LinkIds(links[..i])) && repeated == Repeats(LinkIds(links[..i]))
    {
      Snoc(links, i);
      var p := links[i].properties;
      if p.Link? {
        var more, registry := RepeatedInterfaces(p.link, LinkIds(links[..i]), linkIds);
        repeated, linkIds := repeated + more, registry;
      } else {
        assert LinkIds(links[..i]) + [] == LinkIds(links[..i]);
      }
    }
    assert links[..|links|] == links;
  }

  method ComponentLinkFailures(c: Component) returns (failures: seq<Failure>)
    ensures forall f :: f in failures <==> LinkFaults([c], f)
  {
    var repeated := RepeatedLinks(LinkTraits(c.Traits()));
    failures := seq(|repeated|, k requires 0 <= k < |repeated| => DuplicateLink(c.name, repeated[k]));
    forall f ensures f in failures <==> LinkFaults([c], f) {
      assert c in [c];
      if f.DuplicateLink? {
        RepeatsAre(LinkIds(LinkTraits(c.Traits())), f.link);
        if f.link in repeated && f.component == c.name {
          var k :| 0 <= k < |repeated| && repeated[k] == f.link;
          assert failures[k] == f;
        }
      }
    }
  }

  method CheckDuplicateLinks(m: Manifest) returns (failures: seq<Failure>)
    ensures forall f :: f in failures <==> LinkFaults(m.components, f)
  {
    failures := [];
    var cs := m.components;
    for i := 0 to |cs|
      invariant forall f :: f in failures <==> LinkFaults(cs[..i], f)
    {
      Snoc(cs, i);
      assert forall f :: LinkFaults(cs[..i] + [cs[i]], f) <==> (LinkFaults(cs[..i], f) || LinkFaults([cs[i]], f));
      var more := ComponentLinkFailures(cs[i]);
      failures := failures + more;
    }
    assert cs[..|cs|] == cs;
  }

  method RegisterConfigs(configs: seq<ConfigProperty>, ghost before: seq<string>, names: set<string>)
    returns (repeated: seq<string>, registry: set<string>)
    requires names == Elements(before)
    ensures Repeats(before) + repeated == Repeats(before + CreatedConfigs(configs))
    ensures registry == Elements(before + CreatedConfigs(configs))
  {
    repeated, registry := [], names;
    assert before + CreatedConfigs([]) == before;
    for j := 0 to |configs|
      invariant Repeats(before) + repeated == Repeats(before + CreatedConfigs(configs[..j]))
      invariant registry == Elements(before + CreatedConfigs(configs[..j]))
    {
      Snoc(configs, j);
      ghost var so := before + CreatedConfigs(configs[..j]);
      if configs[j].properties.None? {
        assert before + CreatedConfigs(configs[..j + 1]) == so;
        continue;
      }
      var name := configs[j].name;
      assert before + CreatedConfigs(configs[..j + 1]) == so + [name];
      RepeatsStep(so, name);
      if name in registry { repeated := repeated + [name]; }
      registry := registry + {name};
    }
    assert configs[..|configs|] == configs;
  }

  method ValidateLinkConfigs(m: Manifest) returns (failures: seq<Failure>)
    ensures forall f :: f in failures <==> ConfigFaults(Links(m), f)
  {
    var links := Links(m);
    var repeated, registry: set<string> := [], {};
    for i := 0 to |links|
      invariant registry == Elements(LinkConfigs(links[..i])) && repeated == Repeats(LinkConfigs(links[..i]))
    {
      Snoc(links, i);
      ghost var so := LinkConfigs(links[..i]);
      var p := links[i].properties;
      if p.Link? {
        ghost var targets, sources := CreatedConfigs(p.link.target.config), CreatedConfigs(p.link.SourceConfig());
        assert so + targets + sources == so + (targets + sources);
        var more, next := RegisterConfigs(p.link.target.config, so, registry);
        var evenMore, last := RegisterConfigs(p.link.SourceConfig(), so + targets, next);
        repeated, registry := repeated + more + evenMore, last;
      } else {
        assert so + [] == so;
      }
    }
    assert links[..|links|] == links;
    failures := seq(|repeated|, k requires 0 <= k < |repeated| => DuplicateConfigName(repeated[k]));
    forall f ensures f in failures <==> ConfigFaults(links, f) {
      if f.DuplicateConfigName? {
        RepeatsAre(LinkConfigs(links), f.config);
        if f.config in repeated {
          var k :| 0 <= k < |repeated| && repeated[k] == f.config;
          assert failures[k] == f;
        }
      }
    }
  }

  /** None when validation panics. */
  method ValidateManifest(m: Manifest) returns (failures: Option<seq<Failure>>)
    ensures failures.None? <==> Panics(Links(m))
    ensures failures.Some? ==> forall f :: f in failures.value <==> Fault(m, f)
  {
    var name := if IsValidManifestName(m.name) then [] else [BadName];
    var version := if m.Version() == LATEST_VERSION then [ReservedVersion] else [];
    var core := CoreValidation(m);
    var misnamed := CheckMisnamedInterfaces(m);
    var dangling := CheckDanglingLinks(m);
    if dangling.None? { return None; }
    var policies := ValidatePolicies(m);
    var custom := EnsureNoCustomTraits(m);
    var properties := ValidateComponentProperties(m);
    var links := CheckDuplicateLinks(m);
    var configs := ValidateLinkConfigs(m);
    return Some(name + version + core + misnamed + dangling.value + policies + custom + properties + links + configs);
  }
}

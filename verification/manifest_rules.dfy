/** The rules that a manifest has to keep, position by position. */
module ManifestRules {
  import opened Wrappers
  import opened Manifests
  import opened OamLabels
  import opened Validation
  import opened Validity

  // ---------- lists without repeats ----------

  /** No list repeats an element, and no two share one. */
  ghost predicate NoRepeats<T>(lists: seq<seq<T>>) {
    && (forall i, a, b :: 0 <= i < |lists| && 0 <= a < b < |lists[i]| ==> lists[i][a] != lists[i][b])
    && (forall i, j, x :: 0 <= i < j < |lists| && x in lists[i] ==> x !in lists[j])
  }

  function Joined<T>(lists: seq<seq<T>>): seq<T> {
    if lists == [] then [] else Joined(lists[..|lists| - 1]) + lists[|lists| - 1]
  }

  lemma {:induction false} InJoined<T>(lists: seq<seq<T>>, x: T)
    ensures x in Joined(lists) <==> exists i :: 0 <= i < |lists| && x in lists[i]
  {
    if lists != [] {
      var n := |lists| - 1;
      InJoined(lists[..n], x);
      if i :| 0 <= i < |lists| && x in lists[i] {
        if i < n { assert x in lists[..n][i]; }
      }
      if i :| 0 <= i < n && x in lists[..n][i] { assert x in lists[i]; }
    }
  }

  lemma DistinctAppend<T>(a: seq<T>, b: seq<T>)
    ensures Distinct(a + b) <==> Distinct(a) && Distinct(b) && forall x :: x in a ==> x !in b
  {
    var s := a + b;
    assert forall i :: 0 <= i < |a| ==> s[i] == a[i];
    assert forall i :: 0 <= i < |b| ==> s[|a| + i] == b[i];
    if Distinct(s) {
      forall i, j | 0 <= i < j < |b| ensures b[i] != b[j] { assert s[|a| + i] != s[|a| + j]; }
      forall i, j | 0 <= i < |a| && 0 <= j < |b| ensures a[i] != b[j] { assert s[i] != s[|a| + j]; }
    }
    if Distinct(a) && Distinct(b) && forall x :: x in a ==> x !in b {
      forall i, j | 0 <= i < j < |s| ensures s[i] != s[j] {
        if i < |a| <= j { assert a[i] in a && b[j - |a|] in b; }
      }
    }
  }

  lemma {:induction false} DistinctJoined<T>(lists: seq<seq<T>>)
    ensures Distinct(Joined(lists)) <==> NoRepeats(lists)
  {
    if lists != [] {
      var n := |lists| - 1;
      var front, last := lists[..n], lists[n];
      DistinctJoined(front);
      DistinctAppend(Joined(front), last);
      forall x { InJoined(front, x); }
      NoRepeatsNext(front, last);
      assert front + [last] == lists;
    }
  }

  lemma NoRepeatsNext<T>(front: seq<seq<T>>, last: seq<T>)
    ensures NoRepeats(front + [last]) <==>
            NoRepeats(front) && Distinct(last) && forall i, x :: 0 <= i < |front| && x in front[i] ==> x !in last
  {
    var all, n := front + [last], |front|;
    assert all[n] == last && forall i :: 0 <= i < n ==> all[i] == front[i];
    if NoRepeats(all) {
      forall i, a, b | 0 <= i < n && 0 <= a < b < |front[i]| ensures front[i][a] != front[i][b] { assert all[i][a] != all[i][b]; }
      forall i, j, x | 0 <= i < j < n && x in front[i] ensures x !in front[j] { assert x in all[i]; }
      forall a, b | 0 <= a < b < |last| ensures last[a] != last[b] { assert all[n][a] != all[n][b]; }
      forall i, x | 0 <= i < n && x in front[i] ensures x !in last { assert x in all[i]; }
    }
  }

  // ---------- links ----------

  ghost predicate IsLinkTrait(t: Trait) {
    t.traitType == "link" && t.properties.Link?
  }

  /** A link's identities, one for each interface. */
  function Identities(t: Trait): seq<LinkId> {
    if t.traitType == "link" && t.properties.Link? then
      var l := t.properties.link;
      seq(|l.interfaces|, i requires 0 <= i < |l.interfaces| =>
        LinkId(if l.name.Some? then l.name.value else "default", l.namespace, l.package, l.interfaces[i]))
    else []
  }

  lemma {:induction false} InterfaceIdsAre(l: LinkProperty, interfaces: seq<string>)
    ensures |InterfaceIds(l, interfaces)| == |interfaces|
    ensures forall i :: 0 <= i < |interfaces| ==>
              InterfaceIds(l, interfaces)[i] == LinkId(if l.name.Some? then l.name.value else "default", l.namespace, l.package, interfaces[i])
  {
    if interfaces != [] { InterfaceIdsAre(l, interfaces[..|interfaces| - 1]); }
  }

  function AllIdentities(traits: seq<Trait>): seq<seq<LinkId>> {
    seq(|traits|, i requires 0 <= i < |traits| => Identities(traits[i]))
  }

  lemma {:induction false} LinkIdsAre(traits: seq<Trait>)
    ensures LinkIds(LinkTraits(traits)) == Joined(AllIdentities(traits))
  {
    if traits != [] {
      var front, t := traits[..|traits| - 1], traits[|traits| - 1];
      LinkIdsAre(front);
      assert AllIdentities(traits)[..|traits| - 1] == AllIdentities(front);
      var links := LinkTraits(front);
      if t.IsLink() { assert (links + [t])[..|links|] == links; }
      if IsLinkTrait(t) {
        InterfaceIdsAre(t.properties.link, t.properties.link.interfaces);
        assert InterfaceIds(t.properties.link, t.properties.link.interfaces) == Identities(t);
      }
    }
  }

  /** The names of the configs of a link that come with properties: those of its target, then of its source. */
  function Created(configs: seq<ConfigProperty>): seq<string> {
    if configs == [] then []
    else if configs[0].properties != None then [configs[0].name] + Created(configs[1..])
    else Created(configs[1..])
  }

  function LinkCreates(t: Trait): seq<string> {
    if t.traitType == "link" && t.properties.Link? then
      Created(t.properties.link.target.config)
      + Created(if t.properties.link.source.Some? then t.properties.link.source.value.config else [])
    else []
  }

  lemma {:induction false} CreatedSnoc(configs: seq<ConfigProperty>, c: ConfigProperty)
    ensures Created(configs + [c]) == Created(configs) + if c.properties != None then [c.name] else []
  {
    if configs != [] {
      assert (configs + [c])[1..] == configs[1..] + [c];
      CreatedSnoc(configs[1..], c);
    } else {
      assert configs + [c] == [c];
    }
  }

  lemma {:induction false} CreatedConfigsAre(configs: seq<ConfigProperty>)
    ensures CreatedConfigs(configs) == Created(configs)
  {
    if configs != [] {
      var front, c := configs[..|configs| - 1], configs[|configs| - 1];
      assert configs == front + [c];
      CreatedConfigsAre(front);
      CreatedSnoc(front, c);
    }
  }

  function AllCreated(traits: seq<Trait>): seq<seq<string>> {
    seq(|traits|, i requires 0 <= i < |traits| => LinkCreates(traits[i]))
  }

  lemma {:induction false} LinkConfigsAre(traits: seq<Trait>)
    ensures LinkConfigs(LinkTraits(traits)) == Joined(AllCreated(traits))
  {
    if traits != [] {
      var front, t := traits[..|traits| - 1], traits[|traits| - 1];
      LinkConfigsAre(front);
      JoinedCreatedMore(traits);
      if t.IsLink() {
        LinkConfigsMore(LinkTraits(front), t);
      } else {
        assert LinkCreates(t) == [] && LinkTraits(traits) == LinkTraits(front);
      }
    }
  }

  lemma JoinedCreatedMore(traits: seq<Trait>)
    requires traits != []
    ensures Joined(AllCreated(traits)) == Joined(AllCreated(traits[..|traits| - 1])) + LinkCreates(traits[|traits| - 1])
  {
    assert AllCreated(traits)[..|traits| - 1] == AllCreated(traits[..|traits| - 1]);
  }

  lemma LinkConfigsMore(links: seq<Trait>, t: Trait)
    requires t.IsLink()
    ensures LinkConfigs(links + [t]) == LinkConfigs(links) + LinkCreates(t)
  {
    assert (links + [t])[..|links|] == links;
    if t.properties.Link? {
      CreatedConfigsAre(t.properties.link.target.config);
      CreatedConfigsAre(t.properties.link.SourceConfig());
    }
  }

  /** Every trait of every component, in order. */
  lemma {:induction false} AllTraitsAre(cs: seq<Component>)
    ensures AllTraits(cs) == Joined(TraitLists(cs))
  {
    if cs != [] {
      AllTraitsAre(cs[..|cs| - 1]);
      assert TraitLists(cs)[..|cs| - 1] == TraitLists(cs[..|cs| - 1]);
    }
  }

  function TraitLists(cs: seq<Component>): seq<seq<Trait>> {
    seq(|cs|, i requires 0 <= i < |cs| => if cs[i].traits.Some? then cs[i].traits.value else [])
  }

  // ---------- secrets ----------

  /** Of the policies with the secret's policy's name the last is of the secret type and has a backend. */
  ghost predicate IsBacked(policies: seq<Policy>, s: SecretProperty) {
    exists k :: 0 <= k < |policies| && policies[k].name == s.policy
      && (forall j :: k < j < |policies| ==> policies[j].name != s.policy)
      && policies[k].policyType == "policy.secret.wasmcloud.dev/v1alpha1" && "backend" in policies[k].properties
  }

  lemma {:induction false} PolicyIsLast(policies: seq<Policy>, k: nat)
    requires k < |policies| && forall j :: k < j < |policies| ==> policies[j].name != policies[k].name
    ensures policies[k].name in PolicyLookup(policies) && PolicyLookup(policies)[policies[k].name] == policies[k]
  {
    if k < |policies| - 1 { PolicyIsLast(policies[..|policies| - 1], k); }
  }

  lemma {:induction false} LastPolicy(policies: seq<Policy>, name: string) returns (k: nat)
    requires name in PolicyLookup(policies)
    ensures k < |policies| && policies[k].name == name && forall j :: k < j < |policies| ==> policies[j].name != name
  {
    k := |policies| - 1;
    if policies[k].name != name { k := LastPolicy(policies[..k], name); }
  }

  lemma BackedIff(policies: seq<Policy>, s: SecretProperty)
    ensures HasBackend(PolicyLookup(policies), s) <==> IsBacked(policies, s)
  {
    if s.policy in PolicyLookup(policies) {
      var k := LastPolicy(policies, s.policy);
      PolicyIsLast(policies, k);
    }
    if k :| 0 <= k < |policies| && policies[k].name == s.policy && forall j :: k < j < |policies| ==> policies[j].name != s.policy {
      PolicyIsLast(policies, k);
    }
  }

  /** The component's own secrets, and those that its traits give the two ends of a link. */
  ghost predicate UsesSecret(c: Component, s: SecretProperty) {
    || s in c.secrets
    || exists t :: c.traits.Some? && t in c.traits.value && t.properties.Link?
         && (s in t.properties.link.target.secrets || (t.properties.link.source.Some? && s in t.properties.link.source.value.secrets))
  }

  lemma UsesIff(c: Component, s: SecretProperty)
    ensures s in c.Secrets() <==> UsesSecret(c, s)
  {
    LinkSecretIn(c.Traits(), s);
  }

  // ---------- the rules ----------

  ghost predicate HasTrait(m: Manifest, t: Trait) {
    exists i :: 0 <= i < |m.components| && m.components[i].traits.Some? && t in m.components[i].traits.value
  }

  ghost predicate NameRules(m: Manifest) {
    && m.name != "" && (forall i :: 0 <= i < |m.name| ==> LetterOrDigit(m.name[i]) || m.name[i] == '_' || m.name[i] == '-')
    && ("version" in m.annotations ==> m.annotations["version"] != "latest")
    && (forall k :: k in m.labels || k in m.annotations ==> IsOamLabel(k))
    && (forall i, j :: 0 <= i < j < |m.components| ==> m.components[i].name != m.components[j].name)
    && (forall i, j :: 0 <= i < j < |m.components| && m.components[i].id.Some? ==> m.components[i].id != m.components[j].id)
  }

  ghost predicate TraitRule(m: Manifest, t: Trait) {
    && (t.traitType == "link" ==> t.properties.Link?)
    && (t.traitType == "spreadscaler" || t.traitType == "daemonscaler" ==> !t.properties.Custom?)
    && (t.properties.Link? ==> exists i :: 0 <= i < |m.components| && m.components[i].name == t.properties.link.target.name)
  }

  ghost predicate ComponentRule(m: Manifest, c: Component) {
    && (c.image.Some? <==> c.application.None?)
    && (c.application.Some? ==>
          c.config == [] && c.secrets == []
          && forall t :: c.traits.Some? && t in c.traits.value ==> t.traitType != "spreadscaler" && t.traitType != "daemonscaler")
    && NoRepeats(AllIdentities(if c.traits.Some? then c.traits.value else []))
    && forall s :: UsesSecret(c, s) ==> IsBacked(m.policies, s)
  }

  /** Across all links of a manifest no created config is named twice. */
  ghost predicate Rules(m: Manifest) {
    && NameRules(m)
    && (forall t :: HasTrait(m, t) ==> TraitRule(m, t))
    && (forall c :: c in m.components ==> ComponentRule(m, c))
    && NoRepeats(AllCreated(Joined(TraitLists(m.components))))
  }

  lemma {:induction false} NamesApart(cs: seq<Component>)
    ensures Distinct(Names(cs)) <==> forall i, j :: 0 <= i < j < |cs| ==> cs[i].name != cs[j].name
  {
    assert forall i :: 0 <= i < |cs| ==> Names(cs)[i] == cs[i].name;
  }

  lemma {:induction false} IdsApart(cs: seq<Component>)
    ensures Distinct(ExplicitIds(cs)) <==> forall i, j :: 0 <= i < j < |cs| && cs[i].id.Some? ==> cs[i].id != cs[j].id
  {
    if cs != [] {
      var n := |cs| - 1;
      var front, c := cs[..n], cs[n];
      assert cs == front + [c];
      IdsApart(front);
      assert forall i :: 0 <= i < n ==> front[i] == cs[i];
      if c.id.Some? {
        IdIn(front, c.id.value);
        DistinctAppend(ExplicitIds(front), [c.id.value]);
        assert c.id.value in ExplicitIds(front) <==> exists i :: 0 <= i < n && cs[i].id == c.id;
      } else {
        assert ExplicitIds(cs) == ExplicitIds(front);
      }
    }
  }

  lemma TraitsOf(m: Manifest, t: Trait)
    ensures t in AllTraits(m.components) <==> HasTrait(m, t)
  {
    TraitIn(m.components, t);
    if c :| c in m.components && t in c.Traits() {
      var i :| 0 <= i < |m.components| && m.components[i] == c;
      assert c.traits.Some?;
    }
    if i :| 0 <= i < |m.components| && m.components[i].traits.Some? && t in m.components[i].traits.value {
      assert t in m.components[i].Traits();
    }
  }

  lemma NameRulesIff(m: Manifest)
    ensures NameRules(m) <==>
            && IsValidManifestName(m.name) && m.Version() != LATEST_VERSION && LabelsAllowed(m)
            && Distinct(Names(m.components)) && Distinct(ExplicitIds(m.components))
  {
    NamesApart(m.components);
    IdsApart(m.components);
    assert LATEST_VERSION != "";
  }

  lemma TraitRuleIff(m: Manifest, t: Trait)
    ensures TraitRule(m, t) <==> WellTyped(t) && (t.properties.Link? ==> t.properties.link.target.name in Names(m.components))
  {
    if t.properties.Link? {
      var x := t.properties.link.target.name;
      if x in Names(m.components) { var i :| 0 <= i < |m.components| && Names(m.components)[i] == x; }
      if i :| 0 <= i < |m.components| && m.components[i].name == x { assert Names(m.components)[i] == x; }
    }
  }

  lemma TraitRulesIff(m: Manifest)
    ensures (forall t :: HasTrait(m, t) ==> TraitRule(m, t)) <==>
            TargetsListed(m.components) && forall t :: t in AllTraits(m.components) ==> WellTyped(t)
  {
    forall t { TraitsOf(m, t); }
    forall t { TraitRuleIff(m, t); }
  }

  lemma ComponentRuleIff(m: Manifest, c: Component)
    ensures ComponentRule(m, c) <==>
            Located(c) && Distinct(LinkIds(LinkTraits(c.Traits()))) && SecretsBacked(PolicyLookup(m.policies), c.Secrets())
  {
    LinkIdsAre(c.Traits());
    DistinctJoined(AllIdentities(c.Traits()));
    forall s { UsesIff(c, s); }
    forall s { BackedIff(m.policies, s); }
  }

  lemma ComponentRulesIff(m: Manifest)
    ensures (forall c :: c in m.components ==> ComponentRule(m, c)) <==>
            && (forall c :: c in m.components ==> Located(c))
            && (forall c :: c in m.components ==> Distinct(LinkIds(LinkTraits(c.Traits()))))
            && (forall c :: c in m.components ==> SecretsBacked(PolicyLookup(m.policies), c.Secrets()))
  {
    forall c: Component
      ensures ComponentRule(m, c) <==>
              Located(c) && Distinct(LinkIds(LinkTraits(c.Traits()))) && SecretsBacked(PolicyLookup(m.policies), c.Secrets())
    {
      ComponentRuleIff(m, c);
    }
  }

  lemma ConfigRuleIff(m: Manifest)
    ensures NoRepeats(AllCreated(Joined(TraitLists(m.components)))) <==> Distinct(LinkConfigs(Links(m)))
  {
    AllTraitsAre(m.components);
    LinkConfigsAre(AllTraits(m.components));
    DistinctJoined(AllCreated(AllTraits(m.components)));
  }

  /** Validation passes exactly the manifests that keep the rules. */
  lemma ValidIffRules(m: Manifest)
    ensures Valid(m) <==> Rules(m)
  {
    ValidIffWellFormed(m);
    NameRulesIff(m);
    TraitRulesIff(m);
    ComponentRulesIff(m);
    ConfigRuleIff(m);
  }

  // ---------- every failure ----------

  /** An element that a list repeats, or two share. */
  ghost predicate Repeated<T>(lists: seq<seq<T>>, x: T) {
    || (exists i, a, b :: 0 <= i < |lists| && 0 <= a < b < |lists[i]| && lists[i][a] == x && lists[i][b] == x)
    || (exists i, j :: 0 <= i < j < |lists| && x in lists[i] && x in lists[j])
  }

  lemma {:induction false} TwiceIff<T>(s: seq<T>, x: T)
    ensures multiset(s)[x] > 0 <==> x in s
    ensures multiset(s)[x] > 1 <==> exists a, b :: 0 <= a < b < |s| && s[a] == x && s[b] == x
  {
    if s != [] {
      var n := |s| - 1;
      assert s == s[..n] + [s[n]];
      TwiceIff(s[..n], x);
      if a, b :| 0 <= a < b < |s| && s[a] == x && s[b] == x {
        if b == n { assert s[..n][a] == x; } else { assert s[..n][a] == x && s[..n][b] == x; }
      }
      if s[n] == x && x in s[..n] {
        var a :| 0 <= a < n && s[..n][a] == x;
        assert s[a] == x;
      }
      if a, b :| 0 <= a < b < n && s[..n][a] == x && s[..n][b] == x { assert s[a] == x && s[b] == x; }
    }
  }

  lemma RepeatedNext<T>(front: seq<seq<T>>, last: seq<T>, x: T)
    ensures Repeated(front + [last], x) <==>
            || Repeated(front, x) || (exists a, b :: 0 <= a < b < |last| && last[a] == x && last[b] == x)
            || (x in last && exists i :: 0 <= i < |front| && x in front[i])
  {
    var all, n := front + [last], |front|;
    assert all[n] == last && forall i :: 0 <= i < n ==> all[i] == front[i];
    if i, a, b :| 0 <= i < n && 0 <= a < b < |front[i]| && front[i][a] == x && front[i][b] == x {
      assert all[i][a] == x && all[i][b] == x;
    }
    if a, b :| 0 <= a < b < |last| && last[a] == x && last[b] == x { assert all[n][a] == x && all[n][b] == x; }
    if i, j :| 0 <= i < j < n && x in front[i] && x in front[j] { assert x in all[i] && x in all[j]; }
    if i :| 0 <= i < n && x in front[i] && x in last { assert x in all[i] && x in all[n]; }
  }

  lemma {:induction false} RepeatedIff<T>(lists: seq<seq<T>>, x: T)
    ensures multiset(Joined(lists))[x] > 1 <==> Repeated(lists, x)
  {
    if lists != [] {
      var n := |lists| - 1;
      RepeatedIff(lists[..n], x);
      RepeatedNext(lists[..n], lists[n], x);
      assert lists == lists[..n] + [lists[n]];
      InJoined(lists[..n], x);
      TwiceIff(Joined(lists[..n]), x);
      TwiceIff(lists[n], x);
    }
  }

  ghost predicate IsListed(m: Manifest, name: string) {
    exists i :: 0 <= i < |m.components| && m.components[i].name == name
  }

  ghost predicate Uses(m: Manifest, secret: string, policy: string) {
    exists c, s :: c in m.components && UsesSecret(c, s) && s.name == secret && s.policy == policy
  }

  /** The policy of that name that counts: the last. */
  ghost predicate IsPolicy(m: Manifest, name: string, p: Policy) {
    exists k :: 0 <= k < |m.policies| && m.policies[k] == p && p.name == name && forall j :: k < j < |m.policies| ==> m.policies[j].name != name
  }

  ghost predicate Scaled(c: Component) {
    exists t :: c.traits.Some? && t in c.traits.value && (t.traitType == "spreadscaler" || t.traitType == "daemonscaler")
  }

  ghost predicate HasCustom(m: Manifest, kind: string, target: CustomTarget) {
    exists t :: HasTrait(m, t) && t.traitType == kind && t.properties == Custom(target)
  }

  /** What each failure says of the manifest. */
  ghost predicate Says(m: Manifest, f: Failure) {
    match f
    case BadName => m.name == "" || exists i :: 0 <= i < |m.name| && !LetterOrDigit(m.name[i]) && m.name[i] != '_' && m.name[i] != '-'
    case ReservedVersion => "version" in m.annotations && m.annotations["version"] == "latest"
    case BadLabel(key) => key in m.labels && !IsOamLabel(key)
    case BadAnnotation(key) => key in m.annotations && !IsOamLabel(key)
    case UnrecognizedInterface(namespace, package, interface) =>
      exists t :: HasTrait(m, t) && IsLinkTrait(t) && t.properties.link.namespace == namespace && t.properties.link.package == package
                  && interface in t.properties.link.interfaces && namespace in KNOWN_INTERFACES
                  && (package !in KNOWN_INTERFACES[namespace] || interface !in KNOWN_INTERFACES[namespace][package])
    case DuplicateName(name) => exists i, j :: 0 <= i < j < |m.components| && m.components[i].name == name && m.components[j].name == name
    case DuplicateId(id) => exists i, j :: 0 <= i < j < |m.components| && m.components[i].id == Some(id) && m.components[j].id == Some(id)
    case MissingTargets(targets) =>
      targets != {} && forall x :: x in targets <==>
        !IsListed(m, x) && exists t :: HasTrait(m, t) && t.properties.Link? && t.properties.link.target.name == x
    case CustomLink(target) => HasCustom(m, "link", target)
    case CustomScaler(target) => HasCustom(m, "spreadscaler", target) || HasCustom(m, "daemonscaler", target)
    case LinkWithoutTarget => HasCustom(m, "link", Absent)
    case LinkWithoutTargetName => HasCustom(m, "link", Unnamed)
    case UnlistedTarget(name) => !IsListed(m, name) && exists t :: HasTrait(m, t) && IsLinkTrait(t) && t.properties.link.target.name == name
    case UnlistedCustomTarget(name) => !IsListed(m, name) && HasCustom(m, "link", Named(name))
    case UnknownPolicy(secret, policy) => Uses(m, secret, policy) && forall k :: 0 <= k < |m.policies| ==> m.policies[k].name != policy
    case NotASecretPolicy(secret, policy) =>
      Uses(m, secret, policy) && exists p :: IsPolicy(m, policy, p) && p.policyType != "policy.secret.wasmcloud.dev/v1alpha1"
    case PolicyWithoutBackend(secret, policy) =>
      Uses(m, secret, policy) && exists p :: IsPolicy(m, policy, p) && p.policyType == "policy.secret.wasmcloud.dev/v1alpha1"
                                             && "backend" !in p.properties
    case ImageAndApplication => exists c :: c in m.components && c.image.Some? && c.application.Some?
    case NoImageNorApplication => exists c :: c in m.components && c.image.None? && c.application.None?
    case SharedWithConfig(app) => exists c :: IsShared(m, c, app) && c.config != []
    case SharedWithSecrets(app) => exists c :: IsShared(m, c, app) && c.config == [] && c.secrets != []
    case SharedWithScaler(app) => exists c :: IsShared(m, c, app) && c.config == [] && c.secrets == [] && Scaled(c)
    case DuplicateLink(component, link) =>
      exists c :: c in m.components && c.name == component && Repeated(AllIdentities(if c.traits.Some? then c.traits.value else []), link)
    case DuplicateConfigName(config) => CreatedTwice(Joined(TraitLists(m.components)), config)
  }

  ghost predicate IsShared(m: Manifest, c: Component, app: string) {
    c in m.components && c.image.None? && c.application.Some? && c.application.value.name == app
  }

  lemma LinkOf(m: Manifest, t: Trait)
    ensures t in Links(m) <==> HasTrait(m, t) && t.traitType == "link"
  {
    TraitsOf(m, t);
  }

  lemma ListedIff(m: Manifest, name: string)
    ensures name in Names(m.components) <==> IsListed(m, name)
  {
    if name in Names(m.components) { var i :| 0 <= i < |m.components| && Names(m.components)[i] == name; }
    if i :| 0 <= i < |m.components| && m.components[i].name == name { assert Names(m.components)[i] == name; }
  }

  // ---------- duplicates and missing targets ----------

  lemma DuplicateNameSays(m: Manifest, name: string)
    ensures CoreFault(m.components, DuplicateName(name)) <==> Says(m, DuplicateName(name))
  {
    TwiceIff(Names(m.components), name);
    assert forall i :: 0 <= i < |m.components| ==> Names(m.components)[i] == m.components[i].name;
  }

  function IdLists(cs: seq<Component>): seq<seq<string>> {
    seq(|cs|, i requires 0 <= i < |cs| => if cs[i].id.Some? then [cs[i].id.value] else [])
  }

  lemma {:induction false} IdsAreJoined(cs: seq<Component>)
    ensures ExplicitIds(cs) == Joined(IdLists(cs))
  {
    if cs != [] {
      IdsAreJoined(cs[..|cs| - 1]);
      assert IdLists(cs)[..|cs| - 1] == IdLists(cs[..|cs| - 1]);
    }
  }

  ghost predicate TwoHave(cs: seq<Component>, id: string) {
    exists i, j :: 0 <= i < j < |cs| && cs[i].id == Some(id) && cs[j].id == Some(id)
  }

  lemma TwoHaveIff(cs: seq<Component>, id: string)
    ensures Repeated(IdLists(cs), id) <==> TwoHave(cs, id)
  {
    var lists := IdLists(cs);
    forall i | 0 <= i < |cs| ensures id in lists[i] <==> cs[i].id == Some(id) {}
    forall i | 0 <= i < |lists| ensures |lists[i]| <= 1 {}
    if TwoHave(cs, id) {
      var i, j :| 0 <= i < j < |cs| && cs[i].id == Some(id) && cs[j].id == Some(id);
      assert id in lists[i] && id in lists[j];
    }
    if Repeated(lists, id) {
      var i, j :| 0 <= i < j < |lists| && id in lists[i] && id in lists[j];
      assert cs[i].id == Some(id) && cs[j].id == Some(id);
    }
  }

  lemma DuplicateIdSays(m: Manifest, id: string)
    ensures CoreFault(m.components, DuplicateId(id)) <==> Says(m, DuplicateId(id))
  {
    IdsAreJoined(m.components);
    RepeatedIff(IdLists(m.components), id);
    TwoHaveIff(m.components, id);
  }

  lemma MissingTargetsSays(m: Manifest, targets: set<string>)
    ensures CoreFault(m.components, MissingTargets(targets)) <==> Says(m, MissingTargets(targets))
  {
    forall t { TraitsOf(m, t); }
    forall x { ListedIff(m, x); }
    forall x ensures x in Targets(AllTraits(m.components)) <==> exists t :: HasTrait(m, t) && t.properties.Link? && t.properties.link.target.name == x {
      if t :| t in AllTraits(m.components) && t.properties.Link? && t.properties.link.target.name == x { assert HasTrait(m, t); }
      if t :| HasTrait(m, t) && t.properties.Link? && t.properties.link.target.name == x { assert t in AllTraits(m.components); }
    }
  }

  // ---------- traits ----------

  lemma CustomIs(m: Manifest, f: Failure)
    ensures CustomFault(AllTraits(m.components), f) <==>
            exists t :: HasTrait(m, t) && t.properties.Custom? && (t.IsLink() || t.IsScaler()) && TraitFault(t, f)
  {
    forall t { TraitsOf(m, t); }
  }

  lemma CustomSays(m: Manifest, target: CustomTarget)
    ensures CustomFault(AllTraits(m.components), CustomLink(target)) <==> Says(m, CustomLink(target))
    ensures CustomFault(AllTraits(m.components), CustomScaler(target)) <==> Says(m, CustomScaler(target))
  {
    CustomIs(m, CustomLink(target));
    CustomIs(m, CustomScaler(target));
    TraitTypes();
  }

  lemma DanglingIs(m: Manifest, f: Failure)
    ensures Dangling(Names(m.components), Links(m), f) <==>
            exists t :: HasTrait(m, t) && t.traitType == "link" && !t.properties.SpreadScaler? && DanglingFault(Names(m.components), t.properties) == Some(f)
  {
    forall t { LinkOf(m, t); }
  }

  lemma UnlistedTargetSays(m: Manifest, name: string)
    ensures Dangling(Names(m.components), Links(m), UnlistedTarget(name)) <==> Says(m, UnlistedTarget(name))
  {
    DanglingIs(m, UnlistedTarget(name));
    ListedIff(m, name);
    forall t: Trait | t.traitType == "link" && !t.properties.SpreadScaler?
      ensures DanglingFault(Names(m.components), t.properties) == Some(UnlistedTarget(name)) <==>
              IsLinkTrait(t) && t.properties.link.target.name == name && !IsListed(m, name)
    {}
  }

  lemma UnlistedCustomSays(m: Manifest, name: string)
    ensures Dangling(Names(m.components), Links(m), UnlistedCustomTarget(name)) <==> Says(m, UnlistedCustomTarget(name))
  {
    DanglingIs(m, UnlistedCustomTarget(name));
    ListedIff(m, name);
  }

  lemma NoTargetSays(m: Manifest)
    ensures Dangling(Names(m.components), Links(m), LinkWithoutTarget) <==> Says(m, LinkWithoutTarget)
  {
    DanglingIs(m, LinkWithoutTarget);
  }

  lemma NoTargetNameSays(m: Manifest)
    ensures Dangling(Names(m.components), Links(m), LinkWithoutTargetName) <==> Says(m, LinkWithoutTargetName)
  {
    DanglingIs(m, LinkWithoutTargetName);
  }

  lemma InterfaceSays(m: Manifest, f: Failure)
    requires f.UnrecognizedInterface?
    ensures MisnamedFault(Links(m), f) <==> Says(m, f)
  {
    forall t { LinkOf(m, t); }
  }

  // ---------- secrets ----------

  lemma UsesSays(m: Manifest, f: Failure)
    ensures SecretFaults(PolicyLookup(m.policies), m.components, f) <==>
            exists c, s :: c in m.components && UsesSecret(c, s) && SecretFault(PolicyLookup(m.policies), s) == Some(f)
  {
    forall c, s { UsesIff(c, s); }
  }

  lemma PolicyIs(m: Manifest, name: string, p: Policy)
    ensures IsPolicy(m, name, p) <==> name in PolicyLookup(m.policies) && PolicyLookup(m.policies)[name] == p
    ensures name !in PolicyLookup(m.policies) <==> forall k :: 0 <= k < |m.policies| ==> m.policies[k].name != name
  {
    if name in PolicyLookup(m.policies) {
      var k := LastPolicy(m.policies, name);
      PolicyIsLast(m.policies, k);
    }
    if k :| 0 <= k < |m.policies| && m.policies[k] == p && p.name == name && forall j :: k < j < |m.policies| ==> m.policies[j].name != name {
      PolicyIsLast(m.policies, k);
    }
    if k :| 0 <= k < |m.policies| && m.policies[k].name == name { NamedIsFound(m.policies, k); }
  }

  lemma {:induction false} NamedIsFound(policies: seq<Policy>, k: nat)
    requires k < |policies|
    ensures policies[k].name in PolicyLookup(policies)
  {
    if k < |policies| - 1 { NamedIsFound(policies[..|policies| - 1], k); }
  }

  lemma UnknownPolicySays(m: Manifest, secret: string, policy: string)
    ensures SecretFaults(PolicyLookup(m.policies), m.components, UnknownPolicy(secret, policy)) <==> Says(m, UnknownPolicy(secret, policy))
  {
    UsesSays(m, UnknownPolicy(secret, policy));
    PolicyIs(m, policy, Policy("", map[], ""));
  }

  lemma NotASecretPolicySays(m: Manifest, secret: string, policy: string)
    ensures SecretFaults(PolicyLookup(m.policies), m.components, NotASecretPolicy(secret, policy)) <==> Says(m, NotASecretPolicy(secret, policy))
  {
    UsesSays(m, NotASecretPolicy(secret, policy));
    forall p { PolicyIs(m, policy, p); }
  }

  lemma NoBackendSays(m: Manifest, secret: string, policy: string)
    ensures SecretFaults(PolicyLookup(m.policies), m.components, PolicyWithoutBackend(secret, policy)) <==>
            Says(m, PolicyWithoutBackend(secret, policy))
  {
    UsesSays(m, PolicyWithoutBackend(secret, policy));
    forall p { PolicyIs(m, policy, p); }
  }

  // ---------- properties and repeats ----------

  lemma LocationSays(m: Manifest)
    ensures PropertiesFaults(m.components, ImageAndApplication) <==> Says(m, ImageAndApplication)
    ensures PropertiesFaults(m.components, NoImageNorApplication) <==> Says(m, NoImageNorApplication)
  {}

  lemma SharedSays(m: Manifest, app: string)
    ensures PropertiesFaults(m.components, SharedWithConfig(app)) <==> Says(m, SharedWithConfig(app))
    ensures PropertiesFaults(m.components, SharedWithSecrets(app)) <==> Says(m, SharedWithSecrets(app))
  {}

  lemma SharedScalerSays(m: Manifest, app: string)
    ensures PropertiesFaults(m.components, SharedWithScaler(app)) <==> Says(m, SharedWithScaler(app))
  {
    forall c { ScaledIff(c); }
  }

  lemma ScaledIff(c: Component)
    ensures HasScaler(c) <==> Scaled(c)
  {
    if t :| t in c.Traits() && t.IsScaler() { assert c.traits.Some? && t in c.traits.value; }
    if t :| c.traits.Some? && t in c.traits.value && (t.traitType == "spreadscaler" || t.traitType == "daemonscaler") {
      assert t in c.Traits() && t.IsScaler();
    }
  }

  lemma DuplicateLinkSays(m: Manifest, component: string, link: LinkId)
    ensures LinkFaults(m.components, DuplicateLink(component, link)) <==> Says(m, DuplicateLink(component, link))
  {
    forall c: Component ensures multiset(LinkIds(LinkTraits(c.Traits())))[link] > 1 <==> Repeated(AllIdentities(c.Traits()), link) {
      LinkIdsAre(c.Traits());
      RepeatedIff(AllIdentities(c.Traits()), link);
    }
  }

  lemma DuplicateConfigSays(m: Manifest, config: string)
    ensures ConfigFaults(Links(m), DuplicateConfigName(config)) <==> Says(m, DuplicateConfigName(config))
  {
    var traits := AllTraits(m.components);
    assert traits == Joined(TraitLists(m.components)) by { AllTraitsAre(m.components); }
    assert ConfigFaults(Links(m), DuplicateConfigName(config)) <==> CreatedTwice(traits, config) by { ConfigFaultIff(traits, config); }
  }

  lemma ConfigFaultIff(traits: seq<Trait>, config: string)
    ensures ConfigFaults(LinkTraits(traits), DuplicateConfigName(config)) <==> CreatedTwice(traits, config)
  {
    CreatedTwiceIff(traits, config);
  }

  ghost predicate CreatedTwice(traits: seq<Trait>, config: string) {
    Repeated(AllCreated(traits), config)
  }

  lemma CreatedTwiceIff(traits: seq<Trait>, config: string)
    ensures multiset(LinkConfigs(LinkTraits(traits)))[config] > 1 <==> Repeated(AllCreated(traits), config)
  {
    LinkConfigsAre(traits);
    RepeatedIff(AllCreated(traits), config);
  }

  // ---------- all of them ----------

  /** Which check reports which failures. */
  datatype Check = OfNames | OfLabels | OfCore | OfInterfaces | OfLinks | OfSecrets | OfTraits | OfProperties | OfRepeats | OfConfigs

  function CheckOf(f: Failure): Check {
    match f
    case BadName => OfNames
    case ReservedVersion => OfNames
    case BadLabel(_) => OfLabels
    case BadAnnotation(_) => OfLabels
    case UnrecognizedInterface(_, _, _) => OfInterfaces
    case DuplicateName(_) => OfCore
    case DuplicateId(_) => OfCore
    case MissingTargets(_) => OfCore
    case CustomLink(_) => OfTraits
    case CustomScaler(_) => OfTraits
    case LinkWithoutTarget => OfLinks
    case LinkWithoutTargetName => OfLinks
    case UnlistedTarget(_) => OfLinks
    case UnlistedCustomTarget(_) => OfLinks
    case UnknownPolicy(_, _) => OfSecrets
    case NotASecretPolicy(_, _) => OfSecrets
    case PolicyWithoutBackend(_, _) => OfSecrets
    case DuplicateLink(_, _) => OfRepeats
    case DuplicateConfigName(_) => OfConfigs
    case _ => OfProperties
  }

  lemma ChecksReport(m: Manifest, f: Failure)
    ensures OamFault(m, f) ==> CheckOf(f) == OfLabels
    ensures CoreFault(m.components, f) ==> CheckOf(f) == OfCore
    ensures MisnamedFault(Links(m), f) ==> CheckOf(f) == OfInterfaces
    ensures LinkFaults(m.components, f) ==> CheckOf(f) == OfRepeats
    ensures ConfigFaults(Links(m), f) ==> CheckOf(f) == OfConfigs
  {}

  lemma LinksReport(m: Manifest, f: Failure)
    ensures Dangling(Names(m.components), Links(m), f) ==> CheckOf(f) == OfLinks
  {}

  lemma SecretsReport(m: Manifest, f: Failure)
    ensures SecretFaults(PolicyLookup(m.policies), m.components, f) ==> CheckOf(f) == OfSecrets
  {}

  lemma TraitsReport(m: Manifest, f: Failure)
    ensures CustomFault(AllTraits(m.components), f) ==> CheckOf(f) == OfTraits
    ensures PropertiesFaults(m.components, f) ==> CheckOf(f) == OfProperties
  {}

  /** What the check of a failure says of it. */
  ghost predicate Reported(m: Manifest, f: Failure) {
    match CheckOf(f)
    case OfNames => (f == BadName && !IsValidManifestName(m.name)) || (f == ReservedVersion && m.Version() == LATEST_VERSION)
    case OfLabels => OamFault(m, f)
    case OfCore => CoreFault(m.components, f)
    case OfInterfaces => MisnamedFault(Links(m), f)
    case OfLinks => Dangling(Names(m.components), Links(m), f)
    case OfSecrets => SecretFaults(PolicyLookup(m.policies), m.components, f)
    case OfTraits => CustomFault(AllTraits(m.components), f)
    case OfProperties => PropertiesFaults(m.components, f)
    case OfRepeats => LinkFaults(m.components, f)
    case OfConfigs => ConfigFaults(Links(m), f)
  }

  lemma FaultIsReported(m: Manifest, f: Failure)
    requires Fault(m, f)
    ensures Reported(m, f)
  {
    if OamFault(m, f) || CoreFault(m.components, f) || MisnamedFault(Links(m), f) || LinkFaults(m.components, f) || ConfigFaults(Links(m), f) {
      ChecksReport(m, f);
    } else if Dangling(Names(m.components), Links(m), f) {
      LinksReport(m, f);
    } else if SecretFaults(PolicyLookup(m.policies), m.components, f) {
      SecretsReport(m, f);
    } else if CustomFault(AllTraits(m.components), f) || PropertiesFaults(m.components, f) {
      TraitsReport(m, f);
    }
  }

  lemma ReportedIsFault(m: Manifest, f: Failure)
    requires Reported(m, f)
    ensures Fault(m, f)
  {
    match CheckOf(f)
    case OfNames =>
    case OfLabels =>
    case OfCore =>
    case OfInterfaces =>
    case OfLinks =>
    case OfSecrets =>
    case OfTraits =>
    case OfProperties =>
    case OfRepeats =>
    case OfConfigs =>
  }

  lemma PlainSays(m: Manifest, f: Failure)
    requires CheckOf(f) == OfNames || CheckOf(f) == OfLabels
    ensures Reported(m, f) <==> Says(m, f)
  {
    assert LATEST_VERSION != "";
  }

  lemma CoreSays(m: Manifest, f: Failure)
    requires CheckOf(f) == OfCore
    ensures CoreFault(m.components, f) <==> Says(m, f)
  {
    match f
    case DuplicateName(name) => DuplicateNameSays(m, name);
    case DuplicateId(id) => DuplicateIdSays(m, id);
    case MissingTargets(targets) => MissingTargetsSays(m, targets);
  }

  lemma LinksSay(m: Manifest, f: Failure)
    requires CheckOf(f) == OfLinks
    ensures Dangling(Names(m.components), Links(m), f) <==> Says(m, f)
  {
    match f
    case LinkWithoutTarget => NoTargetSays(m);
    case LinkWithoutTargetName => NoTargetNameSays(m);
    case UnlistedTarget(name) => UnlistedTargetSays(m, name);
    case UnlistedCustomTarget(name) => UnlistedCustomSays(m, name);
  }

  lemma SecretsSay(m: Manifest, f: Failure)
    requires CheckOf(f) == OfSecrets
    ensures SecretFaults(PolicyLookup(m.policies), m.components, f) <==> Says(m, f)
  {
    match f
    case UnknownPolicy(secret, policy) => UnknownPolicySays(m, secret, policy);
    case NotASecretPolicy(secret, policy) => NotASecretPolicySays(m, secret, policy);
    case PolicyWithoutBackend(secret, policy) => NoBackendSays(m, secret, policy);
  }

  lemma PropertiesSay(m: Manifest, f: Failure)
    requires CheckOf(f) == OfProperties
    ensures PropertiesFaults(m.components, f) <==> Says(m, f)
  {
    match f
    case ImageAndApplication => LocationSays(m);
    case NoImageNorApplication => LocationSays(m);
    case SharedWithConfig(app) => SharedSays(m, app);
    case SharedWithSecrets(app) => SharedSays(m, app);
    case SharedWithScaler(app) => SharedScalerSays(m, app);
  }

  lemma TraitsSay(m: Manifest, f: Failure)
    requires CheckOf(f) == OfTraits
    ensures CustomFault(AllTraits(m.components), f) <==> Says(m, f)
  {
    CustomSays(m, f.target);
  }

  lemma ReportedSays(m: Manifest, f: Failure)
    ensures Reported(m, f) <==> Says(m, f)
  {
    match CheckOf(f)
    case OfNames => PlainSays(m, f);
    case OfLabels => PlainSays(m, f);
    case OfCore => CoreSays(m, f);
    case OfInterfaces => InterfaceSays(m, f);
    case OfLinks => LinksSay(m, f);
    case OfSecrets => SecretsSay(m, f);
    case OfTraits => TraitsSay(m, f);
    case OfProperties => PropertiesSay(m, f);
    case OfRepeats => DuplicateLinkSays(m, f.component, f.link);
    case OfConfigs => DuplicateConfigSays(m, f.config);
  }

  /** Validation reports a failure exactly when it is so. */
  lemma FailuresAreSo(m: Manifest, f: Failure)
    ensures Fault(m, f) <==> Says(m, f)
  {
    if Fault(m, f) { FaultIsReported(m, f); }
    if Reported(m, f) { ReportedIsFault(m, f); }
    ReportedSays(m, f);
  }
}

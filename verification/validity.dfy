/** What a manifest is like when validation reports no error. */
module Validity {
  import opened Wrappers
  import opened Manifests
  import opened OamLabels
  import opened Validation

  ghost predicate Distinct<T>(s: seq<T>) {
    forall i, j :: 0 <= i < j < |s| ==> s[i] != s[j]
  }

  ghost predicate HasBackend(policies: map<string, Policy>, s: SecretProperty) {
    && s.policy in policies
    && policies[s.policy].policyType == SECRET_POLICY_TYPE
    && "backend" in policies[s.policy].properties
  }

  /** Its properties were parsed as what its type asks for, or as a link in place of a scaler. */
  ghost predicate WellTyped(t: Trait) {
    && (t.IsLink() ==> t.properties.Link?)
    && (t.IsScaler() ==> !t.properties.Custom?)
  }

  /** It has an image of its own, or it refers to another application and adds nothing. */
  ghost predicate Located(c: Component) {
    && (c.image.Some? <==> c.application.None?)
    && (c.application.Some? ==> c.config == [] && c.secrets == [] && !HasScaler(c))
  }

  ghost predicate LabelsAllowed(m: Manifest) {
    forall k :: k in m.labels.Keys + m.annotations.Keys ==> IsOamLabel(k)
  }

  ghost predicate WellFormed(m: Manifest) {
    && IsValidManifestName(m.name)
    && m.Version() != LATEST_VERSION
    && LabelsAllowed(m)
    && Distinct(Names(m.components))
    && Distinct(ExplicitIds(m.components))
    && TargetsListed(m.components)
    && (forall t :: t in AllTraits(m.components) ==> WellTyped(t))
    && (forall c :: c in m.components ==> Located(c))
    && (forall c :: c in m.components ==> Distinct(LinkIds(LinkTraits(c.Traits()))))
    && (forall c :: c in m.components ==> SecretsBacked(PolicyLookup(m.policies), c.Secrets()))
    && Distinct(LinkConfigs(Links(m)))
  }

  lemma {:induction false} DistinctCounts<T>(s: seq<T>)
    ensures Distinct(s) <==> forall x :: multiset(s)[x] <= 1
  {
    if s != [] {
      var n := |s| - 1;
      var front, y := s[..n], s[n];
      assert s == front + [y];
      DistinctCounts(front);
      if Distinct(s) {
        assert forall i :: 0 <= i < n ==> front[i] == s[i] != y;
        assert Distinct(front) && multiset(front)[y] == 0;
      } else {
        var i, j :| 0 <= i < j < |s| && s[i] == s[j];
        if j == n {
          assert front[i] == y && multiset(front)[y] > 0;
          assert multiset(s)[y] > 1;
        } else {
          assert front[i] == front[j];
          assert !Distinct(front);
          var x :| multiset(front)[x] > 1;
          assert multiset(s)[x] > 1;
        }
      }
    }
  }

  ghost predicate TargetsListed(cs: seq<Component>) {
    forall t :: t in AllTraits(cs) && t.properties.Link? ==> t.properties.link.target.name in Names(cs)
  }

  lemma NoMissingTargets(cs: seq<Component>)
    ensures (forall ts :: !CoreFault(cs, MissingTargets(ts))) <==> TargetsListed(cs)
  {
    var missing := set x | x in Targets(AllTraits(cs)) && x !in Names(cs);
    if forall ts :: !CoreFault(cs, MissingTargets(ts)) {
      assert !CoreFault(cs, MissingTargets(missing));
      forall t | t in AllTraits(cs) && t.properties.Link? ensures t.properties.link.target.name in Names(cs) {
        assert t.properties.link.target.name !in missing;
      }
    }
  }

  lemma NoDuplicates(cs: seq<Component>)
    ensures (forall n :: !CoreFault(cs, DuplicateName(n))) <==> Distinct(Names(cs))
    ensures (forall id :: !CoreFault(cs, DuplicateId(id))) <==> Distinct(ExplicitIds(cs))
  {
    DistinctCounts(Names(cs));
    DistinctCounts(ExplicitIds(cs));
    if forall n :: !CoreFault(cs, DuplicateName(n)) {
      forall n ensures multiset(Names(cs))[n] <= 1 { assert !CoreFault(cs, DuplicateName(n)); }
    }
    if forall id :: !CoreFault(cs, DuplicateId(id)) {
      forall id ensures multiset(ExplicitIds(cs))[id] <= 1 { assert !CoreFault(cs, DuplicateId(id)); }
    }
  }

  ghost predicate CoreClean(cs: seq<Component>) {
    && (forall n :: !CoreFault(cs, DuplicateName(n)))
    && (forall id :: !CoreFault(cs, DuplicateId(id)))
    && (forall ts :: !CoreFault(cs, MissingTargets(ts)))
  }

  lemma CoreCleanOf(cs: seq<Component>, f: Failure)
    requires CoreClean(cs)
    ensures !CoreFault(cs, f)
  {
    match f
    case DuplicateName(n) =>
    case DuplicateId(id) =>
    case MissingTargets(ts) =>
    case _ =>
  }

  lemma NoCoreFaultIffClean(cs: seq<Component>)
    ensures (forall f :: !CoreFault(cs, f)) <==> CoreClean(cs)
  {
    if CoreClean(cs) {
      forall f ensures !CoreFault(cs, f) { CoreCleanOf(cs, f); }
    }
  }

  lemma NoCoreFault(cs: seq<Component>)
    ensures (forall f :: !CoreFault(cs, f)) <==>
            (Distinct(Names(cs)) && Distinct(ExplicitIds(cs)) && TargetsListed(cs))
  {
    NoCoreFaultIffClean(cs);
    NoDuplicates(cs);
    NoMissingTargets(cs);
  }

  lemma NoOamFault(m: Manifest)
    ensures (forall f :: !OamFault(m, f)) <==> LabelsAllowed(m)
  {
    if forall f :: !OamFault(m, f) {
      forall k | k in m.labels ensures IsOamLabel(k) { assert !OamFault(m, BadLabel(k)); }
      forall k | k in m.annotations ensures IsOamLabel(k) { assert !OamFault(m, BadAnnotation(k)); }
    }
  }

  /** No error among the links, and no panic. */
  ghost predicate LinksPass(names: seq<string>, traits: seq<Trait>) {
    && !Panics(LinkTraits(traits))
    && forall f: Failure | f.IsError() :: !Dangling(names, LinkTraits(traits), f) && !CustomFault(traits, f)
  }

  lemma LinksPassIff(names: seq<string>, traits: seq<Trait>)
    ensures LinksPass(names, traits) <==>
            forall t :: t in traits ==> WellTyped(t)
  {
    var links := LinkTraits(traits);
    if LinksPass(names, traits) {
      forall t | t in traits
        ensures WellTyped(t)
      {
        if t.IsLink() { assert t in links; }
        if t.properties.Custom? {
          var f := if t.IsLink() then CustomLink(t.properties.target) else CustomScaler(t.properties.target);
          assert TraitFault(t, f) && !CustomFault(traits, f);
        }
      }
    }
  }

  lemma NoPropertiesFault(cs: seq<Component>)
    ensures (forall f :: !PropertiesFaults(cs, f)) <==> forall c :: c in cs ==> Located(c)
  {
    forall c ensures PropertiesFault(c) == None <==> Located(c) {
    }
    if forall f :: !PropertiesFaults(cs, f) {
      forall c | c in cs ensures Located(c) {
        if PropertiesFault(c).Some? {
          assert PropertiesFaults(cs, PropertiesFault(c).value);
        }
      }
    }
  }

  ghost predicate SecretsBacked(policies: map<string, Policy>, secrets: seq<SecretProperty>) {
    forall s :: s in secrets ==> HasBackend(policies, s)
  }

  lemma NoAnySecretFault(policies: map<string, Policy>, secrets: seq<SecretProperty>)
    ensures (forall f :: !AnySecretFault(policies, secrets, f)) <==> SecretsBacked(policies, secrets)
  {
    forall s ensures SecretFault(policies, s) == None <==> HasBackend(policies, s) {}
    if forall f :: !AnySecretFault(policies, secrets, f) {
      forall s | s in secrets ensures HasBackend(policies, s) {
        var fault := SecretFault(policies, s);
        assert fault == None || !AnySecretFault(policies, secrets, fault.value);
      }
    }
  }

  lemma NoSecretFault(policies: map<string, Policy>, cs: seq<Component>)
    ensures (forall f :: !SecretFaults(policies, cs, f)) <==>
            forall c :: c in cs ==> SecretsBacked(policies, c.Secrets())
  {
    forall c: Component { NoAnySecretFault(policies, c.Secrets()); }
    if forall f :: !SecretFaults(policies, cs, f) {
      forall c | c in cs ensures SecretsBacked(policies, c.Secrets()) {
        forall f ensures !AnySecretFault(policies, c.Secrets(), f) { assert !SecretFaults(policies, cs, f); }
      }
    }
  }

  lemma NoLinkFault(cs: seq<Component>)
    ensures (forall f :: !LinkFaults(cs, f)) <==> forall c :: c in cs ==> Distinct(LinkIds(LinkTraits(c.Traits())))
  {
    forall c: Component { DistinctCounts(LinkIds(LinkTraits(c.Traits()))); }
    if forall f :: !LinkFaults(cs, f) {
      forall c | c in cs ensures Distinct(LinkIds(LinkTraits(c.Traits()))) {
        forall id ensures multiset(LinkIds(LinkTraits(c.Traits())))[id] <= 1 {
          assert !LinkFaults(cs, DuplicateLink(c.name, id));
        }
      }
    }
  }

  lemma NoConfigFault(links: seq<Trait>)
    ensures (forall f :: !ConfigFaults(links, f)) <==> Distinct(LinkConfigs(links))
  {
    DistinctCounts(LinkConfigs(links));
    if forall f :: !ConfigFaults(links, f) {
      forall n ensures multiset(LinkConfigs(links))[n] <= 1 {
        assert !ConfigFaults(links, DuplicateConfigName(n));
      }
    }
  }

  /** The groups of checks that give errors only, but for the names of links and traits. */
  ghost predicate Strict(m: Manifest, f: Failure) {
    || OamFault(m, f)
    || CoreFault(m.components, f)
    || SecretFaults(PolicyLookup(m.policies), m.components, f)
    || PropertiesFaults(m.components, f)
    || LinkFaults(m.components, f)
    || ConfigFaults(Links(m), f)
  }

  lemma StrictIsError(m: Manifest, f: Failure)
    requires Strict(m, f)
    ensures f.IsError() && Fault(m, f)
  {}

  lemma ErrorIsStrict(m: Manifest, f: Failure)
    requires Fault(m, f) && f.IsError()
    ensures Strict(m, f) || Dangling(Names(m.components), Links(m), f) || CustomFault(AllTraits(m.components), f)
            || (f == BadName && !IsValidManifestName(m.name)) || (f == ReservedVersion && m.Version() == LATEST_VERSION)
  {}

  ghost predicate Accepted(m: Manifest) {
    && IsValidManifestName(m.name)
    && m.Version() != LATEST_VERSION
    && (forall f :: !Strict(m, f))
    && LinksPass(Names(m.components), AllTraits(m.components))
  }

  lemma ValidIffAccepted(m: Manifest)
    ensures Valid(m) <==> Accepted(m)
  {
    if Accepted(m) {
      forall f: Failure | f.IsError() ensures !Fault(m, f) {
        if Fault(m, f) { ErrorIsStrict(m, f); }
      }
    }
    if Valid(m) {
      assert !Fault(m, BadName) && !Fault(m, ReservedVersion);
      forall f ensures !Strict(m, f) {
        if Strict(m, f) { StrictIsError(m, f); }
      }
      assert forall f: Failure | f.IsError() :: !Fault(m, f);
    }
  }

  ghost predicate Silent(m: Manifest) {
    && (forall f :: !OamFault(m, f))
    && (forall f :: !CoreFault(m.components, f))
    && (forall f :: !SecretFaults(PolicyLookup(m.policies), m.components, f))
    && (forall f :: !PropertiesFaults(m.components, f))
    && (forall f :: !LinkFaults(m.components, f))
    && (forall f :: !ConfigFaults(Links(m), f))
  }

  lemma SilentHasNone(m: Manifest, f: Failure)
    requires Silent(m)
    ensures !Strict(m, f)
  {
    assert !OamFault(m, f);
    assert !CoreFault(m.components, f);
    assert !SecretFaults(PolicyLookup(m.policies), m.components, f);
    assert !PropertiesFaults(m.components, f);
    assert !LinkFaults(m.components, f);
    assert !ConfigFaults(Links(m), f);
  }

  lemma NoStrict(m: Manifest)
    ensures (forall f :: !Strict(m, f)) <==> Silent(m)
  {
    if Silent(m) {
      forall f ensures !Strict(m, f) { SilentHasNone(m, f); }
    }
    if forall f :: !Strict(m, f) {
      forall f ensures !OamFault(m, f) { assert !Strict(m, f); }
      forall f ensures !CoreFault(m.components, f) { assert !Strict(m, f); }
      forall f ensures !SecretFaults(PolicyLookup(m.policies), m.components, f) { assert !Strict(m, f); }
      forall f ensures !PropertiesFaults(m.components, f) { assert !Strict(m, f); }
      forall f ensures !LinkFaults(m.components, f) { assert !Strict(m, f); }
      forall f ensures !ConfigFaults(Links(m), f) { assert !Strict(m, f); }
    }
  }

  /** Validation passes exactly the well-formed manifests. */
  lemma ValidIffWellFormed(m: Manifest)
    ensures Valid(m) <==> WellFormed(m)
  {
    ValidIffAccepted(m);
    NoStrict(m);
    NoOamFault(m);
    NoCoreFault(m.components);
    LinksPassIff(Names(m.components), AllTraits(m.components));
    NoSecretFault(PolicyLookup(m.policies), m.components);
    NoPropertiesFault(m.components);
    NoLinkFault(m.components);
    NoConfigFault(Links(m));
  }

  /** A manifest of one component. */
  function Single(name: string, c: Component): Manifest {
    Manifest(name, map[], map[], [c], [])
  }

  lemma SingleLists(name: string, c: Component)
    ensures Names([c]) == [c.name] && AllTraits([c]) == c.Traits() && |ExplicitIds([c])| <= 1
    ensures Single(name, c).Version() == ""
  {
    assert [c][..0] == [];
  }

  /** Without links and secrets. */
  lemma SingleIsValid(name: string, c: Component)
    requires IsValidManifestName(name) && Located(c) && LinkTraits(c.Traits()) == [] && c.Secrets() == []
    requires forall t :: t in c.Traits() ==> WellTyped(t)
    requires forall t :: t in c.Traits() && t.properties.Link? ==> t.properties.link.target.name == c.name
    ensures Valid(Single(name, c))
  {
    var m := Single(name, c);
    SingleLists(name, c);
    assert LATEST_VERSION != "";
    assert Names([c])[0] == c.name;
    assert TargetsListed([c]);
    assert Links(m) == [] && LinkConfigs([]) == [] && LinkIds([]) == [];
    assert WellFormed(m);
    ValidIffWellFormed(m);
  }
}

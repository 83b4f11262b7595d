/** An application manifest, as the API and the scalers see it after parsing. */
module Manifests {
  import opened Wrappers
  import opened Spreads

  const VERSION_ANNOTATION_KEY := "version"
  const SHARED_ANNOTATION_KEY := "experimental.wasmcloud.dev/shared"
  const SPREADSCALER_TRAIT := "spreadscaler"
  const DAEMONSCALER_TRAIT := "daemonscaler"
  const LINK_TRAIT := "link"
  const LATEST_VERSION := "latest"
  const DEFAULT_LINK_NAME := "default"
  const SECRET_POLICY_TYPE := "policy.secret.wasmcloud.dev/v1alpha1"

  datatype ConfigProperty = ConfigProperty(name: string, properties: Option<map<string, string>>)

  datatype SecretProperty =
    SecretProperty(name: string, policy: string, key: string, field: Option<string>, version: Option<string>)

  datatype ConfigDefinition = ConfigDefinition(config: seq<ConfigProperty>, secrets: seq<SecretProperty>)

  datatype Target = Target(name: string, config: seq<ConfigProperty>, secrets: seq<SecretProperty>)

  datatype LinkProperty = LinkProperty(
    namespace: string,
    package: string,
    interfaces: seq<string>,
    source: Option<ConfigDefinition>,
    target: Target,
    name: Option<string>)
  {
    function SourceConfig(): seq<ConfigProperty> { if source.Some? then source.value.config else [] }
    function SourceSecrets(): seq<SecretProperty> { if source.Some? then source.value.secrets else [] }
    function LinkName(): string { name.GetOr(DEFAULT_LINK_NAME) }
  }

  /** What a custom trait's JSON says about a target: nothing, a target without a name, or a name. */
  datatype CustomTarget = Absent | Unnamed | Named(name: string)

  datatype TraitProperty =
    | Link(link: LinkProperty)
    | SpreadScaler(instances: nat, spread: seq<Spread>)
    | Custom(target: CustomTarget)

  datatype Trait = Trait(traitType: string, properties: TraitProperty) {
    predicate IsLink() { traitType == LINK_TRAIT }
    predicate IsScaler() { traitType == SPREADSCALER_TRAIT || traitType == DAEMONSCALER_TRAIT }
  }

  lemma TraitTypes()
    ensures LINK_TRAIT != SPREADSCALER_TRAIT && LINK_TRAIT != DAEMONSCALER_TRAIT
    ensures SPREADSCALER_TRAIT != DAEMONSCALER_TRAIT
  {
    assert |LINK_TRAIT| == 4 && SPREADSCALER_TRAIT[0] == 's' && DAEMONSCALER_TRAIT[0] == 'd';
  }

  datatype SharedComponent = SharedComponent(name: string, component: string)

  datatype ComponentType = WasmComponent | Capability

  datatype Component = Component(
    name: string,
    kind: ComponentType,
    image: Option<string>,
    application: Option<SharedComponent>,
    id: Option<string>,
    config: seq<ConfigProperty>,
    secrets: seq<SecretProperty>,
    traits: Option<seq<Trait>>)
  {
    function Traits(): seq<Trait> { traits.GetOr([]) }

    /** Every secret it uses: those of its links, then its own. */
    function Secrets(): seq<SecretProperty> { LinkSecrets(Traits()) + secrets }
  }

  datatype Policy = Policy(name: string, properties: map<string, string>, policyType: string)

  datatype Manifest = Manifest(
    name: string,
    annotations: map<string, string>,
    labels: map<string, string>,
    components: seq<Component>,
    policies: seq<Policy>)
  {
    function Version(): string {
      if VERSION_ANNOTATION_KEY in annotations then annotations[VERSION_ANNOTATION_KEY] else ""
    }

    predicate Shared() {
      SHARED_ANNOTATION_KEY in annotations && annotations[SHARED_ANNOTATION_KEY] == "true"
    }
  }

  function LinkSecrets(traits: seq<Trait>): seq<SecretProperty> {
    if traits == [] then []
    else
      var t := traits[|traits| - 1];
      LinkSecrets(traits[..|traits| - 1])
      + if t.properties.Link? then t.properties.link.target.secrets + t.properties.link.SourceSecrets() else []
  }

  function Names(cs: seq<Component>): (r: seq<string>)
    ensures |r| == |cs|
    ensures forall i :: 0 <= i < |cs| ==> r[i] == cs[i].name
  {
    if cs == [] then [] else Names(cs[..|cs| - 1]) + [cs[|cs| - 1].name]
  }

  /** The identifiers the manifest chooses itself, in order. */
  function ExplicitIds(cs: seq<Component>): seq<string> {
    if cs == [] then []
    else
      var id := cs[|cs| - 1].id;
      ExplicitIds(cs[..|cs| - 1]) + if id.Some? then [id.value] else []
  }

  function AllTraits(cs: seq<Component>): seq<Trait> {
    if cs == [] then [] else AllTraits(cs[..|cs| - 1]) + cs[|cs| - 1].Traits()
  }

  function LinkTraits(traits: seq<Trait>): (r: seq<Trait>)
    ensures forall t :: t in r <==> t in traits && t.IsLink()
  {
    if traits == [] then []
    else
      var t := traits[|traits| - 1];
      var front := LinkTraits(traits[..|traits| - 1]);
      assert traits == traits[..|traits| - 1] + [t];
      if t.IsLink() then front + [t] else front
  }

  function Links(m: Manifest): seq<Trait> {
    LinkTraits(AllTraits(m.components))
  }

  /** By name; of two policies with one name the later is used. */
  function PolicyLookup(policies: seq<Policy>): map<string, Policy> {
    if policies == [] then map[]
    else
      var p := policies[|policies| - 1];
      PolicyLookup(policies[..|policies| - 1])[p.name := p]
  }

  lemma {:induction false} TraitIn(cs: seq<Component>, t: Trait)
    ensures t in AllTraits(cs) <==> exists c :: c in cs && t in c.Traits()
  {
    if cs != [] {
      var front, c := cs[..|cs| - 1], cs[|cs| - 1];
      assert cs == front + [c];
      TraitIn(front, t);
    }
  }

  lemma {:induction false} IdIn(cs: seq<Component>, id: string)
    ensures id in ExplicitIds(cs) <==> exists c :: c in cs && c.id == Some(id)
  {
    if cs != [] {
      var front, c := cs[..|cs| - 1], cs[|cs| - 1];
      assert cs == front + [c];
      IdIn(front, id);
    }
  }

  lemma {:induction false} LinkSecretIn(traits: seq<Trait>, s: SecretProperty)
    ensures s in LinkSecrets(traits) <==>
            exists t :: t in traits && t.properties.Link? && (s in t.properties.link.target.secrets || s in t.properties.link.SourceSecrets())
  {
    if traits != [] {
      var front, t := traits[..|traits| - 1], traits[|traits| - 1];
      assert traits == front + [t];
      LinkSecretIn(front, s);
    }
  }
}

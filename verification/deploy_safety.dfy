/** What every sequence of API requests keeps. */
module DeploySafety {
  import opened Wrappers
  import opened Manifests
  import opened StoredManifests
  import opened Validation
  import opened Handlers
  import opened OamLabels
  import Validity
  import Conversion
  import ConversionCorrectness

  ghost predicate SoundEntry(name: string, e: (string, Manifest)) {
    && e.1.name == name
    && VERSION_ANNOTATION_KEY in e.1.annotations
    && e.1.annotations[VERSION_ANNOTATION_KEY] == e.0
    && e.0 != LATEST_VERSION
    && Valid(e.1)
  }

  ghost predicate DistinctVersions(ms: Versions) {
    forall i, j :: 0 <= i < j < |ms| ==> ms[i].0 != ms[j].0
  }

  ghost predicate SoundHistory(name: string, h: History) {
    && h.manifests != []
    && DistinctVersions(h.manifests)
    && (forall i :: 0 <= i < |h.manifests| ==> SoundEntry(name, h.manifests[i]))
    && (h.deployed.Some? ==> Has(h.manifests, h.deployed.value))
  }

  ghost predicate Sound(store: Store) {
    forall n :: n in store ==> SoundHistory(n, store[n])
  }

  /** The identifiers that the deployed version of an application chooses. */
  function DeployedIds(h: History): set<string> {
    if h.DeployedManifest().None? then {} else IdSet(ExplicitIds(h.DeployedManifest().value.components))
  }

  ghost predicate DisjointIds(store: Store) {
    forall a, b :: a in store && b in store && a != b ==> DeployedIds(store[a]) !! DeployedIds(store[b])
  }

  ghost predicate Safe(store: Store) {
    Sound(store) && DisjointIds(store)
  }

  // ---------- histories ----------

  lemma {:induction false} FindAt(ms: Versions, i: nat)
    requires DistinctVersions(ms) && i < |ms|
    ensures Find(ms, ms[i].0) == Some(ms[i].1)
  {
    if i > 0 {
      assert ms[0].0 != ms[i].0;
      assert ms[1..][i - 1] == ms[i];
      FindAt(ms[1..], i - 1);
    }
  }

  /** Replacing one sound history by another that deploys nothing new. */
  lemma Replace(store: Store, n: string, h: History)
    requires Safe(store) && SoundHistory(n, h)
    requires DeployedIds(h) == {} || (n in store && DeployedIds(h) == DeployedIds(store[n]))
    ensures Safe(store[n := h])
  {}

  lemma Remove(store: Store, n: string)
    requires Safe(store)
    ensures Safe(store - {n})
  {}

  lemma SameParts(m: Manifest, ulid: string)
    ensures var v := Versioned(m, ulid).1;
            && v.name == m.name && v.labels == m.labels && v.components == m.components && v.policies == m.policies
            && v.annotations.Keys == m.annotations.Keys + {VERSION_ANNOTATION_KEY}
            && v.Version() == Versioned(m, ulid).0
  {}

  /** The stored manifest differs from the request's in at most the version annotation. */
  lemma ValidVersioned(m: Manifest, ulid: string)
    requires Valid(m) && |ulid| == 26
    ensures Valid(Versioned(m, ulid).1)
    ensures Versioned(m, ulid).0 != LATEST_VERSION
  {
    var v := Versioned(m, ulid).1;
    assert |LATEST_VERSION| == 6;
    Validity.ValidIffWellFormed(m);
    SameParts(m, ulid);
    VersionIsLabel();
    Validity.ValidIffWellFormed(v);
  }

  lemma FindAppended(ms: Versions, e: (string, Manifest), version: string)
    requires Has(ms, version) && DistinctVersions(ms + [e])
    ensures Find(ms + [e], version) == Find(ms, version)
  {
    var i :| 0 <= i < |ms| && ms[i].0 == version;
    forall j, k | 0 <= j < k < |ms| ensures ms[j].0 != ms[k].0 {
      assert (ms + [e])[j].0 != (ms + [e])[k].0;
    }
    FindAt(ms, i);
    FindAt(ms + [e], i);
  }

  lemma SplitHas(ms: Versions, i: nat, rest: Versions)
    requires DistinctVersions(ms) && i < |ms| && rest == ms[..i] + ms[i + 1..]
    ensures DistinctVersions(rest)
    ensures forall e :: e in rest <==> e in ms && e.0 != ms[i].0
  {
    assert forall j :: 0 <= j < |rest| ==> rest[j] == ms[if j < i then j else j + 1];
    forall e | e in ms && e.0 != ms[i].0 ensures e in rest {
      var j :| 0 <= j < |ms| && ms[j] == e;
      assert rest[if j < i then j else j - 1] == e;
    }
  }

  lemma WithoutHas(ms: Versions, version: string)
    requires DistinctVersions(ms)
    ensures DistinctVersions(Without(ms, version))
    ensures forall e :: e in Without(ms, version) <==> e in ms && e.0 != version
  {
    if Has(ms, version) {
      var i :| 0 <= i < |ms| && ms[i].0 == version;
      WithoutAt(ms, i);
      SplitHas(ms, i, Without(ms, version));
    } else {
      WithoutAbsent(ms, version);
    }
  }

  lemma FindWithout(ms: Versions, gone: string, version: string)
    requires DistinctVersions(ms) && Has(ms, version) && version != gone
    ensures Has(Without(ms, gone), version) && Find(Without(ms, gone), version) == Find(ms, version)
  {
    WithoutHas(ms, gone);
    var i :| 0 <= i < |ms| && ms[i].0 == version;
    FindAt(ms, i);
    assert ms[i] in Without(ms, gone);
    var j :| 0 <= j < |Without(ms, gone)| && Without(ms, gone)[j] == ms[i];
    FindAt(Without(ms, gone), j);
  }

  lemma AppendKeeps(name: string, h: History, e: (string, Manifest))
    requires h == EMPTY || SoundHistory(name, h)
    requires SoundEntry(name, e) && !Has(h.manifests, e.0)
    ensures SoundHistory(name, History(h.manifests + [e], h.deployed))
    ensures DeployedIds(History(h.manifests + [e], h.deployed)) == DeployedIds(h)
  {
    var ms := h.manifests + [e];
    assert forall i :: 0 <= i < |h.manifests| ==> ms[i] == h.manifests[i] && ms[i].0 != e.0;
    if h.deployed.Some? { FindAppended(h.manifests, e, h.deployed.value); }
  }

  /** What is left of a history when the deployed version is undeployed as it goes. */
  function Shortened(h: History, version: string): History {
    History(Without(h.manifests, version), if h.deployed == Some(version) then None else h.deployed)
  }

  lemma ShortenKeeps(name: string, h: History, version: string)
    requires SoundHistory(name, h) && Without(h.manifests, version) != []
    ensures SoundHistory(name, Shortened(h, version))
    ensures DeployedIds(Shortened(h, version)) == {} || DeployedIds(Shortened(h, version)) == DeployedIds(h)
  {
    WithoutHas(h.manifests, version);
    var after := Shortened(h, version);
    if after.deployed.Some? { FindWithout(h.manifests, version, after.deployed.value); }
    assert forall i :: 0 <= i < |after.manifests| ==> after.manifests[i] in h.manifests;
  }

  // ---------- the requests ----------

  lemma PutStores(store: Store, m: Manifest, ulid: string)
    requires AfterPut(store, m, ulid).reply.Stored? && |ulid| == 26
    ensures Trim(m.name) == m.name && SoundEntry(m.name, Versioned(m, ulid))
    ensures !Has(HistoryOf(store, m.name).manifests, Versioned(m, ulid).0)
  {
    assert Valid(m);
    ValidVersioned(m, ulid);
    assert !Fault(m, BadName);
    ValidNameIsTrimmed(m.name);
  }

  lemma PutKeeps(store: Store, m: Manifest, ulid: string)
    requires Safe(store) && |ulid| == 26
    ensures Safe(AfterPut(store, m, ulid).store)
  {
    if AfterPut(store, m, ulid).reply.Stored? {
      PutStores(store, m, ulid);
      var h, e := HistoryOf(store, m.name), Versioned(m, ulid);
      AppendKeeps(m.name, h, e);
      Replace(store, m.name, History(h.manifests + [e], h.deployed));
    }
  }

  lemma DeleteKeeps(store: Store, name: string, version: Option<string>)
    requires Safe(store)
    ensures Safe(AfterDelete(store, name, version).store)
  {
    Remove(store, name);
    if name in store && version.Some? && Without(store[name].manifests, version.value) != [] {
      var after := Shortened(store[name], version.value);
      ShortenKeeps(name, store[name], version.value);
      assert SoundEntry(name, after.manifests[|after.manifests| - 1]);
      Replace(store, name, after);
    }
  }

  lemma UndeployKeeps(store: Store, name: string)
    requires Safe(store)
    ensures Safe(AfterUndeploy(store, name).store) && !AfterUndeploy(store, name).reply.Panicked?
  {
    if name in store {
      assert SoundHistory(name, store[name]);
      Replace(store, name, History(store[name].manifests, None));
    }
  }

  lemma NoBreak(store: Store)
    requires Sound(store)
    ensures !Breaks(store)
    ensures forall n :: n in store ==> Refetched(store, n) == Some(store[n])
  {
    forall n | n in store ensures Refetched(store, n) == Some(store[n]) {
      assert SoundHistory(n, store[n]);
    }
  }

  lemma HeldIsDeployed(store: Store, n: string, name: string)
    requires Sound(store) && n in store
    ensures HeldIds(store, n, name) == if n == name then {} else DeployedIds(store[n])
  {
    NoBreak(store);
    assert SoundHistory(n, store[n]);
  }

  lemma {:induction false} NoneTaken(store: Store, name: string, ids: seq<string>)
    requires FirstTaken(store, name, ids) == None
    ensures forall id :: id in ids ==> !Taken(store, name, id)
  {
    if ids != [] { NoneTaken(store, name, ids[1..]); }
  }

  lemma StagedIsFound(ms: Versions, version: Option<string>)
    requires ms != [] && DistinctVersions(ms)
    ensures Staged(ms, version) == Find(ms, Requested(ms, version))
  {
    FindAt(ms, |ms| - 1);
  }

  lemma DeployDisjoint(store: Store, name: string, h: History)
    requires Safe(store) && SoundHistory(name, h)
    requires forall id :: id in DeployedIds(h) ==> !Taken(store, name, id)
    ensures Safe(store[name := h])
  {
    forall n | n in store && n != name ensures DeployedIds(store[n]) !! DeployedIds(h) {
      HeldIsDeployed(store, n, name);
      assert forall id :: id in DeployedIds(store[n]) ==> Taken(store, name, id);
    }
  }

  /** The history with the requested version deployed. */
  function Deploying(h: History, version: Option<string>): History {
    History(h.manifests, Some(Requested(h.manifests, version)))
  }

  lemma DeployFinds(store: Store, name: string, version: Option<string>)
    requires Sound(store) && name in store
    ensures var ms := store[name].manifests;
            && ms != [] && KeyOf(ms) == name && Staged(ms, version) == Find(ms, Requested(ms, version))
            && !Breaks(store)
  {
    NoBreak(store);
    var ms := store[name].manifests;
    assert SoundHistory(name, store[name]) && SoundEntry(name, ms[|ms| - 1]);
    StagedIsFound(ms, version);
  }

  /** A deploy is refused and changes nothing, or changes just what is deployed. */
  lemma DeployChanges(store: Store, name: string, version: Option<string>)
    requires Sound(store) && name in store
    ensures var out := AfterDeploy(store, name, version);
            && !out.reply.Panicked?
            && out.store == (if out.reply.NowDeployed? then store[name := Deploying(store[name], version)] else store)
            && (out.reply.NowDeployed? ==> Has(store[name].manifests, Requested(store[name].manifests, version)))
  {
    DeployFinds(store, name, version);
    DeployForm(store, name, version);
  }

  lemma DeployForm(store: Store, name: string, version: Option<string>)
    requires name in store && store[name].manifests != [] && KeyOf(store[name].manifests) == name && !Breaks(store)
    requires Staged(store[name].manifests, version) == Find(store[name].manifests, Requested(store[name].manifests, version))
    ensures var out := AfterDeploy(store, name, version);
            && !out.reply.Panicked?
            && out.store == (if out.reply.NowDeployed? then store[name := Deploying(store[name], version)] else store)
            && (out.reply.NowDeployed? ==> Has(store[name].manifests, Requested(store[name].manifests, version)))
  {}

  /** What is deployed has no taken identifiers. */
  lemma DeployOutcome(store: Store, name: string, version: Option<string>)
    requires Sound(store) && name in store && AfterDeploy(store, name, version).reply.NowDeployed?
    ensures forall id :: id in DeployedIds(Deploying(store[name], version)) ==> !Taken(store, name, id)
  {
    var ms := store[name].manifests;
    assert SoundHistory(name, store[name]);
    StagedIsFound(ms, version);
    NoneTaken(store, name, ExplicitIds(Staged(ms, version).value.components));
  }

  lemma DeployKeeps(store: Store, name: string, version: Option<string>)
    requires Safe(store)
    ensures Safe(AfterDeploy(store, name, version).store) && !AfterDeploy(store, name, version).reply.Panicked?
  {
    if name in store {
      DeployChanges(store, name, version);
      if AfterDeploy(store, name, version).reply.NowDeployed? {
        assert SoundHistory(name, store[name]);
        DeployOutcome(store, name, version);
        DeployDisjoint(store, name, Deploying(store[name], version));
      }
    }
  }

  lemma StepKeeps(store: Store, r: Request)
    requires Safe(store) && r.WellTyped()
    ensures Safe(Step(store, r).store)
  {
    match r
    case Put(m, ulid) => PutKeeps(store, m, ulid);
    case Delete(name, version) => DeleteKeeps(store, name, version);
    case Deploy(name, version) => DeployKeeps(store, name, version);
    case Undeploy(name) => UndeployKeeps(store, name);
  }

  /** In a safe store the only request that panics is a put: one that gets as far as validation with a
      trait of type link whose properties were parsed as a scaler's. */
  lemma PanicIff(store: Store, r: Request)
    requires Safe(store) && r.WellTyped()
    ensures Step(store, r).reply.Panicked? <==>
            (r.Put? && r.manifest.Version() != LATEST_VERSION && IsValidManifestName(Trim(r.manifest.name))
             && exists t :: t in AllTraits(r.manifest.components) && t.IsLink() && t.properties.SpreadScaler?)
  {
    match r
    case Put(m, ulid) =>
    case Delete(name, version) =>
    case Deploy(name, version) => DeployKeeps(store, name, version);
    case Undeploy(name) => UndeployKeeps(store, name);
  }

  /** As on a put, into an empty store, of one component with such a trait. */
  lemma PutPanics(ulid: string) returns (m: Manifest)
    requires |ulid| == 26
    ensures Step(map[], Put(m, ulid)).reply.Panicked?
  {
    var t := Trait(LINK_TRAIT, SpreadScaler(1, []));
    m := Validity.Single("app", Component("c", WasmComponent, Some("image"), None, None, [], [], Some([t])));
    Validity.SingleLists("app", m.components[0]);
    assert t in AllTraits(m.components) && LATEST_VERSION != "";
    assert IsValidManifestName("app");
    ValidNameIsTrimmed("app");
    PanicIff(map[], Put(m, ulid));
  }

  // ---------- whole runs ----------

  ghost function Run(store: Store, rs: seq<Request>): Store {
    if rs == [] then store else Step(Run(store, rs[..|rs| - 1]), rs[|rs| - 1]).store
  }

  lemma RunSnoc(store: Store, rs: seq<Request>, r: Request)
    ensures Run(store, []) == store && Run(store, rs + [r]) == Step(Run(store, rs), r).store
  {
    assert (rs + [r])[..|rs|] == rs;
  }

  /** Deploy safety: after any requests, histories are sound and distinct deployed applications choose
      distinct identifiers. */
  lemma {:induction false} RunIsSafe(rs: seq<Request>)
    requires forall i :: 0 <= i < |rs| ==> rs[i].WellTyped()
    ensures Safe(Run(map[], rs))
  {
    if rs != [] {
      RunIsSafe(rs[..|rs| - 1]);
      StepKeeps(Run(map[], rs[..|rs| - 1]), rs[|rs| - 1]);
    }
  }

  lemma DeployedIsThere(name: string, h: History)
    requires SoundHistory(name, h) && h.deployed.Some?
    ensures var m := h.DeployedManifest();
            m.Some? && m.value.name == name && m.value.Version() == h.deployed.value && Valid(m.value)
  {
    var i :| 0 <= i < |h.manifests| && h.manifests[i].0 == h.deployed.value;
    FindAt(h.manifests, i);
    assert SoundEntry(name, h.manifests[i]);
  }

  /** A deployed application is really there, and its manifest converts to scalers without a panic and
      without placeholders. */
  lemma DeployedConverts(rs: seq<Request>, name: string)
    requires forall i :: 0 <= i < |rs| ==> rs[i].WellTyped()
    requires name in Run(map[], rs) && Run(map[], rs)[name].deployed.Some?
    ensures var m := Run(map[], rs)[name].DeployedManifest();
            m.Some? && m.value.name == name && m.value.Version() == Run(map[], rs)[name].deployed.value
            && Conversion.Convert(m.value).Some?
            && forall s :: s in Conversion.Convert(m.value).value ==> s.Wrapped?
  {
    RunIsSafe(rs);
    var h := Run(map[], rs)[name];
    DeployedIsThere(name, h);
    ConversionCorrectness.ValidConverts(h.DeployedManifest().value);
  }

  /** Undeploying what was just deployed leaves the history deployed nowhere, with the same versions. */
  lemma UndeployUndoesDeploy(store: Store, name: string, version: Option<string>)
    requires Safe(store) && name in store && store[name].deployed == None
    requires AfterDeploy(store, name, version).reply.NowDeployed?
    ensures AfterUndeploy(AfterDeploy(store, name, version).store, name).store == store
  {
    DeployChanges(store, name, version);
    UndeployOf(store, name, Deploying(store[name], version));
  }

  lemma UndeployOf(store: Store, name: string, h: History)
    requires Safe(store) && name in store && store[name].deployed == None
    requires h.manifests == store[name].manifests && h.deployed.Some?
    ensures AfterUndeploy(store[name := h], name).store == store
  {
    assert SoundHistory(name, store[name]) && SoundEntry(name, h.manifests[|h.manifests| - 1]);
    assert store[name] == History(h.manifests, None);
    assert store[name := h][name := store[name]] == store;
  }

  lemma DeleteNewest(store: Store, name: string, h: History, e: (string, Manifest))
    requires h == HistoryOf(store, name) && (name in store ==> SoundHistory(name, h)) && !Has(h.manifests, e.0)
    ensures AfterDelete(store[name := History(h.manifests + [e], h.deployed)], name, Some(e.0)).store == store
  {
    AppendThenWithout(h.manifests, e);
    var put := store[name := History(h.manifests + [e], h.deployed)];
    if name in store {
      assert SoundEntry(name, h.manifests[|h.manifests| - 1]);
      assert h.deployed != Some(e.0);
      assert put[name := h] == store;
    } else {
      assert put - {name} == store;
    }
  }

  /** Deleting the version that a put added gives back the store before the put. */
  lemma DeleteUndoesPut(store: Store, m: Manifest, ulid: string)
    requires Safe(store) && |ulid| == 26 && AfterPut(store, m, ulid).reply.Stored?
    ensures AfterDelete(AfterPut(store, m, ulid).store, m.name, Some(Versioned(m, ulid).0)).store == store
  {
    PutStores(store, m, ulid);
    DeleteNewest(store, m.name, HistoryOf(store, m.name), Versioned(m, ulid));
  }

  lemma AppendThenWithout(ms: Versions, e: (string, Manifest))
    requires !Has(ms, e.0)
    ensures Has(ms + [e], e.0) && Without(ms + [e], e.0) == ms
  {
    assert (ms + [e])[|ms|] == e;
    assert forall j :: 0 <= j < |ms| ==> (ms + [e])[j].0 != e.0;
    WithoutAt(ms + [e], |ms|);
  }
}

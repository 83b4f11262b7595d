/** The API requests that change the stored applications of a lattice. */
module Handlers {
  import opened Wrappers
  import opened Manifests
  import opened StoredManifests
  import opened Validation

  /** Histories by application name. */
  type Store = map<string, History>

  datatype Request =
    | Put(manifest: Manifest, ulid: string)
    | Delete(name: string, version: Option<string>)
    | Deploy(name: string, version: Option<string>)
    | Undeploy(name: string)
  {
    /** A new version string, when one is needed, is a ULID: 26 characters. */
    predicate WellTyped() { Put? ==> |ulid| == 26 }
  }

  datatype Reply =
    | Panicked
    | Refused
    | VersionExists
    | Stored(current: string, created: bool, total: nat)
    | NotFound
    | NoSuchVersion
    | IdInUse(id: string)
    | SharedMissing
    | NowDeployed(version: string)
    | NowUndeployed(was: bool)
    | Deleted(undeploy: bool)
    | Noop

  datatype Outcome = Outcome(store: Store, reply: Reply)

  // ---------- put ----------

  predicate IsWhitespace(c: char) {
    9 <= c as int <= 13 || c as int in {0x20, 0x85, 0xA0, 0x1680, 0x2028, 0x2029, 0x202F, 0x205F, 0x3000}
    || 0x2000 <= c as int <= 0x200A
  }

  function TrimStart(s: string): string {
    if s != "" && IsWhitespace(s[0]) then TrimStart(s[1..]) else s
  }

  function TrimEnd(s: string): string {
    if s != "" && IsWhitespace(s[|s| - 1]) then TrimEnd(s[..|s| - 1]) else s
  }

  function Trim(s: string): string {
    TrimEnd(TrimStart(s))
  }

  /** A name that passes validation has nothing to trim, so it is read and written under one key. */
  lemma ValidNameIsTrimmed(name: string)
    requires IsValidManifestName(name)
    ensures Trim(name) == name
  {
    assert IsNameChar(name[0]) && IsNameChar(name[|name| - 1]);
  }

  function HistoryOf(store: Store, name: string): History {
    if name in store then store[name] else EMPTY
  }

  ghost function AfterPut(store: Store, m: Manifest, ulid: string): Outcome {
    if m.Version() == LATEST_VERSION || !IsValidManifestName(Trim(m.name)) then Outcome(store, Refused)
    else if Panics(Links(m)) then Outcome(store, Panicked)
    else if !Passes(m) then Outcome(store, Refused)
    else
      var h := HistoryOf(store, Trim(m.name));
      var entry := Versioned(m, ulid);
      if Has(h.manifests, entry.0) then Outcome(store, VersionExists)
      else
        Outcome(
          store[m.name := History(h.manifests + [entry], h.deployed)],
          Stored(entry.0, h.manifests == [], |h.manifests| + 1))
  }

  ghost predicate Passes(m: Manifest) {
    forall f: Failure :: f.IsError() ==> !Fault(m, f)
  }

  // ---------- delete and undeploy ----------

  /** The application a history is written back under: the name its newest version has. */
  function KeyOf(ms: Versions): string
    requires ms != []
  {
    ms[|ms| - 1].1.name
  }

  function AfterDelete(store: Store, name: string, version: Option<string>): Outcome {
    if name !in store then Outcome(store, Noop)
    else if version == None then Outcome(store - {name}, Deleted(true))
    else
      var h := store[name];
      var rest := Without(h.manifests, version.value);
      if !Has(h.manifests, version.value) then Outcome(store, Noop)
      else if rest == [] then Outcome(store - {name}, Deleted(true))
      else
        var undeploy := h.deployed == version;
        Outcome(store[KeyOf(rest) := History(rest, if undeploy then None else h.deployed)], Deleted(undeploy))
  }

  function AfterUndeploy(store: Store, name: string): Outcome {
    if name !in store then Outcome(store, NotFound)
    else
      var h := store[name];
      if h.deployed == None then Outcome(store, NowUndeployed(false))
      else if h.manifests == [] then Outcome(store, Panicked)
      else Outcome(store[KeyOf(h.manifests) := History(h.manifests, None)], NowUndeployed(true))
  }

  // ---------- deploy ----------

  /** The history read again under the name that the listed one goes by. */
  function Refetched(store: Store, n: string): Option<History>
    requires n in store
  {
    var ms := store[n].manifests;
    if ms != [] && KeyOf(ms) in store && store[KeyOf(ms)].manifests != [] then Some(store[KeyOf(ms)]) else None
  }

  /** Asking some deployed application for its name panics. */
  ghost predicate Breaks(store: Store) {
    exists n :: n in store && store[n].deployed.Some? && Refetched(store, n).None?
  }

  function IdSet(ids: seq<string>): set<string> {
    set x | x in ids
  }

  /** The identifiers that one stored application holds against the application called name. */
  function HeldIds(store: Store, n: string, name: string): set<string>
    requires n in store
  {
    var other := if store[n].deployed.Some? then Refetched(store, n) else None;
    if other.None? || KeyOf(other.value.manifests) == name || other.value.DeployedManifest().None? then {}
    else IdSet(ExplicitIds(other.value.DeployedManifest().value.components))
  }

  ghost predicate Taken(store: Store, name: string, id: string) {
    exists n :: n in store && id in HeldIds(store, n, name)
  }

  ghost function FirstTaken(store: Store, name: string, ids: seq<string>): Option<string> {
    if ids == [] then None else if Taken(store, name, ids[0]) then Some(ids[0]) else FirstTaken(store, name, ids[1..])
  }

  predicate Offers(h: History, app: SharedComponent, kind: ComponentType) {
    && h.deployed.Some? && h.manifests != []
    && var current := h.manifests[|h.manifests| - 1].1;
       current.Shared() && current.name == app.name
       && exists d :: d in current.components && d.name == app.component && d.kind == kind
  }

  predicate Missing(store: Store, c: Component) {
    c.image.None? && c.application.Some? && forall n :: n in store ==> !Offers(store[n], c.application.value, c.kind)
  }

  predicate AnyMissing(store: Store, cs: seq<Component>) {
    exists c :: c in cs && Missing(store, c)
  }

  function Staged(ms: Versions, version: Option<string>): Option<Manifest>
    requires ms != []
  {
    if version == None || version == Some(LATEST_VERSION) then Some(ms[|ms| - 1].1) else Find(ms, version.value)
  }

  ghost function AfterDeploy(store: Store, name: string, version: Option<string>): Outcome {
    if name !in store then Outcome(store, NotFound)
    else
      var ms := store[name].manifests;
      var staged := if ms == [] then None else Staged(ms, version);
      if ms == [] && (version == None || version == Some(LATEST_VERSION)) then Outcome(store, Panicked)
      else if staged.None? then Outcome(store, NoSuchVersion)
      else if Breaks(store) then Outcome(store, Panicked)
      else
        var taken := FirstTaken(store, name, ExplicitIds(staged.value.components));
        if taken.Some? then Outcome(store, IdInUse(taken.value))
        else if AnyMissing(store, staged.value.components) then Outcome(store, SharedMissing)
        else
          var v := Requested(ms, version);
          if Find(ms, v).None? then Outcome(store, Panicked)
          else Outcome(store[KeyOf(ms) := History(ms, Some(v))], NowDeployed(Find(ms, v).value.Version()))
  }

  ghost function Step(store: Store, r: Request): Outcome {
    match r
    case Put(m, ulid) => AfterPut(store, m, ulid)
    case Delete(name, version) => AfterDelete(store, name, version)
    case Deploy(name, version) => AfterDeploy(store, name, version)
    case Undeploy(name) => AfterUndeploy(store, name)
  }

  // ---------- the four handlers, over a store that they update ----------

  class Handler {
    var store: Store

    constructor ()
      ensures store == map[]
    {
      store := map[];
    }

    method PutModel(m: Manifest, ulid: string) returns (reply: Reply)
      modifies this
      ensures Outcome(store, reply) == AfterPut(old(store), m, ulid)
    {
      if m.Version() == LATEST_VERSION { return Refused; }
      var name := Trim(m.name);
      if !IsValidManifestName(name) { return Refused; }
      var current := new StoredManifest(HistoryOf(store, name));
      var failures := ValidateManifest(m);
      if failures.None? { return Panicked; }
      for i := 0 to |failures.value|
        invariant forall j :: 0 <= j < i ==> !failures.value[j].IsError()
        invariant store == old(store) && current.Value() == HistoryOf(store, name)
      {
        if failures.value[i].IsError() {
          assert failures.value[i] in failures.value;
          return Refused;
        }
      }
      var added := current.AddVersion(m, ulid);
      if !added { return VersionExists; }
      assert !Fault(m, BadName);
      reply := Stored(CurrentVersion(current.manifests), |current.manifests| == 1, |current.manifests|);
      store := store[KeyOf(current.manifests) := current.Value()];
    }

    method DeleteModel(name: string, version: Option<string>) returns (reply: Reply)
      modifies this
      ensures Outcome(store, reply) == AfterDelete(old(store), name, version)
    {
      if name !in store { return Noop; }
      var current := new StoredManifest(store[name]);
      if version == None {
        store := store - {name};
        return Deleted(true);
      }
      var deleted := current.DeleteVersion(version.value);
      if deleted && current.manifests != [] {
        var undeploy := current.deployedVersion == version;
        if undeploy {
          var _ := current.Undeploy();
        }
        store := store[KeyOf(current.manifests) := current.Value()];
        return Deleted(undeploy);
      } else if deleted {
        store := store - {name};
        return Deleted(true);
      }
      return Noop;
    }

    method UndeployModel(name: string) returns (reply: Reply)
      modifies this
      ensures Outcome(store, reply) == AfterUndeploy(old(store), name)
    {
      if name !in store { return NotFound; }
      var manifests := new StoredManifest(store[name]);
      var was := manifests.Undeploy();
      if was {
        if manifests.manifests == [] { return Panicked; }
        store := store[KeyOf(manifests.manifests) := manifests.Value()];
      }
      return NowUndeployed(was);
    }

    /** The identifiers in use, each with an application that uses it; None is a panic. */
    method ExistingIds(name: string) returns (existing: Option<map<string, string>>)
      ensures existing.None? <==> Breaks(store)
      ensures existing.Some? ==> forall id :: id in existing.value <==> Taken(store, name, id)
    {
      var ids: map<string, string> := map[];
      var todo := store.Keys;
      while todo != {}
        invariant todo <= store.Keys
        invariant forall n :: n in store && n !in todo && store[n].deployed.Some? ==> Refetched(store, n).Some?
        invariant forall id :: id in ids <==> exists n :: n in store && n !in todo && id in HeldIds(store, n, name)
      {
        var n :| n in todo;
        todo := todo - {n};
        if store[n].deployed.Some? {
          var stored := Refetched(store, n);
          if stored.None? { return None; }
          var deployed := stored.value.DeployedManifest();
          if KeyOf(stored.value.manifests) != name && deployed.Some? {
            var held := IdSet(Manifests.ExplicitIds(deployed.value.components));
            ids := ids + map id | id in held :: KeyOf(stored.value.manifests);
          }
        }
      }
      return Some(ids);
    }

    method DeployModel(name: string, version: Option<string>) returns (reply: Reply)
      modifies this
      ensures Outcome(store, reply) == AfterDeploy(old(store), name, version)
    {
      if name !in store { return NotFound; }
      var manifests := new StoredManifest(store[name]);
      var ms := manifests.manifests;
      if ms == [] {
        if version == None || version == Some(LATEST_VERSION) { return Panicked; }
        return NoSuchVersion;
      }
      var staged := Staged(ms, version);
      if staged.None? { return NoSuchVersion; }
      var existing := ExistingIds(name);
      if existing.None? { return Panicked; }
      var ids := Manifests.ExplicitIds(staged.value.components);
      for i := 0 to |ids|
        invariant FirstTaken(store, name, ids[i..]) == FirstTaken(store, name, ids)
        invariant store == old(store) && manifests.Value() == store[name]
      {
        if ids[i] in existing.value { return IdInUse(ids[i]); }
      }
      if AnyMissing(store, staged.value.components) { return SharedMissing; }
      var ok := manifests.Deploy(version);
      if !ok { return NoSuchVersion; }
      var manifest := Find(manifests.manifests, manifests.deployedVersion.value);
      if manifest.None? { return Panicked; }
      store := store[KeyOf(ms) := manifests.Value()];
      return NowDeployed(manifest.value.Version());
    }
  }
}

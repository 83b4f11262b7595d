/** What each request replies and stores, said of the stored versions and their manifests. */
module ApiReplies {
  import opened Wrappers
  import opened Manifests
  import opened StoredManifests
  import opened Validation
  import opened Handlers
  import opened DeploySafety
  import Validity

  // ---------- put ----------

  /** A manifest that passes validation goes behind the versions that are there, under its own version or the
      fresh one. */
  lemma PutReplies(store: Store, m: Manifest, ulid: string)
    requires Safe(store) && |ulid| == 26 && Valid(m)
    ensures var v := if "version" in m.annotations then m.annotations["version"] else ulid;
      var out, before := Step(store, Put(m, ulid)), if m.name in store then store[m.name].manifests else [];
      if exists i :: 0 <= i < |before| && before[i].0 == v then out == Outcome(store, VersionExists)
      else
        && out.reply == Stored(v, m.name !in store, |before| + 1)
        && out.store == store[m.name := History(before + [(v, m.(annotations := m.annotations["version" := v]))],
                                                if m.name in store then store[m.name].deployed else None)]
  {
    PutOfValid(store, m, ulid);
    if "version" in m.annotations {
      assert m.annotations["version" := m.annotations["version"]] == m.annotations;
    }
    if m.name in store { assert SoundHistory(m.name, store[m.name]); }
  }

  lemma PutOfValid(store: Store, m: Manifest, ulid: string)
    requires Valid(m)
    ensures var h, entry := HistoryOf(store, m.name), Versioned(m, ulid);
      Step(store, Put(m, ulid)) ==
      if Has(h.manifests, entry.0) then Outcome(store, VersionExists)
      else Outcome(store[m.name := History(h.manifests + [entry], h.deployed)], Stored(entry.0, h.manifests == [], |h.manifests| + 1))
  {
    NameOfValid(m);
    assert Passes(m);
  }

  lemma NameOfValid(m: Manifest)
    requires Valid(m)
    ensures m.Version() != LATEST_VERSION && IsValidManifestName(m.name) && Trim(m.name) == m.name
  {
    Validity.ValidIffWellFormed(m);
    ValidNameIsTrimmed(m.name);
  }

  /** Any other is refused, unless it makes validation panic, and nothing is stored. */
  lemma PutRefuses(store: Store, m: Manifest, ulid: string)
    requires Safe(store) && |ulid| == 26 && !Valid(m)
    ensures Step(store, Put(m, ulid)).store == store
    ensures Step(store, Put(m, ulid)).reply.Refused? || Step(store, Put(m, ulid)).reply.Panicked?
  {
  }

  predicate Blank(c: char) {
    c == ' ' || c == '\t' || c == '\n' || c == '\r'
  }

  lemma {:induction false} TrimsStart(before: string, s: string)
    requires (forall i :: 0 <= i < |before| ==> Blank(before[i])) && s != "" && IsNameChar(s[0])
    ensures TrimStart(before + s) == s
  {
    if before != "" {
      assert (before + s)[0] == before[0] && (before + s)[1..] == before[1..] + s;
      TrimsStart(before[1..], s);
    } else {
      assert before + s == s;
    }
  }

  lemma {:induction false} TrimsEnd(s: string, after: string)
    requires (forall i :: 0 <= i < |after| ==> Blank(after[i])) && s != "" && IsNameChar(s[|s| - 1])
    ensures TrimEnd(s + after) == s
  {
    if after != "" {
      var n := |s + after| - 1;
      assert (s + after)[n] == after[|after| - 1] && (s + after)[..n] == s + after[..|after| - 1];
      TrimsEnd(s, after[..|after| - 1]);
    } else {
      assert s + after == s;
    }
  }

  /** Blanks around a name are trimmed before it is looked up. */
  lemma BlanksAreTrimmed(before: string, name: string, after: string)
    requires (forall i :: 0 <= i < |before| ==> Blank(before[i])) && (forall i :: 0 <= i < |after| ==> Blank(after[i]))
    requires name != "" && IsNameChar(name[0]) && IsNameChar(name[|name| - 1])
    ensures Trim(before + name + after) == name
  {
    assert before + name + after == before + (name + after);
    TrimsStart(before, name + after);
    TrimsEnd(name, after);
  }

  // ---------- delete and undeploy ----------

  /** Deleting an application, or its one version, removes it and asks for an undeploy. */
  lemma DeleteOfAll(store: Store, name: string, version: Option<string>)
    requires Safe(store) && name in store
    requires version == None || (|store[name].manifests| == 1 && version == Some(store[name].manifests[0].0))
    ensures Step(store, Delete(name, version)) == Outcome(store - {name}, Deleted(true))
  {
    if version.Some? { WithoutAt(store[name].manifests, 0); }
  }

  /** Deleting one of several leaves the others in their order, and asks for an undeploy exactly when it was
      the deployed one. */
  lemma DeleteOfOne(store: Store, name: string, i: nat)
    requires Safe(store) && name in store && i < |store[name].manifests| && |store[name].manifests| > 1
    ensures var ms, deployed := store[name].manifests, store[name].deployed;
      Step(store, Delete(name, Some(ms[i].0))) ==
      Outcome(store[name := History(ms[..i] + ms[i + 1..], if deployed == Some(ms[i].0) then None else deployed)],
              Deleted(deployed == Some(ms[i].0)))
  {
    var ms := store[name].manifests;
    WithoutOne(store, name, i);
    assert Has(ms, ms[i].0);
  }

  lemma WithoutOne(store: Store, name: string, i: nat)
    requires Safe(store) && name in store && i < |store[name].manifests| && |store[name].manifests| > 1
    ensures var ms := store[name].manifests;
      Without(ms, ms[i].0) == ms[..i] + ms[i + 1..] != [] && KeyOf(ms[..i] + ms[i + 1..]) == name
  {
    var ms := store[name].manifests;
    assert SoundHistory(name, store[name]);
    assert forall j :: 0 <= j < i ==> ms[j].0 != ms[i].0;
    WithoutAt(ms, i);
    assert SoundEntry(name, ms[LastBut(ms, i)]);
  }

  /** Where the last version is when the i-th has gone. */
  function LastBut(ms: Versions, i: nat): (last: nat)
    requires i < |ms| && |ms| > 1
    ensures last < |ms| && (ms[..i] + ms[i + 1..])[|ms| - 2] == ms[last]
  {
    if i == |ms| - 1 then i - 1 else |ms| - 1
  }

  lemma DeleteOfNone(store: Store, name: string, version: Option<string>)
    requires Safe(store)
    requires name !in store || (version.Some? && forall i :: 0 <= i < |store[name].manifests| ==> store[name].manifests[i].0 != version.value)
    ensures Step(store, Delete(name, version)) == Outcome(store, Noop)
  {}

  lemma UndeployReplies(store: Store, name: string)
    requires Safe(store)
    ensures Step(store, Undeploy(name)) ==
            if name !in store then Outcome(store, NotFound)
            else Outcome(store[name := History(store[name].manifests, None)], NowUndeployed(store[name].deployed != None))
  {
    if name in store {
      var h := store[name];
      assert SoundHistory(name, h) && SoundEntry(name, h.manifests[|h.manifests| - 1]);
      if h.deployed == None { assert History(h.manifests, None) == h && store[name := h] == store; }
    }
  }

  // ---------- deploy ----------

  /** The version a request means: the named one, or the newest for none and for latest. */
  ghost predicate Means(ms: Versions, version: Option<string>, i: nat) {
    i < |ms| && if version == None || version == Some("latest") then i == |ms| - 1 else ms[i].0 == version.value
  }

  /** A component of another application's deployed version has the id. */
  ghost predicate HeldElsewhere(store: Store, name: string, id: string) {
    exists n, k: nat :: n in store && n != name && HoldsAt(store[n], k, id)
  }

  ghost predicate HoldsAt(h: History, k: nat, id: string) {
    && k < |h.manifests| && h.deployed == Some(h.manifests[k].0)
    && exists c :: c in h.manifests[k].1.components && c.id == Some(id)
  }

  /** Some deployed application is shared by its newest version, which has the application's name and a
      component of that name and kind. */
  ghost predicate Offered(store: Store, app: SharedComponent, kind: ComponentType) {
    exists n :: n in store && OfferedBy(store[n], app, kind)
  }

  ghost predicate OfferedBy(h: History, app: SharedComponent, kind: ComponentType) {
    && h.deployed.Some? && h.manifests != []
    && var newest := h.manifests[|h.manifests| - 1].1;
       && "experimental.wasmcloud.dev/shared" in newest.annotations
       && newest.annotations["experimental.wasmcloud.dev/shared"] == "true"
       && newest.name == app.name
       && exists d :: d in newest.components && d.name == app.component && d.kind == kind
  }

  ghost predicate Unoffered(store: Store, cs: seq<Component>) {
    exists c :: c in cs && c.image == None && c.application.Some? && !Offered(store, c.application.value, c.kind)
  }

  lemma HoldsIff(name: string, h: History, id: string)
    requires SoundHistory(name, h)
    ensures id in DeployedIds(h) <==> exists k: nat :: HoldsAt(h, k, id)
  {
    if k: nat :| HoldsAt(h, k, id) {
      FindAt(h.manifests, k);
      IdIn(h.manifests[k].1.components, id);
    }
    if id in DeployedIds(h) {
      var k :| 0 <= k < |h.manifests| && h.manifests[k] == (h.deployed.value, h.DeployedManifest().value);
      IdIn(h.manifests[k].1.components, id);
      assert HoldsAt(h, k, id);
    }
  }

  lemma TakenIs(store: Store, name: string, id: string)
    requires Safe(store)
    ensures Taken(store, name, id) <==> HeldElsewhere(store, name, id)
  {
    forall n | n in store
      ensures id in HeldIds(store, n, name) <==> n != name && exists k: nat :: HoldsAt(store[n], k, id)
    {
      HeldIsDeployed(store, n, name);
      assert SoundHistory(n, store[n]);
      HoldsIff(n, store[n], id);
    }
  }

  lemma MissingIs(store: Store, cs: seq<Component>)
    ensures AnyMissing(store, cs) <==> Unoffered(store, cs)
  {
    forall n, app, kind | n in store ensures Offers(store[n], app, kind) <==> OfferedBy(store[n], app, kind) {}
    forall c: Component ensures Handlers.Missing(store, c) <==> c.image == None && c.application.Some? && !Offered(store, c.application.value, c.kind) {}
  }

  /** The k-th component is the first whose id is held elsewhere. */
  ghost predicate FirstHeld(store: Store, name: string, cs: seq<Component>, k: nat) {
    && k < |cs| && cs[k].id.Some? && HeldElsewhere(store, name, cs[k].id.value)
    && forall j :: 0 <= j < k && cs[j].id.Some? ==> !HeldElsewhere(store, name, cs[j].id.value)
  }

  lemma {:induction false} FirstTakenSnoc(store: Store, name: string, ids: seq<string>, id: string)
    ensures FirstTaken(store, name, ids + [id]) ==
            if FirstTaken(store, name, ids).Some? then FirstTaken(store, name, ids)
            else if Taken(store, name, id) then Some(id) else None
  {
    if ids != [] {
      assert (ids + [id])[1..] == ids[1..] + [id];
      FirstTakenSnoc(store, name, ids[1..], id);
    } else {
      assert ids + [id] == [id];
    }
  }

  ghost predicate NoneHeld(store: Store, name: string, cs: seq<Component>) {
    forall j :: 0 <= j < |cs| && cs[j].id.Some? ==> !HeldElsewhere(store, name, cs[j].id.value)
  }

  lemma FirstTakenMore(store: Store, name: string, front: seq<Component>, c: Component)
    requires Safe(store)
    ensures var before := FirstTaken(store, name, ExplicitIds(front));
      FirstTaken(store, name, ExplicitIds(front + [c])) ==
      if before.Some? then before else if c.id.Some? && HeldElsewhere(store, name, c.id.value) then c.id else None
  {
    assert (front + [c])[..|front|] == front;
    if c.id.Some? {
      TakenIs(store, name, c.id.value);
      FirstTakenSnoc(store, name, ExplicitIds(front), c.id.value);
    } else {
      assert ExplicitIds(front + [c]) == ExplicitIds(front);
    }
  }

  lemma NoneHeldMore(store: Store, name: string, front: seq<Component>, c: Component)
    ensures NoneHeld(store, name, front + [c]) <==>
            NoneHeld(store, name, front) && (c.id.Some? ==> !HeldElsewhere(store, name, c.id.value))
  {
    var cs := front + [c];
    assert cs[|front|] == c && forall j :: 0 <= j < |front| ==> front[j] == cs[j];
  }

  lemma {:induction false} NoneTakenIs(store: Store, name: string, cs: seq<Component>)
    requires Safe(store) && NoneHeld(store, name, cs)
    ensures FirstTaken(store, name, ExplicitIds(cs)) == None
  {
    if cs != [] {
      var front, c := cs[..|cs| - 1], cs[|cs| - 1];
      assert cs == front + [c];
      NoneHeldMore(store, name, front, c);
      NoneTakenIs(store, name, front);
      FirstTakenMore(store, name, front, c);
    }
  }

  lemma {:induction false} FirstTakenIs(store: Store, name: string, cs: seq<Component>, k: nat)
    requires Safe(store) && FirstHeld(store, name, cs, k)
    ensures FirstTaken(store, name, ExplicitIds(cs)) == cs[k].id
  {
    var front, c := cs[..|cs| - 1], cs[|cs| - 1];
    assert cs == front + [c];
    if k < |front| {
      FirstTakenIs(store, name, front, k);
    } else {
      NoneTakenIs(store, name, front);
    }
    FirstTakenMore(store, name, front, c);
  }

  /** A deploy of a version that is there is refused for the first component whose id another deployed
      application holds, else for a shared component that none offers; else the version is deployed. */
  lemma DeployReplies(store: Store, name: string, version: Option<string>, i: nat)
    requires Safe(store) && name in store && Means(store[name].manifests, version, i)
    ensures var out, cs := Step(store, Deploy(name, version)), store[name].manifests[i].1.components;
      && (forall k: nat :: FirstHeld(store, name, cs, k) ==> out == Outcome(store, IdInUse(cs[k].id.value)))
      && (NoneHeld(store, name, cs) && Unoffered(store, cs) ==> out == Outcome(store, SharedMissing))
      && (NoneHeld(store, name, cs) && !Unoffered(store, cs) ==>
            out == Outcome(store[name := History(store[name].manifests, Some(store[name].manifests[i].0))],
                           NowDeployed(store[name].manifests[i].0)))
  {
    var cs := store[name].manifests[i].1.components;
    DeployOutcomeIs(store, name, version, i);
    MissingIs(store, cs);
    if NoneHeld(store, name, cs) { NoneTakenIs(store, name, cs); }
    forall k: nat | FirstHeld(store, name, cs, k) { FirstTakenIs(store, name, cs, k); }
  }

  lemma DeployOutcomeIs(store: Store, name: string, version: Option<string>, i: nat)
    requires Safe(store) && name in store && Means(store[name].manifests, version, i)
    ensures var ms, cs := store[name].manifests, store[name].manifests[i].1.components;
      var taken := FirstTaken(store, name, ExplicitIds(cs));
      Step(store, Deploy(name, version)) ==
      if taken.Some? then Outcome(store, IdInUse(taken.value))
      else if AnyMissing(store, cs) then Outcome(store, SharedMissing)
      else Outcome(store[name := History(ms, Some(ms[i].0))], NowDeployed(ms[i].0))
  {
    var ms := store[name].manifests;
    assert SoundHistory(name, store[name]) && SoundEntry(name, ms[i]);
    FindAt(ms, i);
    DeployFinds(store, name, version);
  }

  lemma DeployOfNone(store: Store, name: string, version: Option<string>)
    requires Safe(store) && (name in store ==> forall i: nat :: !Means(store[name].manifests, version, i))
    ensures Step(store, Deploy(name, version)) == Outcome(store, if name in store then NoSuchVersion else NotFound)
  {
    if name in store {
      var ms := store[name].manifests;
      assert SoundHistory(name, store[name]);
      assert !Means(ms, version, |ms| - 1);
      if Has(ms, version.value) {
        var i :| 0 <= i < |ms| && ms[i].0 == version.value;
        assert Means(ms, version, i);
      }
    }
  }

  ghost predicate MayRun(store: Store, name: string, i: nat)
    requires name in store && i < |store[name].manifests|
  {
    var cs := store[name].manifests[i].1.components;
    NoneHeld(store, name, cs) && !Unoffered(store, cs)
  }

  /** So a deploy is accepted exactly when the version is there, no id of its components is held by another
      deployed application, and each of its shared components is offered by a deployed one. */
  lemma DeployAcceptedIff(store: Store, name: string, version: Option<string>)
    requires Safe(store)
    ensures Step(store, Deploy(name, version)).reply.NowDeployed? <==>
            name in store && exists i: nat :: Means(store[name].manifests, version, i) && MayRun(store, name, i)
  {
    if name in store && exists i: nat :: Means(store[name].manifests, version, i) {
      forall i: nat | Means(store[name].manifests, version, i) { AcceptedWhenMayRun(store, name, version, i); }
    } else {
      DeployOfNone(store, name, version);
    }
  }

  lemma AcceptedWhenMayRun(store: Store, name: string, version: Option<string>, i: nat)
    requires Safe(store) && name in store && Means(store[name].manifests, version, i)
    ensures Step(store, Deploy(name, version)).reply.NowDeployed? <==> MayRun(store, name, i)
  {
    var cs := store[name].manifests[i].1.components;
    DeployReplies(store, name, version, i);
    if !NoneHeld(store, name, cs) {
      var j :| 0 <= j < |cs| && cs[j].id.Some? && HeldElsewhere(store, name, cs[j].id.value);
      var first := SomeIsFirst(store, name, cs, j);
    }
  }

  lemma {:induction false} SomeIsFirst(store: Store, name: string, cs: seq<Component>, k: nat) returns (first: nat)
    requires k < |cs| && cs[k].id.Some? && HeldElsewhere(store, name, cs[k].id.value)
    ensures FirstHeld(store, name, cs, first)
    decreases k
  {
    if j :| 0 <= j < k && cs[j].id.Some? && HeldElsewhere(store, name, cs[j].id.value) {
      first := SomeIsFirst(store, name, cs, j);
    } else {
      first := k;
    }
  }

  /** A deployed application may be shared and not deployed any more: one that refers to it is refused. */
  lemma UndeployedIsMissing(base: Manifest, app: Manifest, d: Component)
    requires Valid(base) && Valid(app) && base.name != app.name && base.Version() != "" && app.Version() != ""
    requires base.Shared() && d in base.components
    requires |app.components| == 1 && app.components[0].id == None && app.components[0].kind == d.kind
    requires app.components[0].image == None && app.components[0].application == Some(SharedComponent(base.name, d.name))
    ensures Step(TwoUndeployed(base, app), Deploy(app.name, None)) == Outcome(TwoUndeployed(base, app), SharedMissing)
  {
    var store := TwoUndeployed(base, app);
    TwoAreSafe(base, app);
    assert NoneHeld(store, app.name, app.components);
    NoneOffers(store, app.components);
    DeployReplies(store, app.name, None, 0);
  }

  /** Two applications with one version each. */
  function TwoUndeployed(a: Manifest, b: Manifest): Store {
    map[a.name := History([(a.Version(), a)], None)][b.name := History([(b.Version(), b)], None)]
  }

  lemma TwoAreSafe(a: Manifest, b: Manifest)
    requires Valid(a) && Valid(b) && a.name != b.name && a.Version() != "" && b.Version() != ""
    ensures Safe(TwoUndeployed(a, b))
    ensures forall n :: n in TwoUndeployed(a, b) ==> TwoUndeployed(a, b)[n].deployed == None
    ensures b.name in TwoUndeployed(a, b) && TwoUndeployed(a, b)[b.name].manifests == [(b.Version(), b)]
  {
    OneVersionIsSound(a);
    OneVersionIsSound(b);
    assert Safe(map[]);
    Replace(map[], a.name, History([(a.Version(), a)], None));
    Replace(map[a.name := History([(a.Version(), a)], None)], b.name, History([(b.Version(), b)], None));
  }

  lemma NoneOffers(store: Store, cs: seq<Component>)
    requires forall n :: n in store ==> store[n].deployed == None
    requires |cs| > 0 && cs[0].image == None && cs[0].application.Some?
    ensures Unoffered(store, cs)
  {
    assert cs[0] in cs;
  }

  lemma OneVersionIsSound(m: Manifest)
    requires Valid(m) && m.Version() != ""
    ensures SoundHistory(m.name, History([(m.Version(), m)], None))
  {
    NameOfValid(m);
  }
}

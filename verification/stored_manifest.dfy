/** One application's history: its versions in the order they were added, and the deployed one. */
module StoredManifests {
  import opened Wrappers
  import opened Manifests

  type Versions = seq<(string, Manifest)>

  datatype History = History(manifests: Versions, deployed: Option<string>) {
    function DeployedManifest(): Option<Manifest> {
      if deployed.Some? then Find(manifests, deployed.value) else None
    }
  }

  const EMPTY := History([], None)

  predicate Has(ms: Versions, version: string) {
    exists i :: 0 <= i < |ms| && ms[i].0 == version
  }

  function Find(ms: Versions, version: string): (r: Option<Manifest>)
    ensures r.Some? <==> Has(ms, version)
    ensures r.Some? ==> exists i :: 0 <= i < |ms| && ms[i] == (version, r.value)
  {
    if ms == [] then None
    else if ms[0].0 == version then assert ms[0] == (version, ms[0].1); Some(ms[0].1)
    else
      var r := Find(ms[1..], version);
      assert r.Some? ==> exists i :: 0 <= i < |ms[1..]| && ms[1..][i] == (version, r.value) && ms[i + 1] == (version, r.value);
      assert forall i :: 1 <= i < |ms| ==> ms[i] == ms[1..][i - 1];
      r
  }

  function CurrentVersion(ms: Versions): string {
    if ms == [] then "" else ms[|ms| - 1].0
  }

  /** The key a manifest is stored under, and the manifest with that version noted. */
  function Versioned(m: Manifest, ulid: string): (string, Manifest) {
    if VERSION_ANNOTATION_KEY in m.annotations then (m.annotations[VERSION_ANNOTATION_KEY], m)
    else (ulid, m.(annotations := m.annotations[VERSION_ANNOTATION_KEY := ulid]))
  }

  /** The order of the others is kept. */
  function Without(ms: Versions, version: string): Versions {
    if ms == [] then []
    else if ms[0].0 == version then ms[1..]
    else [ms[0]] + Without(ms[1..], version)
  }

  /** The version that a deploy request means. */
  function Requested(ms: Versions, version: Option<string>): string {
    if version == None || version == Some(LATEST_VERSION) then CurrentVersion(ms) else version.value
  }

  lemma {:induction false} WithoutAt(ms: Versions, i: nat)
    requires i < |ms| && forall j :: 0 <= j < i ==> ms[j].0 != ms[i].0
    ensures Without(ms, ms[i].0) == ms[..i] + ms[i + 1..]
  {
    if i > 0 {
      assert ms[1..][i - 1] == ms[i];
      WithoutAt(ms[1..], i - 1);
      assert ms[1..][..i - 1] == ms[1..i] && ms[1..][i..] == ms[i + 1..];
      assert ms[..i] == [ms[0]] + ms[1..i];
    }
  }

  lemma {:induction false} WithoutAbsent(ms: Versions, version: string)
    requires !Has(ms, version)
    ensures Without(ms, version) == ms
  {
    if ms != [] {
      assert ms[0].0 != version;
      assert forall i :: 1 <= i < |ms| ==> ms[i] == ms[1..][i - 1];
      WithoutAbsent(ms[1..], version);
    }
  }

  class StoredManifest {
    var manifests: Versions
    var deployedVersion: Option<string>

    constructor (h: History)
      ensures manifests == h.manifests && deployedVersion == h.deployed
    {
      manifests, deployedVersion := h.manifests, h.deployed;
    }

    function Value(): History
      reads this
    {
      History(manifests, deployedVersion)
    }

    /** A manifest without a version gets the given new one. */
    method AddVersion(m: Manifest, ulid: string) returns (added: bool)
      modifies this
      ensures deployedVersion == old(deployedVersion)
      ensures added <==> !Has(old(manifests), Versioned(m, ulid).0)
      ensures manifests == if added then old(manifests) + [Versioned(m, ulid)] else old(manifests)
    {
      var manifest := m;
      var version: string;
      if VERSION_ANNOTATION_KEY in manifest.annotations {
        version := manifest.annotations[VERSION_ANNOTATION_KEY];
      } else {
        version := ulid;
        manifest := manifest.(annotations := manifest.annotations[VERSION_ANNOTATION_KEY := version]);
      }
      if Has(manifests, version) { return false; }
      manifests := manifests + [(version, manifest)];
      return true;
    }

    method DeleteVersion(version: string) returns (deleted: bool)
      modifies this
      ensures deployedVersion == old(deployedVersion)
      ensures deleted <==> Has(old(manifests), version)
      ensures manifests == Without(old(manifests), version)
    {
      for i := 0 to |manifests|
        invariant manifests == old(manifests) && deployedVersion == old(deployedVersion)
        invariant forall j :: 0 <= j < i ==> manifests[j].0 != version
      {
        if manifests[i].0 == version {
          WithoutAt(manifests, i);
          manifests := manifests[..i] + manifests[i + 1..];
          return true;
        }
      }
      WithoutAbsent(manifests, version);
      return false;
    }

    method Undeploy() returns (was: bool)
      modifies this
      ensures manifests == old(manifests) && deployedVersion == None
      ensures was <==> old(deployedVersion).Some?
    {
      was := deployedVersion.Some?;
      deployedVersion := None;
    }

    method Deploy(version: Option<string>) returns (ok: bool)
      modifies this
      ensures manifests == old(manifests)
      ensures ok <==> version == None || version == Some(LATEST_VERSION) || Has(manifests, version.value)
      ensures deployedVersion == if ok then Some(Requested(manifests, version)) else old(deployedVersion)
    {
      match version {
        case None =>
          deployedVersion := Some(CurrentVersion(manifests));
          return true;
        case Some(v) =>
          if v == LATEST_VERSION {
            deployedVersion := Some(CurrentVersion(manifests));
            return true;
          }
          if Has(manifests, v) {
            deployedVersion := Some(v);
            return true;
          }
          return false;
      }
    }
  }
}

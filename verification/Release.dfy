/** Release publication (scripts/release_assets.py) against a remote store that may fail at every call,
    before or after the call took effect. */
module Releases {
  import opened Wrappers

  datatype AssetState = Starter | Uploaded | OtherState
  datatype Asset = Asset(state: AssetState, size: nat, digest: string)
  datatype Release = Release(draft: bool, assets: map<string, Asset>)

  /** A local file of the release, in the order of the manifest; the manifest itself comes last. */
  datatype Expected = Expected(name: string, size: nat, digest: string)

  /** What becomes of a call: whether it takes effect and whether its answer arrives. An upload that
      takes effect may store something else than it was sent. */
  datatype Fate = Fate(happens: bool, answers: bool, garbled: Option<Asset>)

  predicate EmptyStarter(a: Asset) {
    a.state.Starter? && a.size == 0
  }

  predicate Fits(a: Asset, e: Expected) {
    a.state.Uploaded? && a.size == e.size && a.digest == e.digest
  }

  predicate Has(r: Release, e: Expected) {
    e.name in r.assets && Fits(r.assets[e.name], e)
  }

  predicate HasAll(r: Release, es: seq<Expected>) {
    forall i :: 0 <= i < |es| ==> Has(r, es[i])
  }

  /** Every file is there with its own size and digest. */
  predicate Exact(r: Release, es: seq<Expected>) {
    forall i :: 0 <= i < |es| ==>
      es[i].name in r.assets && r.assets[es[i].name] == Asset(Uploaded, es[i].size, es[i].digest)
  }

  predicate DistinctNames(es: seq<Expected>) {
    forall i, j :: 0 <= i < j < |es| ==> es[i].name != es[j].name
  }

  /** The manifest is there, in whatever state, only when all other assets are complete; and what is
      published is complete. */
  predicate Safe(r: Option<Release>, es: seq<Expected>) {
    r.None? || es == [] ||
    var last := |es| - 1;
    && (es[last].name in r.value.assets ==> HasAll(r.value, es[..last]))
    && (!r.value.draft ==> HasAll(r.value, es))
  }

  /** Nothing uploaded is lost or replaced, and nothing published is touched. */
  predicate Kept(r: Option<Release>, r': Option<Release>) {
    r.None? ||
    (&& r'.Some?
     && (forall n :: n in r.value.assets && r.value.assets[n].state.Uploaded? ==>
           n in r'.value.assets && r'.value.assets[n] == r.value.assets[n])
     && (!r.value.draft ==> r' == r))
  }

  /** From the k-th call on, every call takes effect, is answered and stores what it was sent. */
  ghost predicate Working(fates: nat -> Fate, from: nat) {
    forall k: nat :: k >= from ==> fates(k) == Fate(true, true, None)
  }

  /** A file is there with other contents, so that publishing it would overwrite something. */
  predicate Conflicts(assets: map<string, Asset>, e: Expected) {
    e.name in assets && !EmptyStarter(assets[e.name]) && !Fits(assets[e.name], e)
  }

  predicate Clear(assets: map<string, Asset>, es: seq<Expected>) {
    forall i :: 0 <= i < |es| ==> !Conflicts(assets, es[i])
  }

  /** A release that publish can complete: none yet, a draft without conflicts, or one that is complete. */
  ghost predicate Completable(r: Option<Release>, es: seq<Expected>) {
    r.None? || (if r.value.draft then Clear(r.value.assets, es) else HasAll(r.value, es))
  }

  ghost predicate ClearDraft(r: Option<Release>, es: seq<Expected>) {
    r.Some? && r.value.draft && Clear(r.value.assets, es)
  }

  /** An upload that takes effect stores what it was sent, or leaves an empty starter. */
  ghost predicate Honest(fates: nat -> Fate) {
    forall k :: fates(k).garbled.Some? ==> EmptyStarter(fates(k).garbled.value)
  }

  lemma KeptTwice(a: Option<Release>, b: Option<Release>, c: Option<Release>)
    requires Kept(a, b) && Kept(b, c)
    ensures Kept(a, c)
  {
  }

  /** The remote store, as far as one tag is concerned. The k-th call has the fate `fates(k)`. Calls
      that write may only be made so that they keep Safe and Kept. */
  class Remote {
    var release: Option<Release>
    var calls: nat
    const fates: nat -> Fate
    const files: seq<Expected>

    constructor (files: seq<Expected>, fates: nat -> Fate)
      ensures this.files == files && this.fates == fates && release == None && Safe(release, files)
    {
      this.files, this.fates, release, calls := files, fates, None, 0;
    }

    method NextFate() returns (fate: Fate)
      modifies this`calls
      ensures fate == fates(old(calls)) && calls == old(calls) + 1
    {
      fate := fates(calls);
      calls := calls + 1;
    }

    /** Any call that only reads: the release, its assets, a tag or a digest. */
    method Read() returns (reply: Option<Option<Release>>)
      modifies this`calls
      ensures calls > old(calls) && (reply.Some? ==> reply.value == release)
      ensures Working(fates, old(calls)) ==> reply.Some?
    {
      var fate := NextFate();
      reply := if fate.answers then Some(release) else None;
    }

    method CreateDraft() returns (ok: bool)
      requires release.None?
      modifies this`calls, this`release
      ensures Safe(release, files) && (ok ==> release == Some(Release(true, map[])))
      ensures calls > old(calls) && (Working(fates, old(calls)) ==> ok)
      ensures Completable(release, files)
    {
      var fate := NextFate();
      if fate.happens { release := Some(Release(true, map[])); }
      ok := fate.happens && fate.answers;
    }

    method DeleteStarter(name: string) returns (ok: bool)
      requires Safe(release, files) && release.Some? && release.value.draft
      requires name in release.value.assets && EmptyStarter(release.value.assets[name])
      modifies this`calls, this`release
      ensures Safe(release, files) && Kept(old(release), release)
      ensures ok ==> release == Some(old(release).value.(assets := old(release).value.assets - {name}))
      ensures calls > old(calls) && (Working(fates, old(calls)) ==> ok)
      ensures release.Some? && release.value.draft
      ensures Clear(old(release).value.assets, files) ==> Clear(release.value.assets, files)
    {
      var fate := NextFate();
      if fate.happens {
        DeletionIsSafe(release.value, name, files);
        release := Some(release.value.(assets := release.value.assets - {name}));
      }
      ok := fate.happens && fate.answers;
    }

    method Upload(i: nat) returns (stored: Option<Asset>)
      requires Safe(release, files) && release.Some? && release.value.draft
      requires i < |files| && DistinctNames(files) && files[i].name !in release.value.assets
      requires i == |files| - 1 ==> HasAll(release.value, files[..i])
      modifies this`calls, this`release
      ensures Safe(release, files) && Kept(old(release), release)
      ensures stored.Some? ==>
        release == Some(old(release).value.(assets := old(release).value.assets[files[i].name := stored.value]))
      ensures calls > old(calls)
      ensures Working(fates, old(calls)) ==> stored == Some(Asset(Uploaded, files[i].size, files[i].digest))
      ensures release.Some? && release.value.draft
      ensures Honest(fates) && Clear(old(release).value.assets, files) ==> Clear(release.value.assets, files)
    {
      var fate := NextFate();
      var asset := if fate.garbled.Some? then fate.garbled.value else Asset(Uploaded, files[i].size, files[i].digest);
      if fate.happens {
        UploadIsSafe(release.value, i, asset, files);
        if Honest(fates) { UploadStaysClear(release.value.assets, i, asset, files); }
        release := Some(release.value.(assets := release.value.assets[files[i].name := asset]));
      }
      stored := if fate.happens && fate.answers then Some(asset) else None;
    }

    method PublishDraft() returns (ok: bool)
      requires release.Some? && release.value.draft && HasAll(release.value, files) && Safe(release, files)
      modifies this`calls, this`release
      ensures Safe(release, files) && Kept(old(release), release)
      ensures ok ==> release == Some(old(release).value.(draft := false))
      ensures calls > old(calls) && (Working(fates, old(calls)) ==> ok)
      ensures Completable(old(release), files) ==> Completable(release, files)
    {
      var fate := NextFate();
      if fate.happens {
        release := Some(release.value.(draft := false));
        assert HasAll(release.value, files);
      }
      ok := fate.happens && fate.answers;
    }
  }

  lemma DeletionIsSafe(r: Release, name: string, es: seq<Expected>)
    requires Safe(Some(r), es) && r.draft && name in r.assets && EmptyStarter(r.assets[name])
    ensures Safe(Some(r.(assets := r.assets - {name})), es)
  {
    assert forall e :: Has(r, e) ==> Has(r.(assets := r.assets - {name}), e);
  }

  lemma UploadStaysClear(assets: map<string, Asset>, i: nat, asset: Asset, es: seq<Expected>)
    requires i < |es| && DistinctNames(es) && (EmptyStarter(asset) || Fits(asset, es[i]))
    ensures Clear(assets, es) ==> Clear(assets[es[i].name := asset], es)
  {
    if Clear(assets, es) {
      forall k | 0 <= k < |es|
        ensures !Conflicts(assets[es[i].name := asset], es[k])
      {
        assert !Conflicts(assets, es[k]);
      }
    }
  }

  lemma UploadIsSafe(r: Release, i: nat, asset: Asset, es: seq<Expected>)
    requires Safe(Some(r), es) && r.draft && i < |es| && DistinctNames(es) && es[i].name !in r.assets
    requires i == |es| - 1 ==> HasAll(r, es[..i])
    ensures Safe(Some(r.(assets := r.assets[es[i].name := asset])), es)
  {
    var r' := r.(assets := r.assets[es[i].name := asset]);
    assert forall e :: Has(r, e) ==> Has(r', e);
    var last := |es| - 1;
    assert i < last && es[last].name in r.assets ==> Has(r, es[..last][i]);
  }

  // ---------- publish ----------

  /** matches: the digest is asked for, or the asset downloaded, only when state and size agree. None
      when that call fails. */
  method Matches(remote: Remote, a: Asset, e: Expected) returns (same: Option<bool>)
    modifies remote`calls
    ensures remote.calls >= old(remote.calls) && (same.Some? ==> same.value == Fits(a, e))
    ensures Working(remote.fates, old(remote.calls)) ==> same.Some?
  {
    if a.state != Uploaded || a.size != e.size { return Some(false); }
    var reply := remote.Read();
    same := if reply.Some? then Some(a.digest == e.digest) else None;
  }

  /** Whether the first n files are all there and complete. */
  method AllMatch(remote: Remote, assets: map<string, Asset>, n: nat) returns (ok: bool)
    requires n <= |remote.files|
    modifies remote`calls
    ensures remote.calls >= old(remote.calls) && (ok ==> HasAll(Release(true, assets), remote.files[..n]))
    ensures Working(remote.fates, old(remote.calls)) && HasAll(Release(true, assets), remote.files[..n]) ==> ok
  {
    for i := 0 to n
      invariant remote.calls >= old(remote.calls) && HasAll(Release(true, assets), remote.files[..i])
    {
      var e := remote.files[i];
      if e.name !in assets { return false; }
      var same := Matches(remote, assets[e.name], e);
      if same != Some(true) { return false; }
      assert remote.files[..i + 1] == remote.files[..i] + [e];
    }
    ok := true;
  }

  /** validate_remote: the release and the tag are read again. */
  method ValidateRemote(remote: Remote) returns (release: Option<Release>)
    modifies remote`calls
    ensures remote.calls >= old(remote.calls) && (release.Some? ==> release == remote.release)
    ensures Working(remote.fates, old(remote.calls)) && remote.release.Some? ==> release.Some?
  {
    var reply := remote.Read();
    if reply.None? || reply.value.None? { return None; }
    var tag := remote.Read();
    if tag.None? { return None; }
    release := reply.value;
  }

  /** asset_map: the assets by name. */
  method AssetMap(remote: Remote) returns (assets: Option<map<string, Asset>>)
    modifies remote`calls
    ensures assets.Some? ==> remote.release.Some? && assets.value == remote.release.value.assets
    ensures remote.calls >= old(remote.calls)
    ensures Working(remote.fates, old(remote.calls)) && remote.release.Some? ==> assets.Some?
  {
    var reply := remote.Read();
    assets := if reply.Some? && reply.value.Some? then Some(reply.value.value.assets) else None;
  }

  /** Conflicts are looked for before the first mutation. */
  method NoConflicts(remote: Remote, assets: map<string, Asset>) returns (ok: bool)
    modifies remote`calls
    ensures remote.calls >= old(remote.calls) && (ok ==> Clear(assets, remote.files))
    ensures Working(remote.fates, old(remote.calls)) && Clear(assets, remote.files) ==> ok
  {
    for i := 0 to |remote.files|
      invariant remote.calls >= old(remote.calls)
      invariant forall k :: 0 <= k < i ==> !Conflicts(assets, remote.files[k])
    {
      var e := remote.files[i];
      if e.name in assets && !EmptyStarter(assets[e.name]) {
        var same := Matches(remote, assets[e.name], e);
        if same != Some(true) { return false; }
      }
    }
    ok := true;
  }

  /** The file is there now, and nothing else has changed. */
  ghost predicate OneUploaded(r: Option<Release>, r': Option<Release>, e: Expected) {
    && r.Some? && r'.Some? && r.value.draft && r'.value.draft && Has(r'.value, e)
    && forall n :: n != e.name ==> ((n in r'.value.assets <==> n in r.value.assets)
                                    && (n in r.value.assets ==> r'.value.assets[n] == r.value.assets[n]))
  }

  /** A draft to which file i can be added. */
  ghost predicate Uploadable(r: Option<Release>, es: seq<Expected>, i: nat)
    requires i < |es|
  {
    r.Some? && r.value.draft && !Conflicts(r.value.assets, es[i]) && HasAll(r.value, es[..i])
  }

  lemma NextUploadable(r: Option<Release>, r': Option<Release>, es: seq<Expected>, i: nat)
    requires i < |es| && DistinctNames(es) && r.Some? && Clear(r.value.assets, es) && HasAll(r.value, es[..i])
    requires OneUploaded(r, r', es[i])
    ensures r'.value.draft && Clear(r'.value.assets, es) && HasAll(r'.value, es[..i + 1])
  {
    forall k | 0 <= k < |es|
      ensures !Conflicts(r'.value.assets, es[k]) && (k <= i ==> Has(r'.value, es[k]))
    {
      if k < i { assert Has(r.value, es[..i][k]); }
      assert !Conflicts(r.value.assets, es[k]);
    }
  }

  /** One turn of the upload loop: skip what is there, clear a failed upload, upload, check. */
  method UploadOne(remote: Remote, i: nat) returns (ok: bool)
    requires i < |remote.files| && DistinctNames(remote.files) && Safe(remote.release, remote.files)
    modifies remote`calls, remote`release
    ensures Safe(remote.release, remote.files) && Kept(old(remote.release), remote.release)
    ensures old(remote.release).Some? && old(remote.release).value.draft ==>
              remote.release.Some? && remote.release.value.draft
    ensures Honest(remote.fates) && ClearDraft(old(remote.release), remote.files) ==>
              ClearDraft(remote.release, remote.files)
    ensures remote.calls >= old(remote.calls)
    ensures ok ==> OneUploaded(old(remote.release), remote.release, remote.files[i])
    ensures Working(remote.fates, old(remote.calls)) && Uploadable(old(remote.release), remote.files, i) ==> ok
  {
    var e := remote.files[i];
    var release := ValidateRemote(remote);
    if release.None? || !release.value.draft { return false; }
    var assets := AssetMap(remote);
    if assets.None? { return false; }
    if e.name in assets.value {
      var same := Matches(remote, assets.value[e.name], e);
      if same.None? { return false; }
      if same.value { return true; }
      if !EmptyStarter(assets.value[e.name]) { return false; }
      ok := remote.DeleteStarter(e.name);
      if !ok { return false; }
    }
    if i == |remote.files| - 1 {
      var verified := AssetMap(remote);
      if verified.None? { return false; }
      var complete := AllMatch(remote, verified.value, i);
      if !complete { return false; }
    }
    var stored := remote.Upload(i);
    if stored.None? { return false; }
    var same := Matches(remote, stored.value, e);
    ok := same == Some(true);
  }

  /** The end of publish: everything is checked once more, then the draft is published. */
  method FinishPublication(remote: Remote) returns (ok: bool)
    requires Safe(remote.release, remote.files)
    modifies remote`calls, remote`release
    ensures Safe(remote.release, remote.files) && Kept(old(remote.release), remote.release)
    ensures ok ==> remote.release.Some? && !remote.release.value.draft && HasAll(remote.release.value, remote.files)
    ensures ok ==> Exact(remote.release.value, remote.files)
    ensures old(remote.release).Some? && HasAll(old(remote.release).value, remote.files) ==>
            (Working(remote.fates, old(remote.calls)) ==> ok)
    ensures Completable(old(remote.release), remote.files) ==> Completable(remote.release, remote.files)
  {
    var checked := ValidateRemote(remote);
    if checked.None? { return false; }
    var final := AssetMap(remote);
    if final.None? { return false; }
    assert remote.files[..|remote.files|] == remote.files;
    var complete := AllMatch(remote, final.value, |remote.files|);
    if !complete { return false; }
    var release := ValidateRemote(remote);
    if release.None? { return false; }
    if release.value.draft {
      var done := remote.PublishDraft();
      if !done { return false; }
    }
    var last := ValidateRemote(remote);
    ok := last.Some? && !last.value.draft;
  }

  /** publish: one run, which stops at the first failed call or check. A conflict stops it before it
      changes anything; without conflicts and failing calls it completes the release. */
  method Publish(remote: Remote) returns (ok: bool)
    requires DistinctNames(remote.files) && Safe(remote.release, remote.files)
    modifies remote`calls, remote`release
    ensures Safe(remote.release, remote.files) && Kept(old(remote.release), remote.release)
    ensures ok ==> remote.release.Some? && !remote.release.value.draft && HasAll(remote.release.value, remote.files)
    ensures ok ==> Exact(remote.release.value, remote.files)
    ensures !Completable(old(remote.release), remote.files) ==> !ok && remote.release == old(remote.release)
    ensures Working(remote.fates, old(remote.calls)) && Completable(old(remote.release), remote.files) ==> ok
    ensures Honest(remote.fates) && Completable(old(remote.release), remote.files) ==>
            Completable(remote.release, remote.files)
  {
    ghost var start := remote.release;
    var tag := remote.Read();
    if tag.None? { return false; }
    var found := remote.Read();
    if found.None? { return false; }
    if found.value.None? {
      var created := remote.CreateDraft();
      if !created { return false; }
    }
    var release := ValidateRemote(remote);
    if release.None? { return false; }
    var existing := AssetMap(remote);
    if existing.None? { return false; }
    if !release.value.draft {
      ok := AllMatch(remote, existing.value, |remote.files|);
      assert remote.files[..|remote.files|] == remote.files;
      return;
    }
    var clear := NoConflicts(remote, existing.value);
    if !clear { return false; }
    for i := 0 to |remote.files|
      invariant Safe(remote.release, remote.files) && Kept(start, remote.release) && remote.calls >= old(remote.calls)
      invariant remote.release.Some? && remote.release.value.draft && Clear(remote.release.value.assets, remote.files)
      invariant HasAll(remote.release.value, remote.files[..i])
    {
      ghost var before := remote.release;
      var done := UploadOne(remote, i);
      KeptTwice(start, before, remote.release);
      if !done { return false; }
      NextUploadable(before, remote.release, remote.files, i);
    }
    assert remote.files[..|remote.files|] == remote.files;
    ghost var before := remote.release;
    ok := FinishPublication(remote);
    KeptTwice(start, before, remote.release);
  }

  /** The failed job retried on the same files, until it succeeds or there are no more attempts; `last`
      is the number of the first call of the last attempt. While uploads store what they were sent, or
      leave empty starters, no failure spoils the release: it stays one that can be completed, and an
      attempt without failing calls completes it. A new Remote is Safe and can be completed. */
  method Rerun(remote: Remote, attempts: nat) returns (ok: bool, last: nat)
    requires DistinctNames(remote.files) && Safe(remote.release, remote.files)
    modifies remote`calls, remote`release
    ensures Safe(remote.release, remote.files) && Kept(old(remote.release), remote.release)
    ensures ok ==> remote.release.Some? && !remote.release.value.draft && HasAll(remote.release.value, remote.files)
    ensures ok ==> Exact(remote.release.value, remote.files)
    ensures Honest(remote.fates) && Completable(old(remote.release), remote.files) ==>
              Completable(remote.release, remote.files) && (attempts > 0 && Working(remote.fates, last) ==> ok)
  {
    ok, last := false, remote.calls;
    ghost var start := remote.release;
    for i := 0 to attempts
      invariant Safe(remote.release, remote.files) && Kept(start, remote.release) && !ok
      invariant Honest(remote.fates) && Completable(start, remote.files) ==>
        Completable(remote.release, remote.files) && (i > 0 ==> !Working(remote.fates, last))
    {
      ghost var before := remote.release;
      last := remote.calls;
      ok := Publish(remote);
      KeptTwice(start, before, remote.release);
      if ok { return; }
    }
  }
}

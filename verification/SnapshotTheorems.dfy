/** Normalisation as a whole: references are backed, and a second pass changes nothing. */
module SnapshotTheorems {
  import opened Common
  import opened Collections
  import opened Codecs
  import opened BlobStores
  import opened TreeStores
  import opened Snapshots
  import opened SnapshotProofs

  /** `m` is the manifest that `cfg` determines over `snap`: its repositories, its distfiles and nothing else. */
  ghost predicate Describes<T>(env: Env, snap: Snap, cfg: Config<T>, m: Manifest) {
    && m.version == cfg.manifest.version == MANIFEST_VERSION
    && (forall r :: r in RepoNames(cfg) ==> RepoDone(env, snap, cfg, m, r))
    && (forall r :: r in m.repos ==> r in RepoNames(cfg))
    && (forall n :: n in DistNames(cfg) ==> DistfileDone(env, snap, cfg, m, n))
    && (forall n :: n in m.distfiles ==> n in DistNames(cfg))
  }

  ghost predicate Acceptable<T>(env: Env, store: Store, cfg: Config<T>) {
    && cfg.manifest.version == MANIFEST_VERSION
    && (forall r :: r in RepoNames(cfg) ==> RepoReady(env, store, cfg, r))
    && (forall n :: n in DistNames(cfg) ==> DistfileReady(env, store, cfg, n))
  }

  ghost predicate ManifestOutcome<T>(env: Env, pool: Pool, snap: Snap, cfg: Config<T>, out: Out<Manifest>) {
    && Ready(env, pool, out.snap) && Grows(snap, out.snap)
    && (out.result.Ok? ==> Describes(env, out.snap, cfg, out.result.value))
    && (Acceptable(env, snap.store, cfg) ==> out.result.Ok?)
  }

  lemma WalkIsDistinct(env: Env, pool: Pool, snap: Snap, keys: set<string>)
    requires Ready(env, pool, snap)
    ensures env.Ordered() && (forall x :: x in env.order(keys) <==> x in keys)
    ensures forall i, j :: 0 <= i < j < |env.order(keys)| ==> env.order(keys)[i] != env.order(keys)[j]
  {
  }

  lemma WholeManifestBuilt<T>(env: Env, pool: Pool, snap: Snap, cfg: Config<T>, now: int)
    requires Ready(env, pool, snap) && Covers(env, pool, cfg)
    ensures env.Ordered() && ManifestOutcome(env, pool, snap, cfg, EffectiveManifest(env, snap, cfg, now))
  {
    hide Ready, Env.Ordered, Grows, BuildRepos, BuildDistfiles, RepoReady, DistfileReady, RepoDone, DistfileDone, RepoNames, DistNames;
    hide ReposOutcome, DistfilesOutcome, ManifestOutcome, Covers;
    DistfilesAreCovered(env, pool, cfg);
    var rs, ns := env.order(RepoNames(cfg)), env.order(DistNames(cfg));
    WalkIsDistinct(env, pool, snap, RepoNames(cfg));
    WalkIsDistinct(env, pool, snap, DistNames(cfg));
    ReposBuilt(env, pool, snap, cfg, rs, now);
    var repos := BuildRepos(env, snap, cfg, rs, now);
    if cfg.manifest.version != MANIFEST_VERSION {
      WrongVersion(env, pool, snap, cfg);
    } else if repos.result.Err? {
      ReposRefused(env, pool, snap, cfg, rs, repos);
    } else {
      ReposDescribed(env, pool, snap, cfg, rs, repos);
      DistfilesBuilt(env, pool, repos.snap, cfg, repos.result.value, ns, now);
      AllDescribed(env, pool, snap, cfg, rs, repos, ns, BuildDistfiles(env, repos.snap, cfg, repos.result.value, ns, now));
    }
  }

  lemma DistfilesAreCovered<T>(env: Env, pool: Pool, cfg: Config<T>)
    requires Covers(env, pool, cfg)
    ensures AllIn(cfg.distInline, pool.contents)
  {
  }

  lemma WrongVersion<T>(env: Env, pool: Pool, snap: Snap, cfg: Config<T>)
    requires Ready(env, pool, snap) && cfg.manifest.version != MANIFEST_VERSION
    ensures ManifestOutcome(env, pool, snap, cfg, Out(snap, Err(UnsupportedManifestVersion)))
  {
    hide Ready;
  }

  lemma ReposRefused<T>(env: Env, pool: Pool, snap: Snap, cfg: Config<T>, rs: seq<string>, repos: Out<Manifest>)
    requires ReposOutcome(env, pool, snap, cfg, rs, repos) && repos.result.Err? && forall r :: r in rs <==> r in RepoNames(cfg)
    ensures ManifestOutcome(env, pool, snap, cfg, repos)
  {
    hide Ready, Grows, RepoReady, RepoDone, RepoNames;
  }

  lemma ReposDescribed<T>(env: Env, pool: Pool, snap: Snap, cfg: Config<T>, rs: seq<string>, repos: Out<Manifest>)
    requires ReposOutcome(env, pool, snap, cfg, rs, repos) && repos.result.Ok?
    ensures Ready(env, pool, repos.snap) && Grows(snap, repos.snap) && repos.result.value.distfiles == cfg.manifest.distfiles
  {
    hide Ready, Grows, RepoReady, RepoDone;
  }

  lemma AllDescribed<T>(env: Env, pool: Pool, snap: Snap, cfg: Config<T>, rs: seq<string>, repos: Out<Manifest>, ns: seq<string>, out: Out<Manifest>)
    requires cfg.manifest.version == MANIFEST_VERSION
    requires ReposOutcome(env, pool, snap, cfg, rs, repos) && repos.result.Ok? && (forall r :: r in rs <==> r in RepoNames(cfg))
    requires DistfilesOutcome(env, pool, repos.snap, cfg, repos.result.value, ns, out) && (forall n :: n in ns <==> n in DistNames(cfg))
    ensures ManifestOutcome(env, pool, snap, cfg, out)
  {
    hide Ready, Grows, RepoReady, DistfileReady, RepoDone, DistfileDone;
    GrowsTransitive(snap, repos.snap, out.snap);
    if Acceptable(env, snap.store, cfg) {
      forall n | n in ns ensures DistfileReady(env, repos.snap.store, cfg, n) { DistfileReadyPersists(env, snap, repos.snap, cfg, n); }
    }
    if out.result.Ok? {
      var m0, m := repos.result.value, out.result.value;
      forall r | r in RepoNames(cfg) ensures RepoDone(env, out.snap, cfg, m, r) { RepoDonePersists(env, repos.snap, out.snap, cfg, m0, m, r); }
      assert forall r :: r !in rs ==> RepoUntouched(cfg, m0, r);
      assert forall n :: n !in ns ==> DistfileUntouched(cfg, m, n);
    }
  }

  /** The contents of the manifest that `cfg` determines. */
  ghost predicate Determines<T>(env: Env, store: Store, cfg: Config<T>, m: Manifest) {
    && m.version == cfg.manifest.version
    && (forall r :: r in RepoNames(cfg) ==> RepoAsBuilt(env, store, cfg, m, r))
    && (forall r :: r in m.repos ==> r in RepoNames(cfg))
    && (forall n :: n in DistNames(cfg) ==> DistfileAsBuilt(env, store, cfg, m, n))
    && (forall n :: n in m.distfiles ==> n in DistNames(cfg))
  }

  /** Only one manifest fits. */
  lemma DeterminedOnce<T>(env: Env, store: Store, cfg: Config<T>, m: Manifest, m': Manifest)
    requires Determines(env, store, cfg, m) && Determines(env, store, cfg, m')
    ensures m == m'
  {
    hide BuiltEntries, BuiltDistfile;
    forall r ensures (r in m.repos <==> r in m'.repos) && (r in m.repos ==> m.repos[r] == m'.repos[r]) {
      if r in RepoNames(cfg) { assert RepoAsBuilt(env, store, cfg, m, r) && RepoAsBuilt(env, store, cfg, m', r); }
    }
    assert m.repos == m'.repos;
    forall n ensures (n in m.distfiles <==> n in m'.distfiles) && (n in m.distfiles ==> m.distfiles[n] == m'.distfiles[n]) {
      if n in DistNames(cfg) { assert DistfileAsBuilt(env, store, cfg, m, n) && DistfileAsBuilt(env, store, cfg, m', n); }
    }
    assert m.distfiles == m'.distfiles;
  }

  lemma DeterminesPersists<T>(env: Env, snap: Snap, snap': Snap, cfg: Config<T>, m: Manifest)
    requires Grows(snap, snap') && Acceptable(env, snap.store, cfg) && Determines(env, snap.store, cfg, m)
    ensures Determines(env, snap'.store, cfg, m)
  {
    hide BuiltEntries, BuiltDistfile, RepoReady, DistfileReady;
    forall r | r in RepoNames(cfg) ensures RepoAsBuilt(env, snap'.store, cfg, m, r) {
      ReadyPersists(env, snap, snap', cfg, r);
      assert RepoAsBuilt(env, snap.store, cfg, m, r);
    }
    forall n | n in DistNames(cfg) ensures DistfileAsBuilt(env, snap'.store, cfg, m, n) {
      DistfileReadyPersists(env, snap, snap', cfg, n);
      assert DistfileAsBuilt(env, snap.store, cfg, m, n);
    }
  }

  /** When the store can accept the configuration, the result is the one manifest that fits. */
  lemma ResultIs<T>(env: Env, pool: Pool, snap: Snap, cfg: Config<T>, m: Manifest, now: int)
    requires Ready(env, pool, snap) && Covers(env, pool, cfg) && Acceptable(env, snap.store, cfg) && Determines(env, snap.store, cfg, m)
    ensures env.Ordered() && EffectiveManifest(env, snap, cfg, now).result == Ok(m)
  {
    hide Ready, Grows, Env.Ordered, EffectiveManifest, RepoReady, DistfileReady, Acceptable, Determines, Describes, Covers;
    WholeManifestBuilt(env, pool, snap, cfg, now);
    var out := EffectiveManifest(env, snap, cfg, now);
    DeterminesPersists(env, snap, out.snap, cfg, m);
    DescribedIsDetermined(env, out.snap, cfg, out.result.value);
    DeterminedOnce(env, out.snap.store, cfg, m, out.result.value);
  }

  lemma DescribedIsDetermined<T>(env: Env, snap: Snap, cfg: Config<T>, m: Manifest)
    requires Describes(env, snap, cfg, m)
    ensures Determines(env, snap.store, cfg, m)
  {
    hide RepoReady, DistfileReady, RepoAsBuilt, DistfileAsBuilt, RepoStored;
    forall r | r in RepoNames(cfg) ensures RepoAsBuilt(env, snap.store, cfg, m, r) { assert RepoDone(env, snap, cfg, m, r); }
    forall n | n in DistNames(cfg) ensures DistfileAsBuilt(env, snap.store, cfg, m, n) { assert DistfileDone(env, snap, cfg, m, n); }
  }

  // ── References are backed ─────────────────────────────────────────

  /** An empty inline payload beside a manifest that still lists files. */
  predicate HollowAt<T>(cfg: Config<T>, r: string) {
    r in cfg.repoInline && cfg.repoInline[r] == map[] && r in cfg.manifest.repos && cfg.manifest.repos[r].entries != map[]
  }

  predicate Hollow<T>(cfg: Config<T>) {
    exists r :: r in cfg.repoInline && HollowAt(cfg, r)
  }

  /** Every file the repository lists is stored, and the tree stored under its digest lists exactly those files. */
  predicate RepoBacked(env: Env, snap: Snap, repo: RepoManifest) {
    && (forall p :: p in repo.entries ==> repo.entries[p].digest in snap.store.blobs)
    && (repo.treeDigest != [] ==>
          && repo.treeDigest == env.TreeDigest(RefsOf(repo.entries))
          && repo.treeDigest in snap.trees && snap.trees[repo.treeDigest].refs == RefsOf(repo.entries))
    && (repo.entries != map[] ==> repo.treeDigest != [])
  }

  ghost predicate Backed(env: Env, snap: Snap, m: Manifest) {
    && (forall r :: r in m.repos ==> RepoBacked(env, snap, m.repos[r]))
    && (forall n :: n in m.distfiles ==> m.distfiles[n].digest in snap.store.blobs)
  }

  lemma TreeDigestsAreNotEmpty(env: Env, pool: Pool, snap: Snap, refs: Refs)
    requires Ready(env, pool, snap)
    ensures env.TreeDigest(refs) != []
  {
    assert ValidDigest(env.TreeDigest(refs));
  }

  lemma TreeIsFound(env: Env, pool: Pool, snap: Snap, refs: Refs)
    requires Ready(env, pool, snap) && refs in pool.trees && env.TreeDigest(refs) in snap.trees
    ensures snap.trees[env.TreeDigest(refs)].refs == refs
  {
    assert env.forms.TreesApart(snap.trees[env.TreeDigest(refs)].refs, refs);
  }

  lemma SolidRepoIsBacked<T>(env: Env, pool: Pool, snap: Snap, cfg: Config<T>, m: Manifest, r: string)
    requires Ready(env, pool, snap) && Covers(env, pool, cfg) && r in RepoNames(cfg) && RepoDone(env, snap, cfg, m, r) && r in m.repos && !HollowAt(cfg, r)
    ensures RepoBacked(env, snap, m.repos[r])
  {
    hide Ready, Covers, RepoNames;
    TreeAsBuilt(env, pool, snap.store, cfg, r);
    var entries := BuiltEntries(env, snap.store, cfg, r);
    TreeDigestsAreNotEmpty(env, pool, snap, RefsOf(entries));
    TreeIsFound(env, pool, snap, RefsOf(entries));
    if entries == map[] {
      if r in cfg.repoInline { assert cfg.repoInline[r].Keys == entries.Keys == {}; }
      assert m.repos[r].entries == map[];
    }
  }

  lemma HollowRepoIsNotBacked<T>(env: Env, pool: Pool, snap: Snap, cfg: Config<T>, m: Manifest, r: string)
    requires Ready(env, pool, snap) && Covers(env, pool, cfg) && RepoDone(env, snap, cfg, m, r) && HollowAt(cfg, r)
    ensures r in m.repos && m.repos[r].entries != map[] && m.repos[r].treeDigest != env.TreeDigest(RefsOf(m.repos[r].entries))
  {
    var kept := cfg.manifest.repos[r];
    var none: map<string, Entry> := map[];
    assert BuiltEntries(env, snap.store, cfg, r) == none;
    assert m.repos[r] == kept;
    var p :| p in kept.entries;
    assert p in RefsOf(kept.entries) && p !in RefsOf(none);
    assert RefsOf(kept.entries) != RefsOf(none);
    TreeAsBuilt(env, pool, snap.store, cfg, r);
    assert env.forms.TreesApart(RefsOf(kept.entries), RefsOf(none));
    TreeDigestsAreNotEmpty(env, pool, snap, RefsOf(kept.entries));
  }

  /**
   Unless an inline payload is hollow, everything a normalised configuration refers to is in
   the stores; with a hollow payload some repository is always left unbacked.
   */
  lemma NormalizedReferencesAreBacked<T>(env: Env, pool: Pool, snap: Snap, cfg: Config<T>, now: int)
    requires Ready(env, pool, snap) && Covers(env, pool, cfg)
    ensures env.Ordered()
    ensures var out := Normalize(env, snap, cfg, now);
            && Ready(env, pool, out.snap) && Grows(snap, out.snap)
            && (out.result.Ok? ==> out.result.value.repoInline == map[] && out.result.value.distInline == map[])
            && (out.result.Ok? ==> (Backed(env, out.snap, out.result.value.manifest) <==> !Hollow(cfg)))
  {
    hide Ready, Env.Ordered, Grows, EffectiveManifest, RepoDone, DistfileDone, RepoBacked, HollowAt, Covers;
    WholeManifestBuilt(env, pool, snap, cfg, now);
    var out := EffectiveManifest(env, snap, cfg, now);
    if out.result.Ok? { BackedExactlyWhenSolid(env, pool, out.snap, cfg, out.result.value); }
  }

  lemma BackedExactlyWhenSolid<T>(env: Env, pool: Pool, snap: Snap, cfg: Config<T>, m: Manifest)
    requires Ready(env, pool, snap) && Covers(env, pool, cfg) && Describes(env, snap, cfg, m)
    ensures Backed(env, snap, m) <==> !Hollow(cfg)
  {
    hide Ready, RepoDone, DistfileDone, HollowAt, Covers;
    if Hollow(cfg) {
      var r :| r in cfg.repoInline && HollowAt(cfg, r);
      HollowRepoIsNotBacked(env, pool, snap, cfg, m, r);
      assert !RepoBacked(env, snap, m.repos[r]);
    } else {
      forall r | r in m.repos ensures RepoBacked(env, snap, m.repos[r]) {
        assert RepoDone(env, snap, cfg, m, r);
        if HollowAt(cfg, r) { HollowIsInline(cfg, r); }
        SolidRepoIsBacked(env, pool, snap, cfg, m, r);
      }
      forall n | n in m.distfiles ensures m.distfiles[n].digest in snap.store.blobs {
        assert DistfileDone(env, snap, cfg, m, n);
        ListedDistfileIsStored(env, snap, cfg, m, n);
      }
    }
  }

  lemma HollowIsInline<T>(cfg: Config<T>, r: string)
    requires HollowAt(cfg, r)
    ensures Hollow(cfg)
  {
  }

  lemma ListedDistfileIsStored<T>(env: Env, snap: Snap, cfg: Config<T>, m: Manifest, n: string)
    requires DistfileDone(env, snap, cfg, m, n) && n in m.distfiles
    ensures m.distfiles[n].digest in snap.store.blobs
  {
  }

  // ── A second pass ─────────────────────────────────────────────────

  lemma SecondPassRepo<T>(env: Env, snap: Snap, cfg: Config<T>, m: Manifest, r: string)
    requires r in m.repos && RepoBacked(env, snap, m.repos[r])
    ensures RepoReady(env, snap.store, Normalized(cfg, m), r) && RepoAsBuilt(env, snap.store, Normalized(cfg, m), m, r)
  {
  }

  lemma SecondPassAccepts<T>(env: Env, snap: Snap, cfg: Config<T>, m: Manifest)
    requires m.version == MANIFEST_VERSION && Backed(env, snap, m)
    ensures Acceptable(env, snap.store, Normalized(cfg, m)) && Determines(env, snap.store, Normalized(cfg, m), m)
  {
    hide RepoReady, RepoAsBuilt, RepoBacked;
    var again := Normalized(cfg, m);
    assert RepoNames(again) == m.repos.Keys && DistNames(again) == m.distfiles.Keys;
    forall r | r in m.repos ensures RepoReady(env, snap.store, again, r) && RepoAsBuilt(env, snap.store, again, m, r) {
      assert RepoBacked(env, snap, m.repos[r]);
      SecondPassRepo(env, snap, cfg, m, r);
    }
  }

  /** What a second pass would need of a repository that lists files. */
  lemma SecondPassNeedsTree<T>(env: Env, snap: Snap, cfg: Config<T>, m: Manifest, r: string)
    requires r in m.repos && m.repos[r].entries != map[] && RepoAsBuilt(env, snap.store, Normalized(cfg, m), m, r)
    ensures m.repos[r].treeDigest == env.TreeDigest(RefsOf(m.repos[r].entries))
  {
  }

  lemma BackedPersists(env: Env, snap: Snap, snap': Snap, m: Manifest)
    requires Backed(env, snap, m) && Grows(snap, snap')
    ensures Backed(env, snap', m)
  {
    forall r | r in m.repos ensures RepoBacked(env, snap', m.repos[r]) { assert RepoBacked(env, snap, m.repos[r]); }
  }

  lemma NormalizedAgain<T>(cfg: Config<T>, m: Manifest)
    ensures Normalized(Normalized(cfg, m), m) == Normalized(cfg, m)
  {
  }

  /**
   Normalising a normalised configuration again, at any later time over any later store,
   gives the same configuration, exactly when the first input had no hollow payload.
   */
  lemma NormalizeTwice<T>(env: Env, pool: Pool, snap: Snap, cfg: Config<T>, now: int, later: Snap, now': int)
    requires Ready(env, pool, snap) && Covers(env, pool, cfg) && Ready(env, pool, later) && env.Ordered()
    requires var first := Normalize(env, snap, cfg, now); first.result.Ok? && Grows(first.snap, later)
    ensures var first := Normalize(env, snap, cfg, now);
            Normalize(env, later, first.result.value, now').result == Ok(first.result.value) <==> !Hollow(cfg)
  {
    hide Ready, Env.Ordered, Grows, EffectiveManifest, Normalized, Hollow, Backed, Describes, Acceptable, Determines, Covers;
    WholeManifestBuilt(env, pool, snap, cfg, now);
    var out := EffectiveManifest(env, snap, cfg, now);
    var m := out.result.value;
    var again := Normalized(cfg, m);
    DescribesVersion(env, out.snap, cfg, m);
    NormalizedAgain(cfg, m);
    NormalizedIsCovered(env, pool, out.snap, cfg, m);
    BackedExactlyWhenSolid(env, pool, out.snap, cfg, m);
    if !Hollow(cfg) {
      BackedPersists(env, out.snap, later, m);
      SecondPassAccepts(env, later, cfg, m);
      ResultIs(env, pool, later, again, m, now');
    } else {
      WholeManifestBuilt(env, pool, later, again, now');
      var out2 := EffectiveManifest(env, later, again, now');
      if out2.result.Ok? && Normalized(again, out2.result.value) == again {
        SameManifest(again, out2.result.value, cfg, m);
        DescribedIsDetermined(env, out2.snap, again, m);
        HollowBlocks(env, pool, out.snap, out2.snap, cfg, m);
      }
    }
  }

  /** Normalising brings in no content and no tree that was not there. */
  lemma NormalizedIsCovered<T>(env: Env, pool: Pool, snap: Snap, cfg: Config<T>, m: Manifest)
    requires Covers(env, pool, cfg) && Describes(env, snap, cfg, m)
    ensures Covers(env, pool, Normalized(cfg, m))
  {
    hide Covers, RepoReady, RepoStored, DistfileDone, RepoNames, DistNames, BuiltEntries;
    forall r | r in m.repos ensures RefsOf(m.repos[r].entries) in pool.trees {
      assert RepoDone(env, snap, cfg, m, r);
      RepoTreeIsCovered(env, pool, snap.store, cfg, m, r);
    }
    CoveredByItsTrees(env, pool, cfg, m);
  }

  lemma RepoTreeIsCovered<T>(env: Env, pool: Pool, store: Store, cfg: Config<T>, m: Manifest, r: string)
    requires Covers(env, pool, cfg) && r in RepoNames(cfg) && r in m.repos && RepoAsBuilt(env, store, cfg, m, r)
    ensures RefsOf(m.repos[r].entries) in pool.trees
  {
    hide BuiltEntries;
    TreeAsBuilt(env, pool, store, cfg, r);
  }

  lemma CoveredByItsTrees<T>(env: Env, pool: Pool, cfg: Config<T>, m: Manifest)
    requires forall r :: r in m.repos ==> RefsOf(m.repos[r].entries) in pool.trees
    ensures Covers(env, pool, Normalized(cfg, m))
  {
    assert RepoNames(Normalized(cfg, m)) == m.repos.Keys;
  }

  lemma DescribesVersion<T>(env: Env, snap: Snap, cfg: Config<T>, m: Manifest)
    requires Describes(env, snap, cfg, m)
    ensures m.version == MANIFEST_VERSION
  {
  }

  lemma SameManifest<T>(again: Config<T>, m2: Manifest, cfg: Config<T>, m: Manifest)
    requires again == Normalized(cfg, m) && Normalized(again, m2) == again
    ensures m2 == m
  {
  }

  lemma HollowBlocks<T>(env: Env, pool: Pool, snap: Snap, later: Snap, cfg: Config<T>, m: Manifest)
    requires Ready(env, pool, snap) && Covers(env, pool, cfg) && Describes(env, snap, cfg, m) && Hollow(cfg)
    ensures !Determines(env, later.store, Normalized(cfg, m), m)
  {
    hide Ready, RepoDone, DistfileDone, HollowAt, RepoAsBuilt, DistfileAsBuilt, Covers;
    var r :| r in cfg.repoInline && HollowAt(cfg, r);
    HollowRepoIsNotBacked(env, pool, snap, cfg, m, r);
    if Determines(env, later.store, Normalized(cfg, m), m) {
      assert r in RepoNames(Normalized(cfg, m));
      SecondPassNeedsTree(env, later, cfg, m, r);
    }
  }

  lemma ShortWalks(env: Env, pool: Pool, snap: Snap, x: string)
    requires Ready(env, pool, snap)
    ensures env.order({}) == [] && env.order({x}) == [x]
  {
    WalkIsDistinct(env, pool, snap, {});
    WalkIsDistinct(env, pool, snap, {x});
    ListsNothing(env.order({}));
    ListsOne(env.order({x}), x);
  }

  lemma ListsNothing(xs: seq<string>)
    requires forall y :: y in xs <==> y in {}
    ensures xs == []
  {
    FrontIsListed(xs);
  }

  lemma FrontIsListed(xs: seq<string>)
    ensures (|xs| > 0 ==> xs[0] in xs) && (|xs| > 1 ==> xs[1] in xs)
  {
  }

  lemma ListsOne(xs: seq<string>, x: string)
    requires (forall y :: y in xs <==> y in {x}) && forall i, j :: 0 <= i < j < |xs| ==> xs[i] != xs[j]
    ensures xs == [x]
  {
    assert x in xs;
    FrontIsListed(xs);
  }

  function HollowExample<T>(rest: T, digest: string): Config<T> {
    Config(rest, Manifest(MANIFEST_VERSION, map["overlay" := RepoManifest("", map["f" := Entry(digest, 0, 0)])], map[]),
           map["overlay" := map[]], map[], map[], map[], map[])
  }

  /** A hollow payload lets a reference to a file nobody stored through. */
  lemma HollowPayloadHidesMissingFile<T>(env: Env, pool: Pool, snap: Snap, rest: T, digest: string, now: int)
    requires Ready(env, pool, snap) && digest !in snap.store.blobs
    ensures env.Ordered()
    ensures var cfg := HollowExample(rest, digest);
            var out := Normalize(env, snap, cfg, now);
            out.result.Ok? && out.result.value.manifest == cfg.manifest && out.snap.store == snap.store
  {
    hide Ready, Env.Ordered, StoreContents, StoreTree;
    WalkIsDistinct(env, pool, snap, {});
    ShortWalks(env, pool, snap, "overlay");
    var cfg := HollowExample(rest, digest);
    assert RepoNames(cfg) == {"overlay"} && DistNames(cfg) == {};
    assert cfg.repoInline["overlay"].Keys == {};
    EmptyRepo(env, snap, cfg, now);
    var before := BuildRepos(env, snap, cfg, [], now);
    assert ["overlay"][..0] == [];
    assert before == Out(snap, Ok(cfg.manifest));
    var repos := BuildRepos(env, snap, cfg, ["overlay"], now);
    assert repos.result == Ok(cfg.manifest);
    assert BuildDistfiles(env, repos.snap, cfg, cfg.manifest, [], now) == repos;
  }

  lemma EmptyRepo<T>(env: Env, snap: Snap, cfg: Config<T>, now: int)
    requires env.Ordered() && "overlay" in cfg.repoInline && cfg.repoInline["overlay"] == map[] && env.order({}) == []
    requires ExpectedTree(cfg, cfg.manifest, "overlay").None?
    ensures var out := BuildRepo(env, snap, cfg, cfg.manifest, "overlay", now);
            out.result.Ok? && out.result.value.entries == map[] && out.snap.store == snap.store
  {
    assert cfg.repoInline["overlay"].Keys == {};
  }
}

/** What normalisation guarantees, and exactly when. */
module SnapshotProofs {
  import opened Common
  import opened Collections
  import opened Codecs
  import opened BlobStores
  import opened TreeStores
  import opened Snapshots

  /** Stored content never changes or disappears. */
  ghost predicate Grows(s: Snap, s': Snap) {
    && (forall d :: d in s.store.blobs ==> d in s'.store.blobs && s'.store.blobs[d] == s.store.blobs[d])
    && (forall t :: t in s.trees ==> t in s'.trees && s'.trees[t].refs == s.trees[t].refs)
  }

  /** A lawful environment and a sound cache, among contents and trees that do not collide. */
  ghost predicate Ready(env: Env, pool: Pool, snap: Snap) {
    && env.Lawful() && env.forms.CollisionFreeOn(pool)
    && Sound(env.forms.codec, snap.store) && (forall d :: d in snap.store.blobs ==> snap.store.blobs[d] in pool.contents)
    && TreesSound(env.forms, snap.trees) && (forall t :: t in snap.trees ==> snap.trees[t].refs in pool.trees)
  }

  /** The tree of a repository as the configuration has it. */
  function TreeOf<T>(env: Env, cfg: Config<T>, repo: string): Refs {
    if repo in cfg.repoInline then map p | p in cfg.repoInline[repo] :: env.forms.codec.sha256(cfg.repoInline[repo][p])
    else if repo in cfg.manifest.repos then RefsOf(cfg.manifest.repos[repo].entries)
    else RefsFor(cfg.repoRefs, repo)
  }

  predicate AllIn(contents: map<string, Bytes>, pool: set<Bytes>) {
    forall p :: p in contents ==> contents[p] in pool
  }

  /** The inlined contents and the trees of a configuration are among those that occur. */
  ghost predicate Covers<T>(env: Env, pool: Pool, cfg: Config<T>) {
    && (forall r :: r in cfg.repoInline ==> AllIn(cfg.repoInline[r], pool.contents)) && AllIn(cfg.distInline, pool.contents)
    && (forall r :: r in RepoNames(cfg) ==> TreeOf(env, cfg, r) in pool.trees)
    && (forall r :: r in cfg.manifest.repos ==> RefsOf(cfg.manifest.repos[r].entries) in pool.trees)
  }

  lemma StoreAlwaysWorks(env: Env, pool: Pool, snap: Snap, bytes: Bytes, now: int)
    requires Ready(env, pool, snap) && bytes in pool.contents
    ensures var s := StoreBlobForDigest(env.forms.codec, snap.store, env.forms.codec.sha256(bytes), bytes, now);
            && s.outcome.Ok? && Ready(env, pool, snap.(store := s.store)) && Grows(snap, snap.(store := s.store))
            && env.forms.codec.sha256(bytes) in s.store.blobs && s.store.blobs[env.forms.codec.sha256(bytes)] == bytes
  {
    hide TreesSound, Codec.Lawful;
    var d := env.forms.codec.sha256(bytes);
    if d in snap.store.blobs {
      assert BlobSound(env.forms.codec, snap.store, d);
      assert env.forms.codec.Apart(snap.store.blobs[d], bytes);
    }
    StoreKeeps(env.forms.codec, snap.store, d, bytes, now);
    var after := StoreBlobForDigest(env.forms.codec, snap.store, d, bytes, now).store;
    forall e | e in after.blobs ensures after.blobs[e] in pool.contents {
      if e != d { assert e in after.blobs - {d} && (after.blobs - {d})[e] == after.blobs[e]; }
    }
  }

  lemma BlobsAreValid(env: Env, pool: Pool, snap: Snap, d: string)
    requires Ready(env, pool, snap) && d in snap.store.blobs
    ensures ValidDigest(d) && d in snap.store.meta && snap.store.meta[d].rawSize == |snap.store.blobs[d]|
  {
    assert BlobSound(env.forms.codec, snap.store, d);
  }

  // ── One repository, declaratively ─────────────────────────────────

  function InlineEntries(env: Env, inline: map<string, Bytes>, existing: map<string, Entry>): map<string, Entry> {
    map p | p in inline :: Entry(env.forms.codec.sha256(inline[p]), |inline[p]|, MtimeOf(existing, p))
  }

  predicate RefsMatch(env: Env, inline: map<string, Bytes>, refs: Refs, paths: set<string>) {
    forall p :: p in paths && p in inline && p in refs ==> refs[p] == env.forms.codec.sha256(inline[p])
  }

  function SizeIn(store: Store, d: string): nat {
    if d in store.blobs then |store.blobs[d]| else 0
  }

  predicate TreeMatches(env: Env, entries: map<string, Entry>, expected: Option<string>) {
    expected.Some? ==> expected.value == env.TreeDigest(RefsOf(entries))
  }

  /** The entries a repository gets. */
  function BuiltEntries<T>(env: Env, store: Store, cfg: Config<T>, repo: string): map<string, Entry> {
    if repo in cfg.repoInline then InlineEntries(env, cfg.repoInline[repo], ExistingEntries(cfg.manifest, repo))
    else if repo in cfg.manifest.repos then cfg.manifest.repos[repo].entries
    else if repo in cfg.repoRefs then map p | p in cfg.repoRefs[repo] :: Entry(cfg.repoRefs[repo][p], SizeIn(store, cfg.repoRefs[repo][p]), 0)
    else map[]
  }

  function RequiredTree<T>(cfg: Config<T>, repo: string): Option<string> {
    if repo in cfg.repoInline then ExpectedTree(cfg, cfg.manifest, repo)
    else if repo in cfg.manifest.repos then
      (if cfg.manifest.repos[repo].treeDigest != [] then Some(cfg.manifest.repos[repo].treeDigest) else None)
    else NonEmptyDigest(cfg.repoTrees, repo)
  }

  /** When a repository is accepted. */
  predicate RepoReady<T>(env: Env, store: Store, cfg: Config<T>, repo: string) {
    var entries := BuiltEntries(env, store, cfg, repo);
    if repo in cfg.repoInline then
      && RefsMatch(env, cfg.repoInline[repo], RefsFor(cfg.repoRefs, repo), cfg.repoInline[repo].Keys)
      && TreeMatches(env, entries, RequiredTree(cfg, repo))
    else if repo in cfg.manifest.repos || repo in cfg.repoRefs then
      && (forall p :: p in entries ==> entries[p].digest in store.blobs)
      && TreeMatches(env, entries, RequiredTree(cfg, repo))
    else true
  }

  ghost predicate ContentsOutcome(env: Env, pool: Pool, snap: Snap, paths: seq<string>, inline: map<string, Bytes>, refs: Refs,
                                  existing: map<string, Entry>, out: Out<map<string, Entry>>)
    requires forall p :: p in paths ==> p in inline
  {
    && Ready(env, pool, out.snap) && Grows(snap, out.snap) && out.snap.trees == snap.trees
    && (out.result.Ok? <==> RefsMatch(env, inline, refs, set p | p in paths))
    && (out.result.Ok? ==>
          && (forall p :: p in out.result.value <==> p in paths)
          && forall p :: p in paths ==>
               && out.result.value[p] == InlineEntries(env, inline, existing)[p]
               && env.forms.codec.sha256(inline[p]) in out.snap.store.blobs)
  }

  lemma {:induction false} ContentsStored(env: Env, pool: Pool, snap: Snap, paths: seq<string>, inline: map<string, Bytes>, refs: Refs,
                                          existing: map<string, Entry>, now: int)
    requires Ready(env, pool, snap) && AllIn(inline, pool.contents) && forall p :: p in paths ==> p in inline
    ensures ContentsOutcome(env, pool, snap, paths, inline, refs, existing, StoreContents(env, snap, paths, inline, refs, existing, now))
    decreases |paths|
  {
    hide StoreContent, ContentsOutcome;
    if paths == [] {
      NoContents(env, pool, snap, inline, refs, existing);
    } else {
      var n := |paths| - 1;
      var before := StoreContents(env, snap, paths[..n], inline, refs, existing, now);
      ContentsStored(env, pool, snap, paths[..n], inline, refs, existing, now);
      OneMoreContent(env, pool, snap, paths, before, inline, refs, existing, now);
    }
  }

  lemma NoContents(env: Env, pool: Pool, snap: Snap, inline: map<string, Bytes>, refs: Refs, existing: map<string, Entry>)
    requires Ready(env, pool, snap)
    ensures ContentsOutcome(env, pool, snap, [], inline, refs, existing, Out(snap, Ok(map[])))
  {
  }

  lemma LastOrEarlier(paths: seq<string>)
    requires paths != []
    ensures forall p :: p in paths <==> p in paths[..|paths| - 1] || p == paths[|paths| - 1]
  {
  }

  lemma PrefixMatches(env: Env, inline: map<string, Bytes>, refs: Refs, paths: seq<string>)
    requires paths != [] && forall p :: p in paths ==> p in inline
    ensures var n := |paths| - 1;
            RefsMatch(env, inline, refs, set p | p in paths) <==>
            RefsMatch(env, inline, refs, set p | p in paths[..n]) && (paths[n] in refs ==> refs[paths[n]] == env.forms.codec.sha256(inline[paths[n]]))
  {
    LastOrEarlier(paths);
  }

  lemma OneMoreContent(env: Env, pool: Pool, snap: Snap, paths: seq<string>, before: Out<map<string, Entry>>, inline: map<string, Bytes>, refs: Refs,
                       existing: map<string, Entry>, now: int)
    requires paths != [] && AllIn(inline, pool.contents) && (forall p :: p in paths ==> p in inline)
    requires ContentsOutcome(env, pool, snap, paths[..|paths| - 1], inline, refs, existing, before)
    ensures ContentsOutcome(env, pool, snap, paths, inline, refs, existing,
              if before.result.Err? then before
              else StoreContent(env, before.snap, before.result.value, paths[|paths| - 1], inline, refs, existing, now))
  {
    hide StoreBlobForDigest, Ready, RefsMatch, Grows;
    var last := paths[|paths| - 1];
    LastOrEarlier(paths);
    PrefixMatches(env, inline, refs, paths);
    if before.result.Ok? {
      StoreAlwaysWorks(env, pool, before.snap, inline[last], now);
      var out := StoreContent(env, before.snap, before.result.value, last, inline, refs, existing, now);
      GrowsTransitive(snap, before.snap, out.snap);
      if out.result.Ok? {
        forall p | p in paths ensures env.forms.codec.sha256(inline[p]) in out.snap.store.blobs {
          if p != last { StillStored(before.snap, out.snap, env.forms.codec.sha256(inline[p])); }
        }
      }
    }
  }

  lemma StillStored(s: Snap, s': Snap, d: string)
    requires Grows(s, s') && d in s.store.blobs
    ensures d in s'.store.blobs
  {
  }

  /** Building a repository: accepted exactly when ready, and what comes out. */
  ghost predicate RepoOutcome<T>(env: Env, pool: Pool, snap: Snap, cfg: Config<T>, repo: string, out: Out<RepoManifest>) {
    var entries := BuiltEntries(env, snap.store, cfg, repo);
    && Ready(env, pool, out.snap) && Grows(snap, out.snap)
    && (out.result.Ok? <==> RepoReady(env, snap.store, cfg, repo))
    && (out.result.Ok? ==> out.result.value.entries == entries)
    && (out.result.Ok? && repo in RepoNames(cfg) ==>
          && out.result.value.treeDigest == env.TreeDigest(RefsOf(entries)) && out.result.value.treeDigest in out.snap.trees
          && forall p :: p in entries ==> entries[p].digest in out.snap.store.blobs)
  }

  lemma FinishKeeps(env: Env, pool: Pool, snap: Snap, entries: map<string, Entry>, expected: Option<string>, now: int)
    requires Ready(env, pool, snap) && RefsOf(entries) in pool.trees
    ensures var out := FinishRepo(env, snap, entries, expected, now);
            && Ready(env, pool, out.snap) && Grows(snap, out.snap) && out.snap.store == snap.store
            && (out.result.Ok? <==> TreeMatches(env, entries, expected))
            && (out.result.Ok? ==> out.result.value == RepoManifest(env.TreeDigest(RefsOf(entries)), entries)
                                   && env.TreeDigest(RefsOf(entries)) in out.snap.trees)
  {
    hide Sound, Codec.Lawful, StoreTree, Codec.CollisionFreeOn;
    StoredTreeIsFound(env.forms, snap.trees, RefsOf(entries), now);
  }

  lemma OrderCovers(env: Env, pool: Pool, snap: Snap, keys: set<string>)
    requires Ready(env, pool, snap)
    ensures env.Ordered() && forall p :: p in env.order(keys) <==> p in keys
  {
  }

  lemma TreeAsBuilt<T>(env: Env, pool: Pool, store: Store, cfg: Config<T>, repo: string)
    requires Covers(env, pool, cfg) && repo in RepoNames(cfg)
    ensures RefsOf(BuiltEntries(env, store, cfg, repo)) in pool.trees
  {
    assert RefsOf(BuiltEntries(env, store, cfg, repo)) == TreeOf(env, cfg, repo);
  }

  lemma InlinedIsCovered<T>(env: Env, pool: Pool, cfg: Config<T>, repo: string)
    requires Covers(env, pool, cfg) && repo in cfg.repoInline
    ensures AllIn(cfg.repoInline[repo], pool.contents) && repo in RepoNames(cfg)
  {
  }

  lemma InlineBuilt<T>(env: Env, pool: Pool, snap: Snap, cfg: Config<T>, repo: string, now: int)
    requires Ready(env, pool, snap) && Covers(env, pool, cfg) && repo in cfg.repoInline
    ensures RepoOutcome(env, pool, snap, cfg, repo, BuildRepo(env, snap, cfg, cfg.manifest, repo, now))
  {
    hide StoreContents, Ready, Env.Ordered, RefsMatch, Grows, FinishRepo, RepoOutcome, Covers, AllIn, RepoNames;
    InlinedIsCovered(env, pool, cfg, repo);
    var inline := cfg.repoInline[repo];
    var paths := env.order(inline.Keys);
    OrderCovers(env, pool, snap, inline.Keys);
    var existing := ExistingEntries(cfg.manifest, repo);
    ContentsStored(env, pool, snap, paths, inline, RefsFor(cfg.repoRefs, repo), existing, now);
    assert (set p | p in paths) == inline.Keys;
    var stored := StoreContents(env, snap, paths, inline, RefsFor(cfg.repoRefs, repo), existing, now);
    if stored.result.Ok? {
      assert stored.result.value == InlineEntries(env, inline, existing);
      TreeAsBuilt(env, pool, snap.store, cfg, repo);
      assert forall p :: p in inline ==> p in paths;
      FinishKeeps(env, pool, stored.snap, stored.result.value, ExpectedTree(cfg, cfg.manifest, repo), now);
      GrowsTransitive(snap, stored.snap, FinishRepo(env, stored.snap, stored.result.value, ExpectedTree(cfg, cfg.manifest, repo), now).snap);
    }
    InlineFinished(env, pool, snap, cfg, repo, stored, BuildRepo(env, snap, cfg, cfg.manifest, repo, now));
  }

  lemma InlineFinished<T>(env: Env, pool: Pool, snap: Snap, cfg: Config<T>, repo: string, stored: Out<map<string, Entry>>, out: Out<RepoManifest>)
    requires repo in cfg.repoInline
    requires Ready(env, pool, stored.snap) && Grows(snap, stored.snap)
    requires stored.result.Ok? <==> RefsMatch(env, cfg.repoInline[repo], RefsFor(cfg.repoRefs, repo), cfg.repoInline[repo].Keys)
    requires stored.result.Err? ==> out.result.Err? && out.snap == stored.snap
    requires var inline := cfg.repoInline[repo];
             var entries := InlineEntries(env, inline, ExistingEntries(cfg.manifest, repo));
             var expected := ExpectedTree(cfg, cfg.manifest, repo);
             stored.result.Ok? ==>
               && (forall p :: p in inline ==> env.forms.codec.sha256(inline[p]) in stored.snap.store.blobs)
               && Ready(env, pool, out.snap) && Grows(snap, out.snap) && out.snap.store == stored.snap.store
               && (out.result.Ok? <==> TreeMatches(env, entries, expected))
               && (out.result.Ok? ==> out.result.value == RepoManifest(env.TreeDigest(RefsOf(entries)), entries)
                                      && env.TreeDigest(RefsOf(entries)) in out.snap.trees)
    ensures RepoOutcome(env, pool, snap, cfg, repo, out)
  {
    hide Ready, Grows, RefsMatch, TreeMatches;
  }

  lemma ManifestBuilt<T>(env: Env, pool: Pool, snap: Snap, cfg: Config<T>, repo: string, now: int)
    requires Ready(env, pool, snap) && Covers(env, pool, cfg) && repo !in cfg.repoInline && repo in cfg.manifest.repos
    ensures RepoOutcome(env, pool, snap, cfg, repo, BuildRepo(env, snap, cfg, cfg.manifest, repo, now))
  {
    hide Ready, Env.Ordered, ValidDigest, Grows, FinishRepo, Covers;
    TreeAsBuilt(env, pool, snap.store, cfg, repo);
    OrderCovers(env, pool, snap, {});
    var existing := cfg.manifest.repos[repo];
    GrowsReflexive(snap);
    StoredMeansInStore(env, pool, snap, existing.entries);
    FinishKeeps(env, pool, snap, existing.entries, if existing.treeDigest != [] then Some(existing.treeDigest) else None, now);
  }

  lemma StoredMeansInStore(env: Env, pool: Pool, snap: Snap, entries: map<string, Entry>)
    requires Ready(env, pool, snap)
    ensures AllStored(snap.store, entries) <==> forall p :: p in entries ==> entries[p].digest in snap.store.blobs
  {
    hide Ready, ValidDigest;
    forall p | p in entries && entries[p].digest in snap.store.blobs ensures ValidDigest(entries[p].digest) {
      BlobsAreValid(env, pool, snap, entries[p].digest);
    }
  }

  lemma RefsBuilt<T>(env: Env, pool: Pool, snap: Snap, cfg: Config<T>, repo: string, now: int)
    requires Ready(env, pool, snap) && Covers(env, pool, cfg) && repo !in cfg.repoInline && repo !in cfg.manifest.repos && repo in cfg.repoRefs
    ensures RepoOutcome(env, pool, snap, cfg, repo, BuildRepo(env, snap, cfg, cfg.manifest, repo, now))
  {
    hide Ready, Env.Ordered, AllRecorded, Grows, FinishRepo, Covers, RefsOf, TreeMatches, BuiltEntries;
    TreeAsBuilt(env, pool, snap.store, cfg, repo);
    OrderCovers(env, pool, snap, {});
    GrowsReflexive(snap);
    RefsAsBuilt(env, pool, snap, cfg, repo);
    FinishKeeps(env, pool, snap, BuiltEntries(env, snap.store, cfg, repo), NonEmptyDigest(cfg.repoTrees, repo), now);
  }

  /** The entries made from references are those described, and recorded exactly when stored. */
  lemma RefsAsBuilt<T>(env: Env, pool: Pool, snap: Snap, cfg: Config<T>, repo: string)
    requires Ready(env, pool, snap) && repo !in cfg.repoInline && repo !in cfg.manifest.repos && repo in cfg.repoRefs
    ensures var refs, entries := cfg.repoRefs[repo], BuiltEntries(env, snap.store, cfg, repo);
            && (AllRecorded(snap.store, refs) <==> forall p :: p in entries ==> entries[p].digest in snap.store.blobs)
            && (AllRecorded(snap.store, refs) ==> (map p | p in refs :: Entry(refs[p], snap.store.meta[refs[p]].rawSize, 0)) == entries)
  {
    hide Ready, ValidDigest;
    var refs, entries := cfg.repoRefs[repo], BuiltEntries(env, snap.store, cfg, repo);
    RecordedIsStored(env, pool, snap, refs);
    assert entries.Keys == refs.Keys && forall p :: p in refs ==> entries[p].digest == refs[p];
  }

  lemma RecordedIsStored(env: Env, pool: Pool, snap: Snap, refs: Refs)
    requires Ready(env, pool, snap)
    ensures AllRecorded(snap.store, refs) <==> forall p :: p in refs ==> refs[p] in snap.store.blobs
    ensures AllRecorded(snap.store, refs) ==> forall p :: p in refs ==> refs[p] in snap.store.meta && snap.store.meta[refs[p]].rawSize == SizeIn(snap.store, refs[p])
  {
    forall p | p in refs && refs[p] in snap.store.blobs
      ensures ValidDigest(refs[p]) && refs[p] in snap.store.meta && snap.store.meta[refs[p]].rawSize == SizeIn(snap.store, refs[p])
    {
      BlobsAreValid(env, pool, snap, refs[p]);
    }
  }

  lemma RepoBuilt<T>(env: Env, pool: Pool, snap: Snap, cfg: Config<T>, repo: string, now: int)
    requires Ready(env, pool, snap) && Covers(env, pool, cfg)
    ensures RepoOutcome(env, pool, snap, cfg, repo, BuildRepo(env, snap, cfg, cfg.manifest, repo, now))
  {
    hide Covers;
    if repo in cfg.repoInline {
      InlineBuilt(env, pool, snap, cfg, repo, now);
    } else if repo in cfg.manifest.repos {
      ManifestBuilt(env, pool, snap, cfg, repo, now);
    } else if repo in cfg.repoRefs {
      RefsBuilt(env, pool, snap, cfg, repo, now);
    }
  }

  /** Readiness and entries survive growth of the store. */
  lemma ReadyPersists<T>(env: Env, snap: Snap, snap': Snap, cfg: Config<T>, repo: string)
    requires Grows(snap, snap') && RepoReady(env, snap.store, cfg, repo)
    ensures RepoReady(env, snap'.store, cfg, repo) && BuiltEntries(env, snap'.store, cfg, repo) == BuiltEntries(env, snap.store, cfg, repo)
  {
    var before := BuiltEntries(env, snap.store, cfg, repo);
    if repo !in cfg.repoInline && repo !in cfg.manifest.repos && repo in cfg.repoRefs {
      forall p | p in cfg.repoRefs[repo] ensures SizeIn(snap'.store, cfg.repoRefs[repo][p]) == SizeIn(snap.store, cfg.repoRefs[repo][p]) {
        assert before[p].digest in snap.store.blobs;
      }
    }
    assert BuiltEntries(env, snap'.store, cfg, repo) == before;
  }

  lemma OnlyOwnEntryMatters<T>(env: Env, snap: Snap, cfg: Config<T>, m: Manifest, repo: string, now: int)
    requires env.Ordered() && (repo in m.repos <==> repo in cfg.manifest.repos) && (repo in m.repos ==> m.repos[repo] == cfg.manifest.repos[repo])
    ensures BuildRepo(env, snap, cfg, m, repo, now) == BuildRepo(env, snap, cfg, cfg.manifest, repo, now)
  {
  }

  // ── All repositories ──────────────────────────────────────────────

  /** The manifest has what the configuration determines for this repository. */
  predicate RepoAsBuilt<T>(env: Env, store: Store, cfg: Config<T>, m: Manifest, repo: string) {
    var entries := BuiltEntries(env, store, cfg, repo);
    if entries != map[] then repo in m.repos && m.repos[repo] == RepoManifest(env.TreeDigest(RefsOf(entries)), entries)
    else (repo in m.repos <==> repo in cfg.manifest.repos) && (repo in m.repos ==> m.repos[repo] == cfg.manifest.repos[repo])
  }

  predicate RepoUntouched<T>(cfg: Config<T>, m: Manifest, repo: string) {
    (repo in m.repos <==> repo in cfg.manifest.repos) && (repo in m.repos ==> m.repos[repo] == cfg.manifest.repos[repo])
  }

  predicate RepoStored<T>(env: Env, snap: Snap, cfg: Config<T>, repo: string) {
    var entries := BuiltEntries(env, snap.store, cfg, repo);
    && (forall p :: p in entries ==> entries[p].digest in snap.store.blobs)
    && env.TreeDigest(RefsOf(entries)) in snap.trees
  }

  predicate RepoDone<T>(env: Env, snap: Snap, cfg: Config<T>, m: Manifest, repo: string) {
    RepoReady(env, snap.store, cfg, repo) && RepoAsBuilt(env, snap.store, cfg, m, repo) && RepoStored(env, snap, cfg, repo)
  }

  lemma RepoDonePersists<T>(env: Env, snap: Snap, snap': Snap, cfg: Config<T>, m: Manifest, m': Manifest, repo: string)
    requires Grows(snap, snap') && RepoDone(env, snap, cfg, m, repo)
    requires (repo in m'.repos <==> repo in m.repos) && (repo in m.repos ==> m'.repos[repo] == m.repos[repo])
    ensures RepoDone(env, snap', cfg, m', repo)
  {
    hide BuiltEntries, RepoReady;
    ReadyPersists(env, snap, snap', cfg, repo);
  }

  /** The manifest after one more repository. */
  function WithRepo(m: Manifest, repo: string, built: RepoManifest): Manifest {
    if built.entries == map[] then m else m.(repos := m.repos[repo := built])
  }

  lemma RepoJustDone<T>(env: Env, pool: Pool, snap: Snap, cfg: Config<T>, m: Manifest, repo: string, out: Out<RepoManifest>)
    requires RepoOutcome(env, pool, snap, cfg, repo, out) && out.result.Ok? && repo in RepoNames(cfg) && RepoUntouched(cfg, m, repo)
    ensures RepoDone(env, out.snap, cfg, WithRepo(m, repo, out.result.value), repo)
  {
    hide BuiltEntries, RepoReady, Ready;
    ReadyPersists(env, snap, out.snap, cfg, repo);
  }

  ghost predicate ReposOutcome<T>(env: Env, pool: Pool, snap: Snap, cfg: Config<T>, repos: seq<string>, out: Out<Manifest>) {
    && Ready(env, pool, out.snap) && Grows(snap, out.snap)
    && (out.result.Ok? ==>
          var m := out.result.value;
          && m.version == cfg.manifest.version && m.distfiles == cfg.manifest.distfiles
          && (forall r :: r !in repos ==> RepoUntouched(cfg, m, r))
          && (forall r :: r in repos ==> RepoDone(env, out.snap, cfg, m, r)))
    && ((forall r :: r in repos ==> RepoReady(env, snap.store, cfg, r)) ==> out.result.Ok?)
  }

  lemma GrowsReflexive(a: Snap)
    ensures Grows(a, a)
  {
  }

  lemma GrowsTransitive(a: Snap, b: Snap, c: Snap)
    requires Grows(a, b) && Grows(b, c)
    ensures Grows(a, c)
  {
  }

  lemma {:induction false} ReposBuilt<T>(env: Env, pool: Pool, snap: Snap, cfg: Config<T>, repos: seq<string>, now: int)
    requires Ready(env, pool, snap) && Covers(env, pool, cfg)
    requires (forall i, j :: 0 <= i < j < |repos| ==> repos[i] != repos[j]) && forall r :: r in repos ==> r in RepoNames(cfg)
    ensures ReposOutcome(env, pool, snap, cfg, repos, BuildRepos(env, snap, cfg, repos, now))
    decreases |repos|
  {
    if repos != [] {
      var n := |repos| - 1;
      var r := repos[n];
      var before := BuildRepos(env, snap, cfg, repos[..n], now);
      ReposBuilt(env, pool, snap, cfg, repos[..n], now);
      assert forall q :: q in repos <==> q in repos[..n] || q == r;
      LastIsNew(repos);
      if before.result.Ok? {
        assert RepoUntouched(cfg, before.result.value, r);
        OnlyOwnEntryMatters(env, before.snap, cfg, before.result.value, r, now);
        RepoBuilt(env, pool, before.snap, cfg, r, now);
        ExtendRepos(env, pool, snap, cfg, repos, now);
      }
    }
  }

  lemma LastIsNew(xs: seq<string>)
    requires xs != [] && forall i, j :: 0 <= i < j < |xs| ==> xs[i] != xs[j]
    ensures xs[|xs| - 1] !in xs[..|xs| - 1]
  {
  }

  lemma ExtendRepos<T>(env: Env, pool: Pool, snap: Snap, cfg: Config<T>, repos: seq<string>, now: int)
    requires Ready(env, pool, snap) && repos != [] && (forall i, j :: 0 <= i < j < |repos| ==> repos[i] != repos[j])
    requires var n := |repos| - 1;
             var before := BuildRepos(env, snap, cfg, repos[..n], now);
             && ReposOutcome(env, pool, snap, cfg, repos[..n], before) && before.result.Ok? && repos[n] in RepoNames(cfg)
             && BuildRepo(env, before.snap, cfg, before.result.value, repos[n], now) == BuildRepo(env, before.snap, cfg, cfg.manifest, repos[n], now)
             && RepoOutcome(env, pool, before.snap, cfg, repos[n], BuildRepo(env, before.snap, cfg, cfg.manifest, repos[n], now))
    ensures ReposOutcome(env, pool, snap, cfg, repos, BuildRepos(env, snap, cfg, repos, now))
  {
    hide RepoReady, RepoDone, BuildRepo, Ready, Grows, Env.Ordered;
    OrderCovers(env, pool, snap, {});
    LastIsNew(repos);
    var n := |repos| - 1;
    var r := repos[n];
    var before := BuildRepos(env, snap, cfg, repos[..n], now);
    var m := before.result.value;
    var built := BuildRepo(env, before.snap, cfg, cfg.manifest, r, now);
    var out := BuildRepos(env, snap, cfg, repos, now);
    assert forall q :: q in repos <==> q in repos[..n] || q == r;
    GrowsTransitive(snap, before.snap, built.snap);
    assert out.snap == built.snap;
    if RepoReady(env, snap.store, cfg, r) { ReadyPersists(env, snap, before.snap, cfg, r); }
    if out.result.Ok? {
      assert out.result.value == WithRepo(m, r, built.result.value);
      assert RepoUntouched(cfg, m, r);
      RepoJustDone(env, pool, before.snap, cfg, m, r, built);
      forall q | q in repos[..n] ensures RepoDone(env, out.snap, cfg, out.result.value, q) {
        RepoDonePersists(env, before.snap, built.snap, cfg, m, out.result.value, q);
      }
    }
  }

  // ── All distfiles ─────────────────────────────────────────────────

  function BuiltDistfile<T>(env: Env, store: Store, cfg: Config<T>, name: string): Option<Entry> {
    if name in cfg.distInline then
      Some(Entry(env.forms.codec.sha256(cfg.distInline[name]), |cfg.distInline[name]|, MtimeOf(cfg.manifest.distfiles, name)))
    else if name in cfg.manifest.distfiles then Some(cfg.manifest.distfiles[name])
    else if name in cfg.distRefs then Some(Entry(cfg.distRefs[name], SizeIn(store, cfg.distRefs[name]), 0))
    else None
  }

  predicate DistfileReady<T>(env: Env, store: Store, cfg: Config<T>, name: string) {
    if name in cfg.distInline then name in cfg.distRefs ==> cfg.distRefs[name] == env.forms.codec.sha256(cfg.distInline[name])
    else BuiltDistfile(env, store, cfg, name).Some? ==> BuiltDistfile(env, store, cfg, name).value.digest in store.blobs
  }

  ghost predicate DistfileOutcome<T>(env: Env, pool: Pool, snap: Snap, cfg: Config<T>, name: string, out: Out<Option<Entry>>) {
    var built := BuiltDistfile(env, snap.store, cfg, name);
    && Ready(env, pool, out.snap) && Grows(snap, out.snap)
    && (out.result.Ok? <==> DistfileReady(env, snap.store, cfg, name))
    && (out.result.Ok? ==> out.result.value == built && (built.Some? ==> built.value.digest in out.snap.store.blobs))
  }

  lemma DistfileBuilt<T>(env: Env, pool: Pool, snap: Snap, cfg: Config<T>, m: Manifest, name: string, now: int)
    requires Ready(env, pool, snap) && AllIn(cfg.distInline, pool.contents) && (name in m.distfiles <==> name in cfg.manifest.distfiles)
    requires name in m.distfiles ==> m.distfiles[name] == cfg.manifest.distfiles[name]
    ensures DistfileOutcome(env, pool, snap, cfg, name, BuildDistfile(env, snap, cfg, m, name, now))
  {
    if name in cfg.distInline {
      StoreAlwaysWorks(env, pool, snap, cfg.distInline[name], now);
    } else {
      var built := BuiltDistfile(env, snap.store, cfg, name);
      if built.Some? && built.value.digest in snap.store.blobs { BlobsAreValid(env, pool, snap, built.value.digest); }
    }
  }

  lemma DistfileReadyPersists<T>(env: Env, snap: Snap, snap': Snap, cfg: Config<T>, name: string)
    requires Grows(snap, snap') && DistfileReady(env, snap.store, cfg, name)
    ensures DistfileReady(env, snap'.store, cfg, name) && BuiltDistfile(env, snap'.store, cfg, name) == BuiltDistfile(env, snap.store, cfg, name)
  {
  }

  predicate DistfileAsBuilt<T>(env: Env, store: Store, cfg: Config<T>, m: Manifest, name: string) {
    var built := BuiltDistfile(env, store, cfg, name);
    (name in m.distfiles <==> built.Some?) && (built.Some? ==> m.distfiles[name] == built.value && built.value.digest in store.blobs)
  }

  predicate DistfileDone<T>(env: Env, snap: Snap, cfg: Config<T>, m: Manifest, name: string) {
    DistfileReady(env, snap.store, cfg, name) && DistfileAsBuilt(env, snap.store, cfg, m, name)
  }

  predicate DistfileUntouched<T>(cfg: Config<T>, m: Manifest, name: string) {
    (name in m.distfiles <==> name in cfg.manifest.distfiles) && (name in m.distfiles ==> m.distfiles[name] == cfg.manifest.distfiles[name])
  }

  lemma DistfileDonePersists<T>(env: Env, snap: Snap, snap': Snap, cfg: Config<T>, m: Manifest, m': Manifest, name: string)
    requires Grows(snap, snap') && DistfileDone(env, snap, cfg, m, name)
    requires (name in m'.distfiles <==> name in m.distfiles) && (name in m.distfiles ==> m'.distfiles[name] == m.distfiles[name])
    ensures DistfileDone(env, snap', cfg, m', name)
  {
    hide BuiltDistfile, DistfileReady;
    DistfileReadyPersists(env, snap, snap', cfg, name);
  }

  function WithDistfile(m: Manifest, name: string, built: Option<Entry>): Manifest {
    if built.None? then m else m.(distfiles := m.distfiles[name := built.value])
  }

  lemma DistfileJustDone<T>(env: Env, pool: Pool, snap: Snap, cfg: Config<T>, m: Manifest, name: string, out: Out<Option<Entry>>)
    requires DistfileOutcome(env, pool, snap, cfg, name, out) && out.result.Ok? && DistfileUntouched(cfg, m, name)
    ensures DistfileDone(env, out.snap, cfg, WithDistfile(m, name, out.result.value), name)
  {
    DistfileReadyPersists(env, snap, out.snap, cfg, name);
  }

  ghost predicate DistfilesOutcome<T>(env: Env, pool: Pool, snap: Snap, cfg: Config<T>, start: Manifest, names: seq<string>, out: Out<Manifest>) {
    && Ready(env, pool, out.snap) && Grows(snap, out.snap)
    && (out.result.Ok? ==>
          var m := out.result.value;
          && m.version == start.version && m.repos == start.repos
          && (forall n :: n !in names ==> DistfileUntouched(cfg, m, n))
          && (forall n :: n in names ==> DistfileDone(env, out.snap, cfg, m, n)))
    && ((forall n :: n in names ==> DistfileReady(env, snap.store, cfg, n)) ==> out.result.Ok?)
  }

  lemma {:induction false} DistfilesBuilt<T>(env: Env, pool: Pool, snap: Snap, cfg: Config<T>, start: Manifest, names: seq<string>, now: int)
    requires Ready(env, pool, snap) && AllIn(cfg.distInline, pool.contents) && start.distfiles == cfg.manifest.distfiles
    requires forall i, j :: 0 <= i < j < |names| ==> names[i] != names[j]
    ensures DistfilesOutcome(env, pool, snap, cfg, start, names, BuildDistfiles(env, snap, cfg, start, names, now))
    decreases |names|
  {
    if names != [] {
      var k := |names| - 1;
      DistfilesBuilt(env, pool, snap, cfg, start, names[..k], now);
      assert forall q :: q in names <==> q in names[..k] || q == names[k];
      LastIsNew(names);
      var before := BuildDistfiles(env, snap, cfg, start, names[..k], now);
      if before.result.Ok? {
        assert DistfileUntouched(cfg, before.result.value, names[k]);
        DistfileBuilt(env, pool, before.snap, cfg, before.result.value, names[k], now);
        ExtendDistfiles(env, pool, snap, cfg, start, names, now);
      }
    }
  }

  lemma ExtendDistfiles<T>(env: Env, pool: Pool, snap: Snap, cfg: Config<T>, start: Manifest, names: seq<string>, now: int)
    requires Ready(env, pool, snap) && names != [] && forall i, j :: 0 <= i < j < |names| ==> names[i] != names[j]
    requires var k := |names| - 1;
             var before := BuildDistfiles(env, snap, cfg, start, names[..k], now);
             && DistfilesOutcome(env, pool, snap, cfg, start, names[..k], before) && before.result.Ok?
             && DistfileOutcome(env, pool, before.snap, cfg, names[k], BuildDistfile(env, before.snap, cfg, before.result.value, names[k], now))
    ensures DistfilesOutcome(env, pool, snap, cfg, start, names, BuildDistfiles(env, snap, cfg, start, names, now))
  {
    hide DistfileReady, DistfileDone, BuildDistfile, Ready, Grows;
    LastIsNew(names);
    var k := |names| - 1;
    var name := names[k];
    var before := BuildDistfiles(env, snap, cfg, start, names[..k], now);
    var m := before.result.value;
    var built := BuildDistfile(env, before.snap, cfg, m, name, now);
    var out := BuildDistfiles(env, snap, cfg, start, names, now);
    assert forall q :: q in names <==> q in names[..k] || q == name;
    GrowsTransitive(snap, before.snap, built.snap);
    assert out.snap == built.snap;
    if DistfileReady(env, snap.store, cfg, name) { DistfileReadyPersists(env, snap, before.snap, cfg, name); }
    if out.result.Ok? {
      assert out.result.value == WithDistfile(m, name, built.result.value);
      assert DistfileUntouched(cfg, m, name);
      DistfileJustDone(env, pool, before.snap, cfg, m, name, built);
      forall q | q in names[..k] ensures DistfileDone(env, out.snap, cfg, out.result.value, q) {
        DistfileDonePersists(env, before.snap, built.snap, cfg, m, out.result.value, q);
      }
    }
  }
}

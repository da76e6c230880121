/**
 Snapshot normalisation: inline payloads, embedded manifests and bare references all
 collapse to one manifest-backed form whose contents live in the blob and tree stores.
 */
module Snapshots {
  import opened Common
  import opened Collections
  import opened Codecs
  import opened BlobStores
  import opened TreeStores

  const MANIFEST_VERSION: nat := 1

  datatype Entry = Entry(digest: string, size: nat, mtime: int)

  datatype RepoManifest = RepoManifest(treeDigest: string, entries: map<string, Entry>)

  datatype Manifest = Manifest(version: nat, repos: map<string, RepoManifest>, distfiles: map<string, Entry>)

  /** `rest` stands for the configuration fields that normalisation copies unchanged. */
  datatype Config<T> = Config(
    rest: T,
    manifest: Manifest,
    repoInline: map<string, map<string, Bytes>>,
    repoRefs: map<string, Refs>,
    repoTrees: map<string, string>,
    distInline: map<string, Bytes>,
    distRefs: Refs
  )

  /** Hashing of blobs and of trees, and the order in which ordered maps are walked. */
  datatype Env = Env(forms: Forms, order: set<string> -> seq<string>) {
    function TreeDigest(refs: Refs): string {
      forms.TreeDigest(refs)
    }

    ghost predicate Ordered() {
      Walks(order)
    }

    ghost predicate Lawful() {
      forms.codec.Lawful() && Ordered()
    }
  }

  datatype NormalizeError =
    | UnsupportedManifestVersion
    | StoreError(cause: StoreError)
    | RefsMismatch
    | TreeMismatch
    | MissingReference
    | DistfileMismatch

  datatype Out<+T> = Out(snap: Snap, result: Result<T, NormalizeError>)

  function RefsOf(entries: map<string, Entry>): Refs {
    map p | p in entries :: entries[p].digest
  }

  // ── One repository ────────────────────────────────────────────────

  function MtimeOf(existing: map<string, Entry>, path: string): int {
    if path in existing then existing[path].mtime else 0
  }

  /** Stores the payloads one after another and collects their entries. */
  function StoreContents(env: Env, snap: Snap, paths: seq<string>, inline: map<string, Bytes>, refs: Refs,
                         existing: map<string, Entry>, now: int): Out<map<string, Entry>>
    requires forall p :: p in paths ==> p in inline
    decreases |paths|
  {
    if paths == [] then Out(snap, Ok(map[]))
    else
      var n := |paths| - 1;
      var before := StoreContents(env, snap, paths[..n], inline, refs, existing, now);
      if before.result.Err? then before else StoreContent(env, before.snap, before.result.value, paths[n], inline, refs, existing, now)
  }

  function StoreContent(env: Env, snap: Snap, entries: map<string, Entry>, path: string, inline: map<string, Bytes>, refs: Refs,
                        existing: map<string, Entry>, now: int): Out<map<string, Entry>>
    requires path in inline
  {
    var digest := env.forms.codec.sha256(inline[path]);
    var s := StoreBlobForDigest(env.forms.codec, snap.store, digest, inline[path], now);
    var snap' := snap.(store := s.store);
    if s.outcome.Err? then Out(snap', Err(StoreError(s.outcome.error)))
    else if path in refs && refs[path] != digest then Out(snap', Err(RefsMismatch))
    else Out(snap', Ok(entries[path := Entry(digest, |inline[path]|, MtimeOf(existing, path))]))
  }

  function ExistingEntries(manifest: Manifest, repo: string): map<string, Entry> {
    if repo in manifest.repos then manifest.repos[repo].entries else map[]
  }

  function RefsFor(m: map<string, Refs>, repo: string): Refs {
    if repo in m then m[repo] else map[]
  }

  function NonEmptyDigest(m: map<string, string>, repo: string): Option<string> {
    if repo in m && m[repo] != [] then Some(m[repo]) else None
  }

  /** The tree digest an inline payload must match: the manifest's, else the recorded one. */
  function ExpectedTree<T>(cfg: Config<T>, manifest: Manifest, repo: string): Option<string> {
    if repo in manifest.repos && manifest.repos[repo].treeDigest != [] then Some(manifest.repos[repo].treeDigest)
    else NonEmptyDigest(cfg.repoTrees, repo)
  }

  predicate AllStored(store: Store, entries: map<string, Entry>) {
    forall p :: p in entries ==> ValidDigest(entries[p].digest) && entries[p].digest in store.blobs
  }

  predicate AllRecorded(store: Store, refs: Refs) {
    forall p :: p in refs ==> ValidDigest(refs[p]) && refs[p] in store.meta
  }

  function FinishRepo(env: Env, snap: Snap, entries: map<string, Entry>, expected: Option<string>, now: int): Out<RepoManifest> {
    var tree := env.TreeDigest(RefsOf(entries));
    var snap' := snap.(trees := StoreTree(env.forms, snap.trees, RefsOf(entries), now));
    if expected.Some? && expected.value != tree then Out(snap', Err(TreeMismatch))
    else Out(snap', Ok(RepoManifest(tree, entries)))
  }

  function BuildRepo<T>(env: Env, snap: Snap, cfg: Config<T>, manifest: Manifest, repo: string, now: int): Out<RepoManifest>
    requires env.Ordered()
  {
    if repo in cfg.repoInline then
      var inline := cfg.repoInline[repo];
      var stored := StoreContents(env, snap, env.order(inline.Keys), inline, RefsFor(cfg.repoRefs, repo), ExistingEntries(manifest, repo), now);
      if stored.result.Err? then Out(stored.snap, Err(stored.result.error))
      else FinishRepo(env, stored.snap, stored.result.value, ExpectedTree(cfg, manifest, repo), now)
    else if repo in manifest.repos then
      var existing := manifest.repos[repo];
      if !AllStored(snap.store, existing.entries) then Out(snap, Err(MissingReference))
      else FinishRepo(env, snap, existing.entries, if existing.treeDigest != [] then Some(existing.treeDigest) else None, now)
    else if repo in cfg.repoRefs then
      var refs := cfg.repoRefs[repo];
      if !AllRecorded(snap.store, refs) then Out(snap, Err(MissingReference))
      else
        FinishRepo(env, snap, map p | p in refs :: Entry(refs[p], snap.store.meta[refs[p]].rawSize, 0), NonEmptyDigest(cfg.repoTrees, repo), now)
    else Out(snap, Ok(RepoManifest("", map[])))
  }

  function BuildRepos<T>(env: Env, snap: Snap, cfg: Config<T>, repos: seq<string>, now: int): Out<Manifest>
    requires env.Ordered()
    decreases |repos|
  {
    if repos == [] then Out(snap, Ok(cfg.manifest))
    else
      var n := |repos| - 1;
      var before := BuildRepos(env, snap, cfg, repos[..n], now);
      if before.result.Err? then before
      else
        var m := before.result.value;
        var built := BuildRepo(env, before.snap, cfg, m, repos[n], now);
        if built.result.Err? then Out(built.snap, Err(built.result.error))
        else if built.result.value.entries == map[] then Out(built.snap, Ok(m))
        else Out(built.snap, Ok(m.(repos := m.repos[repos[n] := built.result.value])))
  }

  // ── Distfiles ─────────────────────────────────────────────────────

  function BuildDistfile<T>(env: Env, snap: Snap, cfg: Config<T>, manifest: Manifest, name: string, now: int): Out<Option<Entry>> {
    if name in cfg.distInline then
      var bytes := cfg.distInline[name];
      var digest := env.forms.codec.sha256(bytes);
      var s := StoreBlobForDigest(env.forms.codec, snap.store, digest, bytes, now);
      var snap' := snap.(store := s.store);
      if s.outcome.Err? then Out(snap', Err(StoreError(s.outcome.error)))
      else if name in cfg.distRefs && cfg.distRefs[name] != digest then Out(snap', Err(DistfileMismatch))
      else Out(snap', Ok(Some(Entry(digest, |bytes|, MtimeOf(manifest.distfiles, name)))))
    else if name in manifest.distfiles then
      var e := manifest.distfiles[name];
      if ValidDigest(e.digest) && e.digest in snap.store.blobs then Out(snap, Ok(Some(e))) else Out(snap, Err(MissingReference))
    else if name in cfg.distRefs then
      var digest := cfg.distRefs[name];
      if ValidDigest(digest) && digest in snap.store.meta then Out(snap, Ok(Some(Entry(digest, snap.store.meta[digest].rawSize, 0))))
      else Out(snap, Err(MissingReference))
    else Out(snap, Ok(None))
  }

  function BuildDistfiles<T>(env: Env, snap: Snap, cfg: Config<T>, manifest: Manifest, names: seq<string>, now: int): Out<Manifest>
    decreases |names|
  {
    if names == [] then Out(snap, Ok(manifest))
    else
      var n := |names| - 1;
      var before := BuildDistfiles(env, snap, cfg, manifest, names[..n], now);
      if before.result.Err? then before
      else
        var m := before.result.value;
        var built := BuildDistfile(env, before.snap, cfg, m, names[n], now);
        if built.result.Err? then Out(built.snap, Err(built.result.error))
        else if built.result.value.None? then Out(built.snap, Ok(m))
        else Out(built.snap, Ok(m.(distfiles := m.distfiles[names[n] := built.result.value.value])))
  }

  // ── Normalisation ─────────────────────────────────────────────────

  function RepoNames<T>(cfg: Config<T>): set<string> {
    cfg.repoInline.Keys + cfg.repoRefs.Keys + cfg.manifest.repos.Keys
  }

  function DistNames<T>(cfg: Config<T>): set<string> {
    cfg.distInline.Keys + cfg.distRefs.Keys + cfg.manifest.distfiles.Keys
  }

  function EffectiveManifest<T>(env: Env, snap: Snap, cfg: Config<T>, now: int): Out<Manifest>
    requires env.Ordered()
  {
    if cfg.manifest.version != MANIFEST_VERSION then Out(snap, Err(UnsupportedManifestVersion))
    else
      var repos := BuildRepos(env, snap, cfg, env.order(RepoNames(cfg)), now);
      if repos.result.Err? then repos
      else BuildDistfiles(env, repos.snap, cfg, repos.result.value, env.order(DistNames(cfg)), now)
  }

  function Normalized<T>(cfg: Config<T>, m: Manifest): Config<T> {
    Config(cfg.rest, m, map[],
           map r | r in m.repos :: RefsOf(m.repos[r].entries),
           map r | r in m.repos :: m.repos[r].treeDigest,
           map[],
           map n | n in m.distfiles :: m.distfiles[n].digest)
  }

  function Normalize<T>(env: Env, snap: Snap, cfg: Config<T>, now: int): Out<Config<T>>
    requires env.Ordered()
  {
    var m := EffectiveManifest(env, snap, cfg, now);
    if m.result.Err? then Out(m.snap, Err(m.result.error)) else Out(m.snap, Ok(Normalized(cfg, m.result.value)))
  }
}

/** Normalisation as the server performs it: loops that write to the blob and tree stores. */
module SnapshotStores {
  import opened Common
  import opened Collections
  import opened Codecs
  import opened BlobStores
  import opened TreeStores
  import opened Snapshots

  class SnapshotStore {
    const env: Env
    const blobs: BlobStore
    const trees: TreeStore

    ghost function Contents(): Snap
      reads blobs, trees
    {
      Snap(blobs.Contents(), trees.trees)
    }

    ghost predicate Valid()
      reads blobs, trees
    {
      env.Ordered() && blobs.codec == env.forms.codec && trees.forms == env.forms
    }

    constructor (env: Env, blobs: BlobStore, trees: TreeStore)
      requires env.Ordered() && blobs.codec == env.forms.codec && trees.forms == env.forms
      ensures Valid() && this.env == env && this.blobs == blobs && this.trees == trees
    {
      this.env, this.blobs, this.trees := env, blobs, trees;
    }

    method StorePayload(entries: map<string, Entry>, path: string, inline: map<string, Bytes>, refs: Refs, existing: map<string, Entry>, now: int)
      returns (r: Result<map<string, Entry>, NormalizeError>)
      requires Valid() && path in inline
      modifies blobs
      ensures Valid() && Out(Contents(), r) == StoreContent(env, old(Contents()), entries, path, inline, refs, existing, now)
    {
      var digest := env.forms.codec.sha256(inline[path]);
      var stored := blobs.StoreForDigest(digest, inline[path], now);
      if stored.Err? { return Err(StoreError(stored.error)); }
      if path in refs && refs[path] != digest { return Err(RefsMismatch); }
      return Ok(entries[path := Entry(digest, |inline[path]|, MtimeOf(existing, path))]);
    }

    method StorePayloads(inline: map<string, Bytes>, refs: Refs, existing: map<string, Entry>, now: int)
      returns (r: Result<map<string, Entry>, NormalizeError>)
      requires Valid()
      modifies blobs
      ensures Valid() && (forall p :: p in env.order(inline.Keys) <==> p in inline)
      ensures Out(Contents(), r) == StoreContents(env, old(Contents()), env.order(inline.Keys), inline, refs, existing, now)
    {
      hide StoreContent;
      var paths := env.order(inline.Keys);
      assert forall p :: p in paths <==> p in inline.Keys;
      var entries := map[];
      var i := 0;
      while i < |paths|
        invariant i <= |paths| && Valid()
        invariant Out(Contents(), Ok(entries)) == StoreContents(env, old(Contents()), paths[..i], inline, refs, existing, now)
      {
        assert paths[..i + 1][..i] == paths[..i] && paths[..i + 1][i] == paths[i];
        var stored := StorePayload(entries, paths[i], inline, refs, existing, now);
        if stored.Err? {
          StoppedAt(env, old(Contents()), paths, i + 1, inline, refs, existing, now);
          return Err(stored.error);
        }
        entries := stored.value;
        i := i + 1;
      }
      assert paths[..i] == paths;
      return Ok(entries);
    }

    method CloseRepo(entries: map<string, Entry>, expected: Option<string>, now: int) returns (r: Result<RepoManifest, NormalizeError>)
      requires Valid()
      modifies trees
      ensures Valid() && Out(Contents(), r) == FinishRepo(env, old(Contents()), entries, expected, now)
    {
      var tree := trees.Put(RefsOf(entries), now);
      if expected.Some? && expected.value != tree { return Err(TreeMismatch); }
      return Ok(RepoManifest(tree, entries));
    }

    method RepoManifestFor<T>(cfg: Config<T>, manifest: Manifest, repo: string, now: int) returns (r: Result<RepoManifest, NormalizeError>)
      requires Valid()
      modifies trees, blobs
      ensures Valid() && Out(Contents(), r) == BuildRepo(env, old(Contents()), cfg, manifest, repo, now)
    {
      if repo in cfg.repoInline {
        var stored := StorePayloads(cfg.repoInline[repo], RefsFor(cfg.repoRefs, repo), ExistingEntries(manifest, repo), now);
        if stored.Err? { return Err(stored.error); }
        r := CloseRepo(stored.value, ExpectedTree(cfg, manifest, repo), now);
        return;
      }
      if repo in manifest.repos {
        var existing := manifest.repos[repo];
        if exists p :: p in existing.entries && !(ValidDigest(existing.entries[p].digest) && existing.entries[p].digest in blobs.blobs) {
          return Err(MissingReference);
        }
        r := CloseRepo(existing.entries, if existing.treeDigest != [] then Some(existing.treeDigest) else None, now);
        return;
      }
      if repo in cfg.repoRefs {
        var refs := cfg.repoRefs[repo];
        if exists p :: p in refs && !(ValidDigest(refs[p]) && refs[p] in blobs.meta) { return Err(MissingReference); }
        r := CloseRepo(map p | p in refs :: Entry(refs[p], blobs.meta[refs[p]].rawSize, 0), NonEmptyDigest(cfg.repoTrees, repo), now);
        return;
      }
      return Ok(RepoManifest("", map[]));
    }

    method DistfileEntryFor<T>(cfg: Config<T>, manifest: Manifest, name: string, now: int) returns (r: Result<Option<Entry>, NormalizeError>)
      requires Valid()
      modifies blobs
      ensures Valid() && Out(Contents(), r) == BuildDistfile(env, old(Contents()), cfg, manifest, name, now)
    {
      if name in cfg.distInline {
        var bytes := cfg.distInline[name];
        var digest := env.forms.codec.sha256(bytes);
        var stored := blobs.StoreForDigest(digest, bytes, now);
        if stored.Err? { return Err(StoreError(stored.error)); }
        if name in cfg.distRefs && cfg.distRefs[name] != digest { return Err(DistfileMismatch); }
        return Ok(Some(Entry(digest, |bytes|, MtimeOf(manifest.distfiles, name))));
      }
      if name in manifest.distfiles {
        var e := manifest.distfiles[name];
        if ValidDigest(e.digest) && e.digest in blobs.blobs { return Ok(Some(e)); }
        return Err(MissingReference);
      }
      if name in cfg.distRefs {
        var digest := cfg.distRefs[name];
        if ValidDigest(digest) && digest in blobs.meta { return Ok(Some(Entry(digest, blobs.meta[digest].rawSize, 0))); }
        return Err(MissingReference);
      }
      return Ok(None);
    }

    method AddRepos<T>(cfg: Config<T>, repos: seq<string>, now: int) returns (r: Result<Manifest, NormalizeError>)
      requires Valid()
      modifies trees, blobs
      ensures Valid() && Out(Contents(), r) == BuildRepos(env, old(Contents()), cfg, repos, now)
    {
      var manifest := cfg.manifest;
      var i := 0;
      while i < |repos|
        invariant i <= |repos| && Valid()
        invariant Out(Contents(), Ok(manifest)) == BuildRepos(env, old(Contents()), cfg, repos[..i], now)
      {
        assert repos[..i + 1][..i] == repos[..i] && repos[..i + 1][i] == repos[i];
        var built := RepoManifestFor(cfg, manifest, repos[i], now);
        if built.Err? {
          ReposStoppedAt(env, old(Contents()), cfg, repos, i + 1, now);
          return Err(built.error);
        }
        if built.value.entries != map[] { manifest := manifest.(repos := manifest.repos[repos[i] := built.value]); }
        i := i + 1;
      }
      assert repos[..i] == repos;
      return Ok(manifest);
    }

    method AddDistfiles<T>(cfg: Config<T>, start: Manifest, names: seq<string>, now: int) returns (r: Result<Manifest, NormalizeError>)
      requires Valid()
      modifies blobs
      ensures Valid() && Out(Contents(), r) == BuildDistfiles(env, old(Contents()), cfg, start, names, now)
    {
      var manifest := start;
      var i := 0;
      while i < |names|
        invariant i <= |names| && Valid()
        invariant Out(Contents(), Ok(manifest)) == BuildDistfiles(env, old(Contents()), cfg, start, names[..i], now)
      {
        assert names[..i + 1][..i] == names[..i] && names[..i + 1][i] == names[i];
        var built := DistfileEntryFor(cfg, manifest, names[i], now);
        if built.Err? {
          DistfilesStoppedAt(env, old(Contents()), cfg, start, names, i + 1, now);
          return Err(built.error);
        }
        if built.value.Some? { manifest := manifest.(distfiles := manifest.distfiles[names[i] := built.value.value]); }
        i := i + 1;
      }
      assert names[..i] == names;
      return Ok(manifest);
    }

    method NormalizeConfig<T>(cfg: Config<T>, now: int) returns (r: Result<Config<T>, NormalizeError>)
      requires Valid()
      modifies trees, blobs
      ensures Valid() && Out(Contents(), r) == Normalize(env, old(Contents()), cfg, now)
    {
      if cfg.manifest.version != MANIFEST_VERSION { return Err(UnsupportedManifestVersion); }
      var repos := AddRepos(cfg, env.order(RepoNames(cfg)), now);
      if repos.Err? { return Err(repos.error); }
      var whole := AddDistfiles(cfg, repos.value, env.order(DistNames(cfg)), now);
      if whole.Err? { return Err(whole.error); }
      return Ok(Normalized(cfg, whole.value));
    }
  }

  // ── A failure part of the way is the final result ─────────────────

  lemma {:induction false} StoppedAt(env: Env, snap: Snap, paths: seq<string>, i: nat, inline: map<string, Bytes>, refs: Refs,
                                     existing: map<string, Entry>, now: int)
    requires i <= |paths| && (forall p :: p in paths ==> p in inline)
    requires StoreContents(env, snap, paths[..i], inline, refs, existing, now).result.Err?
    ensures StoreContents(env, snap, paths, inline, refs, existing, now) == StoreContents(env, snap, paths[..i], inline, refs, existing, now)
    decreases |paths|
  {
    if i == |paths| {
      assert paths[..i] == paths;
    } else {
      var front := paths[..|paths| - 1];
      assert front[..i] == paths[..i];
      StoppedAt(env, snap, front, i, inline, refs, existing, now);
    }
  }

  lemma {:induction false} ReposStoppedAt<T>(env: Env, snap: Snap, cfg: Config<T>, repos: seq<string>, i: nat, now: int)
    requires env.Ordered() && i <= |repos| && BuildRepos(env, snap, cfg, repos[..i], now).result.Err?
    ensures BuildRepos(env, snap, cfg, repos, now) == BuildRepos(env, snap, cfg, repos[..i], now)
    decreases |repos|
  {
    if i == |repos| {
      assert repos[..i] == repos;
    } else {
      var front := repos[..|repos| - 1];
      assert front[..i] == repos[..i];
      ReposStoppedAt(env, snap, cfg, front, i, now);
    }
  }

  lemma {:induction false} DistfilesStoppedAt<T>(env: Env, snap: Snap, cfg: Config<T>, start: Manifest, names: seq<string>, i: nat, now: int)
    requires i <= |names| && BuildDistfiles(env, snap, cfg, start, names[..i], now).result.Err?
    ensures BuildDistfiles(env, snap, cfg, start, names, now) == BuildDistfiles(env, snap, cfg, start, names[..i], now)
    decreases |names|
  {
    if i == |names| {
      assert names[..i] == names;
    } else {
      var front := names[..|names| - 1];
      assert front[..i] == names[..i];
      DistfilesStoppedAt(env, snap, cfg, start, front, i, now);
    }
  }
}

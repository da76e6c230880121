/**
 Submitting a snapshot by uploading its payloads first: what the client collects, what it
 uploads, and when the server ends up with what sending everything inline would have given.
 */
module SnapshotUploads {
  import opened Common
  import opened Collections
  import opened Codecs
  import opened BlobStores
  import opened TreeStores
  import opened Snapshots
  import opened SnapshotProofs
  import opened SnapshotTheorems
  import opened UploadSessions
  import opened StreamedUploads
  import UploadProtocol

  // ── The payloads of a configuration ───────────────────────────────

  datatype SubmitError = MissingDigest | DigestCollision | MalformedDigest | WrongDigest | UploadFailed

  type Payloads = map<string, Bytes>

  /** An inlined file and the digest the configuration has for it. */
  datatype File = File(digest: Option<string>, bytes: Bytes)

  function RepoFile<T>(cfg: Config<T>, repo: string, path: string): File
    requires repo in cfg.repoInline && path in cfg.repoInline[repo]
  {
    var entries := ExistingEntries(cfg.manifest, repo);
    var refs := RefsFor(cfg.repoRefs, repo);
    File(if path in entries then Some(entries[path].digest) else if path in refs then Some(refs[path]) else None, cfg.repoInline[repo][path])
  }

  function DistFile<T>(cfg: Config<T>, name: string): File
    requires name in cfg.distInline
  {
    File(if name in cfg.manifest.distfiles then Some(cfg.manifest.distfiles[name].digest)
         else if name in cfg.distRefs then Some(cfg.distRefs[name]) else None,
         cfg.distInline[name])
  }

  function Insert(payloads: Payloads, file: File): Result<Payloads, SubmitError> {
    match file.digest
    case None => Err(MissingDigest)
    case Some(d) =>
      if d !in payloads then Ok(payloads[d := file.bytes])
      else if payloads[d] != file.bytes then Err(DigestCollision)
      else Ok(payloads)
  }

  function Collect(files: seq<File>): Result<Payloads, SubmitError> {
    if files == [] then Ok(map[])
    else
      var before := Collect(files[..|files| - 1]);
      if before.Err? then before else Insert(before.value, files[|files| - 1])
  }

  function PathFiles<T>(cfg: Config<T>, repo: string, paths: seq<string>): seq<File>
    requires repo in cfg.repoInline && forall p :: p in paths ==> p in cfg.repoInline[repo]
  {
    if paths == [] then [] else PathFiles(cfg, repo, paths[..|paths| - 1]) + [RepoFile(cfg, repo, paths[|paths| - 1])]
  }

  function RepoFiles<T>(env: Env, cfg: Config<T>, repos: seq<string>): seq<File>
    requires env.Ordered() && forall r :: r in repos ==> r in cfg.repoInline
  {
    if repos == [] then []
    else
      var repo := repos[|repos| - 1];
      RepoFiles(env, cfg, repos[..|repos| - 1]) + PathFiles(cfg, repo, env.order(cfg.repoInline[repo].Keys))
  }

  function DistFiles<T>(cfg: Config<T>, names: seq<string>): seq<File>
    requires forall n :: n in names ==> n in cfg.distInline
  {
    if names == [] then [] else DistFiles(cfg, names[..|names| - 1]) + [DistFile(cfg, names[|names| - 1])]
  }

  /** The inlined files in the order in which the client goes through them. */
  function Files<T>(env: Env, cfg: Config<T>): seq<File>
    requires env.Ordered()
  {
    RepoFiles(env, cfg, env.order(cfg.repoInline.Keys)) + DistFiles(cfg, env.order(cfg.distInline.Keys))
  }

  function BlobPayloads<T>(env: Env, cfg: Config<T>): Result<Payloads, SubmitError>
    requires env.Ordered()
  {
    Collect(Files(env, cfg))
  }

  // ── What is collected ─────────────────────────────────────────────

  /** Every file has a digest, and files of one digest have the same bytes. */
  ghost predicate Consistent(files: seq<File>) {
    && (forall i :: 0 <= i < |files| ==> files[i].digest.Some?)
    && (forall i, j :: 0 <= i < |files| && 0 <= j < |files| && files[i].digest == files[j].digest ==> files[i].bytes == files[j].bytes)
  }

  ghost predicate Collected(files: seq<File>, payloads: Payloads) {
    && (forall i :: 0 <= i < |files| ==> files[i].digest.Some? && files[i].digest.value in payloads && payloads[files[i].digest.value] == files[i].bytes)
    && (forall d :: d in payloads ==> File(Some(d), payloads[d]) in files)
  }

  lemma {:induction false} CollectExactly(files: seq<File>)
    ensures Collect(files).Ok? <==> Consistent(files)
    ensures Collect(files).Ok? ==> Collected(files, Collect(files).value)
  {
    if files != [] {
      var n := |files| - 1;
      var front, last := files[..n], files[n];
      CollectExactly(front);
      assert files == front + [last];
      if Collect(front).Ok? { OneMoreFile(front, last, Collect(front).value); }
      if Consistent(files) { assert Consistent(front); }
    }
  }

  lemma OneMoreFile(front: seq<File>, last: File, payloads: Payloads)
    requires Consistent(front) && Collected(front, payloads)
    ensures Insert(payloads, last).Ok? <==> Consistent(front + [last])
    ensures Insert(payloads, last).Ok? ==> Collected(front + [last], Insert(payloads, last).value)
  {
    var files := front + [last];
    assert files[|front|] == last;
    if last.digest.Some? && last.digest.value in payloads {
      var known := File(last.digest, payloads[last.digest.value]);
      assert known in front;
      var i :| 0 <= i < |front| && front[i] == known;
      assert files[i] == known;
    }
    if last.digest.None? { assert !Consistent(files); }
    if Insert(payloads, last).Ok? {
      var after := Insert(payloads, last).value;
      forall d | d in after ensures File(Some(d), after[d]) in files {
        if d in payloads && after[d] == payloads[d] { assert File(Some(d), payloads[d]) in front; } else { assert last == File(Some(d), after[d]); }
      }
    }
  }

  /** The file is inlined somewhere in the configuration. */
  ghost predicate Inlined<T>(cfg: Config<T>, file: File) {
    || (exists r, p :: r in cfg.repoInline && p in cfg.repoInline[r] && file == RepoFile(cfg, r, p))
    || (exists n :: n in cfg.distInline && file == DistFile(cfg, n))
  }

  lemma {:induction false} PathFilesAre<T>(cfg: Config<T>, repo: string, paths: seq<string>, file: File)
    requires repo in cfg.repoInline && forall p :: p in paths ==> p in cfg.repoInline[repo]
    ensures file in PathFiles(cfg, repo, paths) <==> exists p :: p in paths && file == RepoFile(cfg, repo, p)
  {
    hide RepoFile;
    if paths != [] {
      PathFilesAre(cfg, repo, paths[..|paths| - 1], file);
      LastOrEarlier(paths);
    }
  }

  lemma {:induction false} RepoFilesAre<T>(env: Env, cfg: Config<T>, repos: seq<string>, file: File)
    requires env.Ordered() && forall r :: r in repos ==> r in cfg.repoInline
    ensures file in RepoFiles(env, cfg, repos) <==> exists r, p :: r in repos && p in cfg.repoInline[r] && file == RepoFile(cfg, r, p)
  {
    hide RepoFile, PathFiles;
    if repos != [] {
      var repo := repos[|repos| - 1];
      RepoFilesAre(env, cfg, repos[..|repos| - 1], file);
      WalkCovers(env.order, cfg.repoInline[repo].Keys);
      PathFilesAre(cfg, repo, env.order(cfg.repoInline[repo].Keys), file);
      LastOrEarlier(repos);
    }
  }

  lemma {:induction false} DistFilesAre<T>(cfg: Config<T>, names: seq<string>, file: File)
    requires forall n :: n in names ==> n in cfg.distInline
    ensures file in DistFiles(cfg, names) <==> exists n :: n in names && file == DistFile(cfg, n)
  {
    hide DistFile;
    if names != [] {
      DistFilesAre(cfg, names[..|names| - 1], file);
      LastOrEarlier(names);
    }
  }

  lemma FilesAre<T>(env: Env, cfg: Config<T>, file: File)
    requires env.Ordered()
    ensures file in Files(env, cfg) <==> Inlined(cfg, file)
  {
    RepoFilesAre(env, cfg, env.order(cfg.repoInline.Keys), file);
    DistFilesAre(cfg, env.order(cfg.distInline.Keys), file);
    assert forall r :: r in env.order(cfg.repoInline.Keys) <==> r in cfg.repoInline;
    assert forall n :: n in env.order(cfg.distInline.Keys) <==> n in cfg.distInline;
  }

  /**
   The payloads are collected if and only if every inlined file has a digest and files of one
   digest have the same bytes; they are then exactly the inlined bytes under those digests.
   */
  lemma PayloadsExactly<T>(env: Env, cfg: Config<T>)
    requires env.Ordered()
    ensures var r := BlobPayloads(env, cfg);
            && (r.Ok? <==> && (forall f :: Inlined(cfg, f) ==> f.digest.Some?)
                           && (forall f, g :: Inlined(cfg, f) && Inlined(cfg, g) && f.digest == g.digest ==> f == g))
            && (r.Ok? ==> forall d, b :: d in r.value && r.value[d] == b <==> Inlined(cfg, File(Some(d), b)))
  {
    hide Inlined, Files, Collect;
    var files := Files(env, cfg);
    forall f ensures f in files <==> Inlined(cfg, f) { FilesAre(env, cfg, f); }
    CollectExactly(files);
    ConsistentByMember(files);
    if Collect(files).Ok? {
      var payloads := Collect(files).value;
      forall d, b ensures d in payloads && payloads[d] == b <==> File(Some(d), b) in files {
        if File(Some(d), b) in files { var i :| 0 <= i < |files| && files[i] == File(Some(d), b); }
      }
    }
  }

  lemma ConsistentByMember(files: seq<File>)
    ensures Consistent(files) <==> (forall f :: f in files ==> f.digest.Some?) && (forall f, g :: f in files && g in files && f.digest == g.digest ==> f == g)
  {
    if (forall f :: f in files ==> f.digest.Some?) && (forall f, g :: f in files && g in files && f.digest == g.digest ==> f == g) {
      forall i | 0 <= i < |files| ensures files[i].digest.Some? { assert files[i] in files; }
      forall i, j | 0 <= i < |files| && 0 <= j < |files| && files[i].digest == files[j].digest ensures files[i].bytes == files[j].bytes {
        assert files[i] in files && files[j] in files;
      }
    }
  }

  // ── Uploading what the server lacks ───────────────────────────────

  /** Answered by the server in the order asked; an invalid digest refuses the whole query. */
  function FindMissing(store: Store, digests: seq<string>): Result<seq<string>, SubmitError> {
    if digests == [] then Ok([])
    else
      var before, d := FindMissing(store, digests[..|digests| - 1]), digests[|digests| - 1];
      if before.Err? then before
      else if !ValidDigest(d) then Err(MalformedDigest)
      else Ok(if d in store.blobs then before.value else before.value + [d])
  }

  /** The server the client uploads to: blobs, upload sessions and staged bytes, and trees. */
  datatype Server = Server(disk: Disk, trees: Trees)

  function Cache(server: Server): Snap {
    Snap(server.disk.store, server.trees)
  }

  datatype Sent<+T> = Sent(server: Server, result: Result<T, SubmitError>)

  const UPLOAD_ATTEMPTS: nat := 3

  function PayloadJob(env: Env, bytes: Bytes): UploadProtocol.Job {
    UploadProtocol.Job(env.forms.codec, bytes, 0)
  }

  function UploadOne(env: Env, server: Server, digest: string, bytes: Bytes, cut: Cut, now: int): Sent<()> {
    if digest != env.forms.codec.sha256(bytes) then Sent(server, Err(WrongDigest))
    else
      var a := Upload(PayloadJob(env, bytes), server.disk, cut, UPLOAD_ATTEMPTS, now);
      Sent(server.(disk := a.disk), if a.done then Ok(()) else Err(UploadFailed))
  }

  function UploadMissing(env: Env, server: Server, payloads: Payloads, missing: seq<string>, cut: Cut, now: int): Sent<()>
    requires forall d :: d in missing ==> d in payloads
  {
    if missing == [] then Sent(server, Ok(()))
    else
      var before, d := UploadMissing(env, server, payloads, missing[..|missing| - 1], cut, now), missing[|missing| - 1];
      if before.result.Err? then before else UploadOne(env, before.server, d, payloads[d], cut, now)
  }

  lemma {:induction false} MissingAre(store: Store, digests: seq<string>)
    ensures FindMissing(store, digests).Ok? <==> forall d :: d in digests ==> ValidDigest(d)
    ensures FindMissing(store, digests).Ok? ==> forall d :: d in FindMissing(store, digests).value <==> d in digests && d !in store.blobs
    ensures FindMissing(store, digests).Ok? && Distinct(digests) ==> Distinct(FindMissing(store, digests).value)
    ensures FindMissing(store, digests).Err? ==> FindMissing(store, digests).error == MalformedDigest
  {
    hide ValidDigest;
    if digests != [] {
      MissingAre(store, digests[..|digests| - 1]);
      LastOrEarlier(digests);
      if Distinct(digests) { assert Distinct(digests[..|digests| - 1]) && digests[|digests| - 1] !in digests[..|digests| - 1]; }
    }
  }

  /** What is sent once every payload has been uploaded on its own. */
  function Submitted<T>(cfg: Config<T>): Config<T> {
    cfg.(repoInline := map[], distInline := map[])
  }

  function PrepareSubmission<T>(env: Env, server: Server, cfg: Config<T>, cut: Cut, now: int): Sent<Config<T>>
    requires env.Ordered()
  {
    var payloads := BlobPayloads(env, cfg);
    if payloads.Err? then Sent(server, Err(payloads.error))
    else
      var missing := FindMissing(server.disk.store, env.order(payloads.value.Keys));
      if missing.Err? then Sent(server, Err(missing.error))
      else
        MissingAre(server.disk.store, env.order(payloads.value.Keys));
        var sent := UploadMissing(env, server, payloads.value, missing.value, cut, now);
        Sent(sent.server, if sent.result.Err? then Err(sent.result.error) else Ok(Submitted(cfg)))
  }

  /** The server lets this payload through. */
  predicate Admits(env: Env, disk: Disk, bytes: Bytes) {
    Uploadable(PayloadJob(env, bytes), disk, UPLOAD_ATTEMPTS)
  }

  /** A payload that fits 64 bits, a record that counts no more chunks than bytes, and staged bytes that decode to nothing that collides. */
  ghost predicate Receives(env: Env, pool: Pool, disk: Disk, bytes: Bytes) {
    var job := PayloadJob(env, bytes);
    var raw := DecodeStream(job.codec, job.Encoding(), Whole(job, disk));
    && |bytes| < TWO64 && bytes in pool.contents && ChunksWithinBytes(disk, job.Digest())
    && (raw.Ok? ==> raw.value in pool.contents)
  }

  /** Every payload is kept under its own digest. */
  predicate OwnDigests(env: Env, payloads: Payloads) {
    forall d :: d in payloads ==> d == env.forms.codec.sha256(payloads[d])
  }

  ghost predicate UploadOutcome(env: Env, pool: Pool, server: Server, payloads: Payloads, missing: seq<string>, sent: Sent<()>) {
    && Ready(env, pool, Cache(sent.server)) && Grows(Cache(server), Cache(sent.server)) && sent.server.trees == server.trees
    && (sent.result.Ok? <==> forall d :: d in missing ==> d in payloads && Admits(env, server.disk, payloads[d]))
    && (sent.result.Err? ==> sent.result.error == UploadFailed)
    && (sent.result.Ok? ==> forall d :: d in missing ==> d in sent.server.disk.store.blobs)
    && (forall e :: e !in missing ==> SameAt(server.disk, sent.server.disk, e))
  }

  /** What decides about an upload is the record and the staged bytes of its own digest. */
  lemma OnlyOwnDigestMatters(env: Env, pool: Pool, disk: Disk, disk': Disk, bytes: Bytes)
    requires SameAt(disk, disk', env.forms.codec.sha256(bytes))
    ensures Admits(env, disk', bytes) <==> Admits(env, disk, bytes)
    ensures Receives(env, pool, disk', bytes) <==> Receives(env, pool, disk, bytes)
  {
  }

  lemma {:induction false} UploadsWork(env: Env, pool: Pool, server: Server, payloads: Payloads, missing: seq<string>, cut: Cut, now: int)
    requires Ready(env, pool, Cache(server)) && OwnDigests(env, payloads) && Cuts(cut) && Distinct(missing)
    requires forall d :: d in missing ==> d in payloads && d !in server.disk.store.blobs && Receives(env, pool, server.disk, payloads[d])
    ensures UploadOutcome(env, pool, server, payloads, missing, UploadMissing(env, server, payloads, missing, cut, now))
    decreases |missing|
  {
    hide Ready, UploadOne, UploadOutcome, Receives, Admits, Cuts;
    if missing == [] {
      NothingToUpload(env, pool, server, payloads);
    } else {
      var front, d := missing[..|missing| - 1], missing[|missing| - 1];
      LastOrEarlier(missing);
      assert Distinct(front) && d !in front;
      UploadsWork(env, pool, server, payloads, front, cut, now);
      OneMoreUpload(env, pool, server, payloads, missing, UploadMissing(env, server, payloads, front, cut, now), cut, now);
    }
  }

  lemma NothingToUpload(env: Env, pool: Pool, server: Server, payloads: Payloads)
    requires Ready(env, pool, Cache(server))
    ensures UploadOutcome(env, pool, server, payloads, [], Sent(server, Ok(())))
  {
    hide Ready;
    GrowsReflexive(Cache(server));
  }

  lemma OneMoreUpload(env: Env, pool: Pool, server: Server, payloads: Payloads, missing: seq<string>, before: Sent<()>, cut: Cut, now: int)
    requires missing != [] && OwnDigests(env, payloads) && Cuts(cut) && Distinct(missing)
    requires forall d :: d in missing ==> d in payloads && d !in server.disk.store.blobs && Receives(env, pool, server.disk, payloads[d])
    requires UploadOutcome(env, pool, server, payloads, missing[..|missing| - 1], before)
    ensures var d := missing[|missing| - 1];
            UploadOutcome(env, pool, server, payloads, missing, if before.result.Err? then before else UploadOne(env, before.server, d, payloads[d], cut, now))
  {
    hide Ready, Grows, UploadOne, Receives, Admits, Cuts, SameAt;
    var d := missing[|missing| - 1];
    LastOrEarlier(missing);
    assert d !in missing[..|missing| - 1];
    if before.result.Ok? {
      SameStored(server.disk, before.server.disk, d);
      OnlyOwnDigestMatters(env, pool, server.disk, before.server.disk, payloads[d]);
      OneUpload(env, pool, before.server, payloads[d], cut, now);
      var after := UploadOne(env, before.server, d, payloads[d], cut, now);
      GrowsTransitive(Cache(server), Cache(before.server), Cache(after.server));
      forall e | e in missing && e != d && after.result.Ok? ensures e in after.server.disk.store.blobs {
        StillStored(Cache(before.server), Cache(after.server), e);
      }
      forall e | e !in missing ensures SameAt(server.disk, after.server.disk, e) {
        SameTwice(server.disk, before.server.disk, after.server.disk, e);
      }
    }
  }

  lemma SameStored(disk: Disk, disk': Disk, d: string)
    requires SameAt(disk, disk', d)
    ensures d in disk'.store.blobs <==> d in disk.store.blobs
  {
  }

  lemma SameTwice(a: Disk, b: Disk, c: Disk, e: string)
    requires SameAt(a, b, e) && SameAt(b, c, e)
    ensures SameAt(a, c, e)
  {
  }

  lemma OneUpload(env: Env, pool: Pool, server: Server, bytes: Bytes, cut: Cut, now: int)
    requires Ready(env, pool, Cache(server)) && Cuts(cut) && env.forms.codec.sha256(bytes) !in server.disk.store.blobs && Receives(env, pool, server.disk, bytes)
    ensures var d := env.forms.codec.sha256(bytes);
            var sent := UploadOne(env, server, d, bytes, cut, now);
            && Ready(env, pool, Cache(sent.server)) && Grows(Cache(server), Cache(sent.server)) && sent.server.trees == server.trees
            && (sent.result.Ok? <==> Admits(env, server.disk, bytes)) && (sent.result.Err? ==> sent.result.error == UploadFailed)
            && (sent.result.Ok? ==> d in sent.server.disk.store.blobs)
            && (forall e :: e != d ==> SameAt(server.disk, sent.server.disk, e))
  {
    hide Upload, Uploadable, Sound, TreesSound, Codec.Lawful;
    var job := PayloadJob(env, bytes);
    NoLeftoverClashes(env, pool, server, bytes);
    UploadExactly(job, server.disk, cut, UPLOAD_ATTEMPTS, now);
    var a := Upload(job, server.disk, cut, UPLOAD_ATTEMPTS, now);
    forall e | e in a.disk.store.blobs ensures a.disk.store.blobs[e] in pool.contents {
      if e != job.Digest() { assert SameAt(server.disk, a.disk, e); }
    }
    forall e | e in server.disk.store.blobs ensures e in a.disk.store.blobs && a.disk.store.blobs[e] == server.disk.store.blobs[e] {
      assert SameAt(server.disk, a.disk, e);
    }
  }

  lemma NoLeftoverClashes(env: Env, pool: Pool, server: Server, bytes: Bytes)
    requires Ready(env, pool, Cache(server)) && env.forms.codec.sha256(bytes) !in server.disk.store.blobs && Receives(env, pool, server.disk, bytes)
    ensures Begins(PayloadJob(env, bytes), server.disk)
  {
    hide TreesSound, Sound, Codec.Lawful, Whole;
  }

  // ── The configuration the client assembles ────────────────────────

  /** A captured file: its bytes, and the size and modification time the file system reports for it. */
  datatype Captured = Captured(content: Bytes, statSize: nat, mtime: int)

  type CapturedFiles = map<string, Captured>

  function Digests(env: Env, files: CapturedFiles): Refs {
    map p | p in files :: env.forms.codec.sha256(files[p].content)
  }

  function Contents(files: CapturedFiles): map<string, Bytes> {
    map p | p in files :: files[p].content
  }

  /** The entries the client lists: sizes are those the file system reports. */
  function Listed(env: Env, files: CapturedFiles): map<string, Entry> {
    map p | p in files :: Entry(env.forms.codec.sha256(files[p].content), files[p].statSize, files[p].mtime)
  }

  function Assembled<T>(env: Env, rest: T, repos: map<string, CapturedFiles>, dist: CapturedFiles): Config<T> {
    Config(rest,
           Manifest(MANIFEST_VERSION,
                    map r | r in repos :: RepoManifest(env.TreeDigest(Digests(env, repos[r])), Listed(env, repos[r])),
                    Listed(env, dist)),
           map r | r in repos :: Contents(repos[r]),
           map r | r in repos :: Digests(env, repos[r]),
           map r | r in repos :: env.TreeDigest(Digests(env, repos[r])),
           Contents(dist),
           Digests(env, dist))
  }

  predicate SizesMatch(files: CapturedFiles) {
    forall p :: p in files ==> files[p].statSize == |files[p].content|
  }

  /** The client refuses a distfile whose size on disk is not that of what was read; repository files are not compared. */
  function Assemble<T>(env: Env, rest: T, repos: map<string, CapturedFiles>, dist: CapturedFiles): Option<Config<T>> {
    if SizesMatch(dist) then Some(Assembled(env, rest, repos, dist)) else None
  }

  predicate SizesAgree(repos: map<string, CapturedFiles>) {
    forall r :: r in repos ==> SizesMatch(repos[r])
  }

  predicate FilesStored(env: Env, store: Store, files: CapturedFiles) {
    forall p :: p in files ==> env.forms.codec.sha256(files[p].content) in store.blobs
  }

  predicate Uploaded(env: Env, store: Store, repos: map<string, CapturedFiles>, dist: CapturedFiles) {
    (forall r :: r in repos ==> FilesStored(env, store, repos[r])) && FilesStored(env, store, dist)
  }

  /** The byte string is the content of a captured file. */
  ghost predicate Occurs(repos: map<string, CapturedFiles>, dist: CapturedFiles, bytes: Bytes) {
    || (exists r, p :: r in repos && p in repos[r] && repos[r][p].content == bytes)
    || (exists n :: n in dist && dist[n].content == bytes)
  }

  ghost predicate AllReceived(env: Env, pool: Pool, disk: Disk, repos: map<string, CapturedFiles>, dist: CapturedFiles) {
    forall b :: Occurs(repos, dist, b) ==> Receives(env, pool, disk, b)
  }

  /** Every captured file is stored on the server, or the server lets it through. */
  ghost predicate AllAdmitted(env: Env, disk: Disk, repos: map<string, CapturedFiles>, dist: CapturedFiles) {
    forall b :: Occurs(repos, dist, b) && env.forms.codec.sha256(b) !in disk.store.blobs ==> Admits(env, disk, b)
  }

  /** The files inlined in an assembled configuration are the captured ones, each under its hash. */
  lemma InlinedExactly<T>(env: Env, rest: T, repos: map<string, CapturedFiles>, dist: CapturedFiles, file: File)
    ensures Inlined(Assembled(env, rest, repos, dist), file) <==> file.digest == Some(env.forms.codec.sha256(file.bytes)) && Occurs(repos, dist, file.bytes)
  {
    hide Inlined, Assembled, Occurs;
    if Inlined(Assembled(env, rest, repos, dist), file) { InlinedIsCaptured(env, rest, repos, dist, file); }
    if file.digest == Some(env.forms.codec.sha256(file.bytes)) && Occurs(repos, dist, file.bytes) { CapturedIsInlined(env, rest, repos, dist, file.bytes); }
  }

  lemma CapturedIsInlined<T>(env: Env, rest: T, repos: map<string, CapturedFiles>, dist: CapturedFiles, bytes: Bytes)
    requires Occurs(repos, dist, bytes)
    ensures Inlined(Assembled(env, rest, repos, dist), File(Some(env.forms.codec.sha256(bytes)), bytes))
  {
    var cfg := Assembled(env, rest, repos, dist);
    if r, p :| r in repos && p in repos[r] && repos[r][p].content == bytes {
      assert RepoFile(cfg, r, p) == File(Some(env.forms.codec.sha256(bytes)), bytes);
    } else {
      var n :| n in dist && dist[n].content == bytes;
      assert DistFile(cfg, n) == File(Some(env.forms.codec.sha256(bytes)), bytes);
    }
  }

  lemma InlinedIsCaptured<T>(env: Env, rest: T, repos: map<string, CapturedFiles>, dist: CapturedFiles, file: File)
    requires Inlined(Assembled(env, rest, repos, dist), file)
    ensures file.digest == Some(env.forms.codec.sha256(file.bytes)) && Occurs(repos, dist, file.bytes)
  {
    var cfg := Assembled(env, rest, repos, dist);
    if r, p :| r in cfg.repoInline && p in cfg.repoInline[r] && file == RepoFile(cfg, r, p) {
      assert repos[r][p].content == file.bytes;
    } else {
      var n :| n in cfg.distInline && file == DistFile(cfg, n);
      assert dist[n].content == file.bytes;
    }
  }

  /** An assembled configuration has a digest for every file and no collision: its payloads are its files by hash. */
  lemma AssembledPayloads<T>(env: Env, pool: Pool, snap: Snap, rest: T, repos: map<string, CapturedFiles>, dist: CapturedFiles)
    requires Ready(env, pool, snap) && forall b :: Occurs(repos, dist, b) ==> b in pool.contents
    ensures env.Ordered()
    ensures var r := BlobPayloads(env, Assembled(env, rest, repos, dist));
            && r.Ok? && OwnDigests(env, r.value)
            && (forall d :: d in r.value ==> Occurs(repos, dist, r.value[d]))
            && (forall b :: Occurs(repos, dist, b) ==> env.forms.codec.sha256(b) in r.value && r.value[env.forms.codec.sha256(b)] == b)
  {
    hide Inlined, Assembled, BlobPayloads, Sound, TreesSound, Occurs, Codec.Lawful;
    var cfg := Assembled(env, rest, repos, dist);
    OrderCovers(env, pool, snap, {});
    PayloadsExactly(env, cfg);
    forall f ensures Inlined(cfg, f) <==> f.digest == Some(env.forms.codec.sha256(f.bytes)) && Occurs(repos, dist, f.bytes) {
      InlinedExactly(env, rest, repos, dist, f);
    }
    forall f, g | Inlined(cfg, f) && Inlined(cfg, g) && f.digest == g.digest ensures f == g {
      assert env.forms.codec.Apart(f.bytes, g.bytes);
    }
    var r := BlobPayloads(env, cfg);
    forall d | d in r.value ensures d == env.forms.codec.sha256(r.value[d]) && Occurs(repos, dist, r.value[d]) {
      assert Inlined(cfg, File(Some(d), r.value[d]));
    }
    forall b | Occurs(repos, dist, b) ensures env.forms.codec.sha256(b) in r.value && r.value[env.forms.codec.sha256(b)] == b {
      assert Inlined(cfg, File(Some(env.forms.codec.sha256(b)), b));
    }
  }

  /**
   Preparing a submission never meets a missing or colliding digest. It succeeds if and only if
   the server lets every file through that it does not have, and then every file is stored.
   */
  lemma SubmissionPrepared<T>(env: Env, pool: Pool, server: Server, rest: T, repos: map<string, CapturedFiles>, dist: CapturedFiles, cut: Cut, now: int)
    requires Ready(env, pool, Cache(server)) && AllReceived(env, pool, server.disk, repos, dist) && Cuts(cut)
    ensures env.Ordered()
    ensures var cfg := Assembled(env, rest, repos, dist);
            var sent := PrepareSubmission(env, server, cfg, cut, now);
            && Ready(env, pool, Cache(sent.server)) && Grows(Cache(server), Cache(sent.server))
            && (sent.result.Ok? <==> AllAdmitted(env, server.disk, repos, dist))
            && (sent.result.Err? ==> sent.result.error == UploadFailed)
            && (sent.result.Ok? ==> sent.result.value == Submitted(cfg) && Uploaded(env, sent.server.disk.store, repos, dist))
  {
    hide Ready, Grows, Assembled, BlobPayloads, UploadMissing, FindMissing, ValidDigest, Env.Ordered, Uploaded, Occurs, Receives, Admits, Cuts, Distinct, SameAt;
    var cfg := Assembled(env, rest, repos, dist);
    forall b | Occurs(repos, dist, b) ensures b in pool.contents { ReceivedIsPooled(env, pool, server.disk, b); }
    AssembledPayloads(env, pool, Cache(server), rest, repos, dist);
    var payloads := BlobPayloads(env, cfg).value;
    OrderListsAll(env, pool, Cache(server), payloads.Keys);
    var digests := env.order(payloads.Keys);
    forall d | d in digests ensures ValidDigest(d) { HashIsValid(env, pool, Cache(server), payloads[d]); }
    MissingAre(server.disk.store, digests);
    var missing := FindMissing(server.disk.store, digests).value;
    UploadsWork(env, pool, server, payloads, missing, cut, now);
    var sent := UploadMissing(env, server, payloads, missing, cut, now);
    if sent.result.Ok? {
      forall b | Occurs(repos, dist, b) ensures env.forms.codec.sha256(b) in sent.server.disk.store.blobs {
        var d := env.forms.codec.sha256(b);
        if d in server.disk.store.blobs { StillStored(Cache(server), Cache(sent.server), d); }
      }
      AllStoredIsUploaded(env, repos, dist, sent.server.disk.store);
    }
  }

  lemma ReceivedIsPooled(env: Env, pool: Pool, disk: Disk, bytes: Bytes)
    requires Receives(env, pool, disk, bytes)
    ensures bytes in pool.contents
  {
  }

  lemma OrderListsAll(env: Env, pool: Pool, snap: Snap, keys: set<string>)
    requires Ready(env, pool, snap)
    ensures env.Ordered() && Distinct(env.order(keys)) && forall x :: x in env.order(keys) <==> x in keys
  {
    OrderCovers(env, pool, snap, keys);
  }

  lemma HashIsValid(env: Env, pool: Pool, snap: Snap, bytes: Bytes)
    requires Ready(env, pool, snap)
    ensures ValidDigest(env.forms.codec.sha256(bytes))
  {
  }

  lemma AllStoredIsUploaded(env: Env, repos: map<string, CapturedFiles>, dist: CapturedFiles, store: Store)
    requires forall b :: Occurs(repos, dist, b) ==> env.forms.codec.sha256(b) in store.blobs
    ensures Uploaded(env, store, repos, dist)
  {
    forall r, p | r in repos && p in repos[r] ensures env.forms.codec.sha256(repos[r][p].content) in store.blobs {
      assert Occurs(repos, dist, repos[r][p].content);
    }
    forall n | n in dist ensures env.forms.codec.sha256(dist[n].content) in store.blobs {
      assert Occurs(repos, dist, dist[n].content);
    }
  }

  /** A server without records and parts for what it lacks lets everything through but an empty file. */
  lemma FreshServerAdmits(env: Env, server: Server, repos: map<string, CapturedFiles>, dist: CapturedFiles)
    requires env.Lawful()
    requires forall b :: Occurs(repos, dist, b) && env.forms.codec.sha256(b) !in server.disk.store.blobs ==>
               env.forms.codec.sha256(b) !in server.disk.sessions && env.forms.codec.sha256(b) !in server.disk.parts
    ensures AllAdmitted(env, server.disk, repos, dist) <==> !(Occurs(repos, dist, []) && env.forms.codec.sha256([]) !in server.disk.store.blobs)
  {
    hide Occurs, Uploadable, Codec.Lawful, Env.Ordered;
    forall b | Occurs(repos, dist, b) && env.forms.codec.sha256(b) !in server.disk.store.blobs ensures Admits(env, server.disk, b) <==> b != [] {
      FreshIsUploadable(PayloadJob(env, b), server.disk, UPLOAD_ATTEMPTS);
    }
  }

  // ── Uploading first and sending inline ────────────────────────────

  /** The manifest of the inlined form: sizes are those of the contents. */
  function Measured<T>(env: Env, cfg: Config<T>, repos: map<string, CapturedFiles>): Manifest {
    cfg.manifest.(repos := map r | r in repos :: RepoManifest(env.TreeDigest(Digests(env, repos[r])), MeasuredEntries(env, repos[r])))
  }

  function MeasuredEntries(env: Env, files: CapturedFiles): map<string, Entry> {
    map p | p in files :: Entry(env.forms.codec.sha256(files[p].content), |files[p].content|, files[p].mtime)
  }

  lemma AssembledRepo<T>(env: Env, rest: T, repos: map<string, CapturedFiles>, dist: CapturedFiles, r: string)
    requires r in repos
    ensures var cfg := Assembled(env, rest, repos, dist);
            && r in cfg.repoInline && cfg.repoInline[r] == Contents(repos[r])
            && r in cfg.repoRefs && cfg.repoRefs[r] == Digests(env, repos[r])
            && r in cfg.repoTrees && cfg.repoTrees[r] == env.TreeDigest(Digests(env, repos[r]))
            && r in cfg.manifest.repos && cfg.manifest.repos[r] == RepoManifest(env.TreeDigest(Digests(env, repos[r])), Listed(env, repos[r]))
            && r in Measured(env, cfg, repos).repos
            && Measured(env, cfg, repos).repos[r] == RepoManifest(env.TreeDigest(Digests(env, repos[r])), MeasuredEntries(env, repos[r]))
  {
    hide Contents, Digests, Listed, MeasuredEntries;
  }

  lemma EntriesMatch(env: Env, files: CapturedFiles)
    ensures RefsOf(Listed(env, files)) == RefsOf(MeasuredEntries(env, files)) == Digests(env, files)
    ensures InlineEntries(env, Contents(files), Listed(env, files)) == MeasuredEntries(env, files)
    ensures RefsMatch(env, Contents(files), Digests(env, files), Contents(files).Keys)
    ensures MeasuredEntries(env, files) == map[] ==> Listed(env, files) == map[]
  {
    if MeasuredEntries(env, files) == map[] { assert Listed(env, files).Keys == MeasuredEntries(env, files).Keys; }
  }

  lemma InlinedRepo<T>(env: Env, store: Store, rest: T, repos: map<string, CapturedFiles>, dist: CapturedFiles, r: string)
    requires r in repos
    ensures var cfg := Assembled(env, rest, repos, dist);
            RepoReady(env, store, cfg, r) && RepoAsBuilt(env, store, cfg, Measured(env, cfg, repos), r)
  {
    hide Assembled, Measured, Contents, Digests, Listed, MeasuredEntries, InlineEntries, RefsMatch, RefsOf;
    AssembledRepo(env, rest, repos, dist, r);
    EntriesMatch(env, repos[r]);
  }

  lemma SubmittedRepo<T>(env: Env, store: Store, rest: T, repos: map<string, CapturedFiles>, dist: CapturedFiles, r: string)
    requires r in repos && FilesStored(env, store, repos[r])
    ensures var cfg := Assembled(env, rest, repos, dist);
            RepoReady(env, store, Submitted(cfg), r) && RepoAsBuilt(env, store, Submitted(cfg), cfg.manifest, r)
  {
    hide Assembled, Measured, Contents, Digests, Listed, MeasuredEntries, InlineEntries, RefsMatch, RefsOf, FilesStored;
    AssembledRepo(env, rest, repos, dist, r);
    EntriesMatch(env, repos[r]);
    ListedIsStored(env, store, repos[r]);
  }

  lemma ListedIsStored(env: Env, store: Store, files: CapturedFiles)
    requires FilesStored(env, store, files)
    ensures forall p :: p in Listed(env, files) ==> Listed(env, files)[p].digest in store.blobs
  {
  }

  lemma InlinedDistfile<T>(env: Env, store: Store, rest: T, repos: map<string, CapturedFiles>, dist: CapturedFiles, n: string)
    requires n in dist && SizesMatch(dist)
    ensures var cfg := Assembled(env, rest, repos, dist);
            && DistfileReady(env, store, cfg, n)
            && BuiltDistfile(env, store, cfg, n) == Some(cfg.manifest.distfiles[n])
            && (FilesStored(env, store, dist) ==>
                  && DistfileAsBuilt(env, store, cfg, Measured(env, cfg, repos), n)
                  && DistfileReady(env, store, Submitted(cfg), n) && DistfileAsBuilt(env, store, Submitted(cfg), cfg.manifest, n))
  {
  }

  lemma AssembledNames<T>(env: Env, rest: T, repos: map<string, CapturedFiles>, dist: CapturedFiles)
    ensures var cfg := Assembled(env, rest, repos, dist);
            && cfg.manifest.version == MANIFEST_VERSION
            && RepoNames(cfg) == RepoNames(Submitted(cfg)) == cfg.manifest.repos.Keys == Measured(env, cfg, repos).repos.Keys == repos.Keys
            && DistNames(cfg) == DistNames(Submitted(cfg)) == cfg.manifest.distfiles.Keys == dist.Keys
  {
    hide Contents, Digests, Listed, MeasuredEntries;
    var cfg := Assembled(env, rest, repos, dist);
    assert cfg.repoInline.Keys == cfg.repoRefs.Keys == cfg.manifest.repos.Keys == repos.Keys;
    assert Measured(env, cfg, repos).repos.Keys == repos.Keys;
    SameKeys(env, dist);
  }

  lemma SameKeys(env: Env, files: CapturedFiles)
    ensures Contents(files).Keys == Digests(env, files).Keys == Listed(env, files).Keys == files.Keys
  {
  }

  /** Sent inline, the configuration is accepted by every server, whatever its store holds. */
  lemma InlineAccepted<T>(env: Env, store: Store, rest: T, repos: map<string, CapturedFiles>, dist: CapturedFiles)
    requires SizesMatch(dist)
    ensures Acceptable(env, store, Assembled(env, rest, repos, dist))
  {
    hide RepoReady, RepoAsBuilt, DistfileReady, DistfileAsBuilt, BuiltDistfile, Assembled, RepoNames, DistNames;
    AssembledNames(env, rest, repos, dist);
    forall r | r in repos ensures RepoReady(env, store, Assembled(env, rest, repos, dist), r) { InlinedRepo(env, store, rest, repos, dist, r); }
    forall n | n in dist ensures DistfileReady(env, store, Assembled(env, rest, repos, dist), n) { InlinedDistfile(env, store, rest, repos, dist, n); }
  }

  /** Over a store that has the distfiles the inlined form determines the measured manifest. */
  lemma InlineDetermines<T>(env: Env, store: Store, rest: T, repos: map<string, CapturedFiles>, dist: CapturedFiles)
    requires SizesMatch(dist) && FilesStored(env, store, dist)
    ensures var cfg := Assembled(env, rest, repos, dist); Determines(env, store, cfg, Measured(env, cfg, repos))
  {
    hide RepoReady, RepoAsBuilt, DistfileReady, DistfileAsBuilt, BuiltDistfile, Assembled, RepoNames, DistNames;
    var cfg := Assembled(env, rest, repos, dist);
    AssembledNames(env, rest, repos, dist);
    forall r | r in repos ensures RepoAsBuilt(env, store, cfg, Measured(env, cfg, repos), r) { InlinedRepo(env, store, rest, repos, dist, r); }
    forall n | n in dist ensures DistfileAsBuilt(env, store, cfg, Measured(env, cfg, repos), n) { InlinedDistfile(env, store, rest, repos, dist, n); }
  }

  /** The trees of the captured repositories are among those that occur. */
  predicate TreesOccur(env: Env, pool: Pool, repos: map<string, CapturedFiles>) {
    forall r :: r in repos ==> Digests(env, repos[r]) in pool.trees
  }

  lemma AssembledIsCovered<T>(env: Env, pool: Pool, rest: T, repos: map<string, CapturedFiles>, dist: CapturedFiles)
    requires TreesOccur(env, pool, repos) && forall b :: Occurs(repos, dist, b) ==> b in pool.contents
    ensures Covers(env, pool, Assembled(env, rest, repos, dist)) && Covers(env, pool, Submitted(Assembled(env, rest, repos, dist)))
  {
    hide Assembled, Occurs, RepoNames, DistNames, TreeOf, Digests, Listed, MeasuredEntries, Contents, Measured;
    var cfg := Assembled(env, rest, repos, dist);
    AssembledNames(env, rest, repos, dist);
    forall r | r in repos
      ensures r in cfg.repoInline && AllIn(cfg.repoInline[r], pool.contents)
      ensures r in cfg.manifest.repos && RefsOf(cfg.manifest.repos[r].entries) in pool.trees
      ensures TreeOf(env, cfg, r) in pool.trees && TreeOf(env, Submitted(cfg), r) in pool.trees
    {
      AssembledRepo(env, rest, repos, dist, r);
      EntriesMatch(env, repos[r]);
      RepoContentsOccur(env, pool, repos, dist, r);
      AssembledTree(env, rest, repos, dist, r);
    }
    AssembledDist(env, rest, repos, dist);
    DistContentsOccur(env, pool, repos, dist);
  }

  lemma RepoContentsOccur(env: Env, pool: Pool, repos: map<string, CapturedFiles>, dist: CapturedFiles, r: string)
    requires r in repos && forall b :: Occurs(repos, dist, b) ==> b in pool.contents
    ensures AllIn(Contents(repos[r]), pool.contents)
  {
    forall p | p in repos[r] ensures repos[r][p].content in pool.contents { assert Occurs(repos, dist, repos[r][p].content); }
  }

  lemma DistContentsOccur(env: Env, pool: Pool, repos: map<string, CapturedFiles>, dist: CapturedFiles)
    requires forall b :: Occurs(repos, dist, b) ==> b in pool.contents
    ensures AllIn(Contents(dist), pool.contents)
  {
    forall n | n in dist ensures dist[n].content in pool.contents { assert Occurs(repos, dist, dist[n].content); }
  }

  lemma AssembledDist<T>(env: Env, rest: T, repos: map<string, CapturedFiles>, dist: CapturedFiles)
    ensures var cfg := Assembled(env, rest, repos, dist); cfg.distInline == Contents(dist) && cfg.repoInline.Keys == repos.Keys
  {
    hide Contents, Digests, Listed;
  }

  lemma AssembledTree<T>(env: Env, rest: T, repos: map<string, CapturedFiles>, dist: CapturedFiles, r: string)
    requires r in repos
    ensures var cfg := Assembled(env, rest, repos, dist);
            TreeOf(env, cfg, r) == Digests(env, repos[r]) && TreeOf(env, Submitted(cfg), r) == Digests(env, repos[r])
  {
    hide Assembled, Listed, MeasuredEntries, Measured;
    AssembledRepo(env, rest, repos, dist, r);
    EntriesMatch(env, repos[r]);
  }

  /** Sent inline to any server, the configuration becomes the measured manifest. */
  lemma InlineResult<T>(env: Env, pool: Pool, snap: Snap, rest: T, repos: map<string, CapturedFiles>, dist: CapturedFiles, now: int)
    requires Ready(env, pool, snap) && SizesMatch(dist) && TreesOccur(env, pool, repos) && forall b :: Occurs(repos, dist, b) ==> b in pool.contents
    ensures env.Ordered()
    ensures var cfg := Assembled(env, rest, repos, dist);
            EffectiveManifest(env, snap, cfg, now).result == Ok(Measured(env, cfg, repos))
  {
    hide Ready, Grows, Env.Ordered, EffectiveManifest, Assembled, Measured, Describes, Determines, Acceptable, Covers, Occurs, TreesOccur;
    var cfg := Assembled(env, rest, repos, dist);
    AssembledIsCovered(env, pool, rest, repos, dist);
    InlineAccepted(env, snap.store, rest, repos, dist);
    WholeManifestBuilt(env, pool, snap, cfg, now);
    var out := EffectiveManifest(env, snap, cfg, now);
    DescribedIsDetermined(env, out.snap, cfg, out.result.value);
    DescribedDistfilesStored(env, out.snap, rest, repos, dist, out.result.value);
    InlineDetermines(env, out.snap.store, rest, repos, dist);
    DeterminedOnce(env, out.snap.store, cfg, out.result.value, Measured(env, cfg, repos));
  }

  lemma DescribedDistfilesStored<T>(env: Env, snap: Snap, rest: T, repos: map<string, CapturedFiles>, dist: CapturedFiles, m: Manifest)
    requires SizesMatch(dist) && Describes(env, snap, Assembled(env, rest, repos, dist), m)
    ensures FilesStored(env, snap.store, dist)
  {
    hide RepoDone, RepoReady, RepoAsBuilt, RepoNames, DistNames, BuiltDistfile;
    var cfg := Assembled(env, rest, repos, dist);
    AssembledNames(env, rest, repos, dist);
    forall n | n in dist ensures env.forms.codec.sha256(dist[n].content) in snap.store.blobs {
      assert DistfileDone(env, snap, cfg, m, n);
      InlinedDistfile(env, snap.store, rest, repos, dist, n);
    }
  }

  lemma SubmittedForm<T>(env: Env, store: Store, rest: T, repos: map<string, CapturedFiles>, dist: CapturedFiles)
    requires Uploaded(env, store, repos, dist) && SizesMatch(dist)
    ensures var cfg := Assembled(env, rest, repos, dist);
            Acceptable(env, store, Submitted(cfg)) && Determines(env, store, Submitted(cfg), cfg.manifest)
  {
    hide RepoReady, RepoAsBuilt, DistfileReady, DistfileAsBuilt, BuiltDistfile, Assembled, RepoNames, DistNames;
    var cfg := Assembled(env, rest, repos, dist);
    AssembledNames(env, rest, repos, dist);
    forall r | r in repos ensures RepoReady(env, store, Submitted(cfg), r) && RepoAsBuilt(env, store, Submitted(cfg), cfg.manifest, r) {
      SubmittedRepo(env, store, rest, repos, dist, r);
    }
    forall n | n in dist ensures DistfileReady(env, store, Submitted(cfg), n) && DistfileAsBuilt(env, store, Submitted(cfg), cfg.manifest, n) {
      InlinedDistfile(env, store, rest, repos, dist, n);
    }
  }

  lemma MeasuredIsListed(env: Env, files: CapturedFiles)
    ensures MeasuredEntries(env, files) == Listed(env, files) <==> SizesMatch(files)
  {
    if MeasuredEntries(env, files) == Listed(env, files) {
      forall p | p in files ensures files[p].statSize == |files[p].content| { assert MeasuredEntries(env, files)[p] == Listed(env, files)[p]; }
    }
  }

  lemma SameExactlyWhenSizesAgree<T>(env: Env, rest: T, repos: map<string, CapturedFiles>, dist: CapturedFiles)
    ensures var cfg := Assembled(env, rest, repos, dist);
            Measured(env, cfg, repos) == cfg.manifest <==> SizesAgree(repos)
  {
    hide Assembled, SizesMatch, Listed, MeasuredEntries, Digests, Contents, RepoNames, DistNames;
    var cfg := Assembled(env, rest, repos, dist);
    var m := Measured(env, cfg, repos);
    AssembledNames(env, rest, repos, dist);
    if SizesAgree(repos) {
      forall r | r in repos ensures m.repos[r] == cfg.manifest.repos[r] {
        AssembledRepo(env, rest, repos, dist, r);
        MeasuredIsListed(env, repos[r]);
      }
      assert m.repos == cfg.manifest.repos;
    } else {
      var r :| r in repos && !SizesMatch(repos[r]);
      AssembledRepo(env, rest, repos, dist, r);
      MeasuredIsListed(env, repos[r]);
    }
  }

  lemma NormalizedIsInjective<T>(cfg: Config<T>, m: Manifest, cfg': Config<T>, m': Manifest)
    requires cfg.rest == cfg'.rest
    ensures Normalized(cfg, m) == Normalized(cfg', m') <==> m == m'
  {
  }

  /**
   For every server and every captured configuration the client assembles: sent inline it is
   always accepted; with the payloads uploaded first it is accepted if and only if the server
   lets every file through that it does not have; and then both ways give the same
   configuration if and only if the file system's sizes of the repository files are the sizes
   of what was read.
   */
  lemma UploadFirstIsInline<T>(env: Env, pool: Pool, server: Server, rest: T, repos: map<string, CapturedFiles>, dist: CapturedFiles, cut: Cut, now: int, now': int)
    requires Ready(env, pool, Cache(server)) && AllReceived(env, pool, server.disk, repos, dist) && TreesOccur(env, pool, repos) && Cuts(cut)
    ensures env.Ordered()
    ensures Assemble(env, rest, repos, dist).Some? ==>
              var cfg := Assemble(env, rest, repos, dist).value;
              var inlined := Normalize(env, Cache(server), cfg, now).result;
              var sent := PrepareSubmission(env, server, cfg, cut, now);
              && inlined.Ok?
              && (sent.result.Ok? <==> AllAdmitted(env, server.disk, repos, dist))
              && (sent.result.Ok? ==>
                    var referenced := Normalize(env, Cache(sent.server), sent.result.value, now').result;
                    referenced.Ok? && (inlined == referenced <==> SizesAgree(repos)))
  {
    hide Ready, Env.Ordered, Grows, EffectiveManifest, Normalized, Acceptable, Determines, Assembled, Measured, Uploaded, SizesAgree, SizesMatch;
    hide PrepareSubmission, AllAdmitted, Occurs, Receives, TreesOccur, Covers, Cuts;
    var cfg := Assembled(env, rest, repos, dist);
    forall b | Occurs(repos, dist, b) ensures b in pool.contents { ReceivedIsPooled(env, pool, server.disk, b); }
    SubmissionPrepared(env, pool, server, rest, repos, dist, cut, now);
    if SizesMatch(dist) {
      InlineResult(env, pool, Cache(server), rest, repos, dist, now);
      var sent := PrepareSubmission(env, server, cfg, cut, now);
      if sent.result.Ok? {
        AssembledIsCovered(env, pool, rest, repos, dist);
        SubmittedForm(env, sent.server.disk.store, rest, repos, dist);
        ResultIs(env, pool, Cache(sent.server), Submitted(cfg), cfg.manifest, now');
        SameExactlyWhenSizesAgree(env, rest, repos, dist);
        NormalizedIsInjective(cfg, Measured(env, cfg, repos), Submitted(cfg), cfg.manifest);
      }
    }
  }

  // ── The client's loops ────────────────────────────────────────────

  method CollectPaths<T>(cfg: Config<T>, repo: string, paths: seq<string>, ghost done: seq<File>, start: Payloads) returns (r: Result<Payloads, SubmitError>)
    requires repo in cfg.repoInline && (forall p :: p in paths ==> p in cfg.repoInline[repo]) && Collect(done) == Ok(start)
    ensures r == Collect(done + PathFiles(cfg, repo, paths))
  {
    hide Insert;
    var payloads := start;
    var i := 0;
    assert done + PathFiles(cfg, repo, paths[..0]) == done;
    while i < |paths|
      invariant i <= |paths| && Collect(done + PathFiles(cfg, repo, paths[..i])) == Ok(payloads)
    {
      ghost var files := done + PathFiles(cfg, repo, paths[..i]);
      var file := RepoFile(cfg, repo, paths[i]);
      assert paths[..i + 1][..i] == paths[..i];
      assert done + PathFiles(cfg, repo, paths[..i + 1]) == files + [file];
      CollectNext(files, file);
      var next := Insert(payloads, file);
      if next.Err? {
        PathsStopped(cfg, repo, paths, i + 1, done);
        return next;
      }
      payloads := next.value;
      i := i + 1;
    }
    assert paths[..i] == paths;
    return Ok(payloads);
  }

  method CollectRepos<T>(env: Env, cfg: Config<T>, repos: seq<string>) returns (r: Result<Payloads, SubmitError>)
    requires env.Ordered() && forall x :: x in repos ==> x in cfg.repoInline
    ensures r == Collect(RepoFiles(env, cfg, repos))
  {
    hide Insert, Collect, PathFiles;
    var payloads: Payloads := map[];
    CollectNothing();
    var i := 0;
    while i < |repos|
      invariant i <= |repos| && Collect(RepoFiles(env, cfg, repos[..i])) == Ok(payloads)
    {
      assert repos[..i + 1][..i] == repos[..i] && repos[i] in repos;
      WalkCovers(env.order, cfg.repoInline[repos[i]].Keys);
      var next := CollectPaths(cfg, repos[i], env.order(cfg.repoInline[repos[i]].Keys), RepoFiles(env, cfg, repos[..i]), payloads);
      if next.Err? {
        ReposStopped(env, cfg, repos, i + 1);
        return next;
      }
      payloads := next.value;
      i := i + 1;
    }
    assert repos[..i] == repos;
    return Ok(payloads);
  }

  method CollectDistfiles<T>(cfg: Config<T>, names: seq<string>, ghost done: seq<File>, start: Payloads) returns (r: Result<Payloads, SubmitError>)
    requires (forall n :: n in names ==> n in cfg.distInline) && Collect(done) == Ok(start)
    ensures r == Collect(done + DistFiles(cfg, names))
  {
    hide Insert;
    var payloads := start;
    var i := 0;
    assert done + DistFiles(cfg, names[..0]) == done;
    while i < |names|
      invariant i <= |names| && Collect(done + DistFiles(cfg, names[..i])) == Ok(payloads)
    {
      ghost var files := done + DistFiles(cfg, names[..i]);
      var file := DistFile(cfg, names[i]);
      assert names[..i + 1][..i] == names[..i];
      assert done + DistFiles(cfg, names[..i + 1]) == files + [file];
      CollectNext(files, file);
      var next := Insert(payloads, file);
      if next.Err? {
        DistStopped(cfg, names, i + 1, done);
        return next;
      }
      payloads := next.value;
      i := i + 1;
    }
    assert names[..i] == names;
    return Ok(payloads);
  }

  /** The payloads of every inlined file, each digest once. */
  method CollectPayloads<T>(env: Env, cfg: Config<T>) returns (r: Result<Payloads, SubmitError>)
    requires env.Ordered()
    ensures r == BlobPayloads(env, cfg)
  {
    hide Insert, Collect, RepoFiles, DistFiles;
    WalkCovers(env.order, cfg.repoInline.Keys);
    WalkCovers(env.order, cfg.distInline.Keys);
    var repos, names := env.order(cfg.repoInline.Keys), env.order(cfg.distInline.Keys);
    r := CollectRepos(env, cfg, repos);
    if r.Err? {
      CollectStopped(RepoFiles(env, cfg, repos), DistFiles(cfg, names));
      return;
    }
    r := CollectDistfiles(cfg, names, RepoFiles(env, cfg, repos), r.value);
  }

  /** Streams every payload the server lacks, one after another, until one fails. */
  method SendMissing(env: Env, server: Server, payloads: Payloads, missing: seq<string>, cut: Cut, now: int) returns (sent: Sent<()>)
    requires forall d :: d in missing ==> d in payloads
    ensures sent == UploadMissing(env, server, payloads, missing, cut, now)
  {
    hide UploadOne;
    sent := Sent(server, Ok(()));
    var i := 0;
    while i < |missing|
      invariant i <= |missing| && sent.result.Ok? && sent == UploadMissing(env, server, payloads, missing[..i], cut, now)
    {
      assert missing[..i + 1][..i] == missing[..i];
      sent := UploadOne(env, sent.server, missing[i], payloads[missing[i]], cut, now);
      i := i + 1;
      if sent.result.Err? {
        UploadStopped(env, server, payloads, missing, i, cut, now);
        return;
      }
    }
    assert missing[..i] == missing;
  }

  lemma CollectNothing()
    ensures Collect([]) == Ok(map[])
  {
  }

  lemma CollectNext(files: seq<File>, file: File)
    ensures Collect(files + [file]) == if Collect(files).Err? then Collect(files) else Insert(Collect(files).value, file)
  {
    assert (files + [file])[..|files|] == files;
  }

  /** A failure part of the way is the final result. */
  lemma {:induction false} CollectStopped(a: seq<File>, b: seq<File>)
    requires Collect(a).Err?
    ensures Collect(a + b) == Collect(a)
    decreases |b|
  {
    if b == [] {
      assert a + b == a;
    } else {
      assert (a + b)[..|a + b| - 1] == a + b[..|b| - 1];
      CollectStopped(a, b[..|b| - 1]);
    }
  }

  lemma {:induction false} PathsStopped<T>(cfg: Config<T>, repo: string, paths: seq<string>, i: nat, done: seq<File>)
    requires repo in cfg.repoInline && (forall p :: p in paths ==> p in cfg.repoInline[repo]) && i <= |paths|
    requires Collect(done + PathFiles(cfg, repo, paths[..i])).Err?
    ensures Collect(done + PathFiles(cfg, repo, paths)) == Collect(done + PathFiles(cfg, repo, paths[..i]))
    decreases |paths|
  {
    hide Collect;
    if i == |paths| {
      assert paths[..i] == paths;
    } else {
      var front := paths[..|paths| - 1];
      assert front[..i] == paths[..i];
      PathsStopped(cfg, repo, front, i, done);
      CollectStopped(done + PathFiles(cfg, repo, front), [RepoFile(cfg, repo, paths[|paths| - 1])]);
      assert done + PathFiles(cfg, repo, paths) == done + PathFiles(cfg, repo, front) + [RepoFile(cfg, repo, paths[|paths| - 1])];
    }
  }

  lemma {:induction false} ReposStopped<T>(env: Env, cfg: Config<T>, repos: seq<string>, i: nat)
    requires env.Ordered() && (forall r :: r in repos ==> r in cfg.repoInline) && i <= |repos| && Collect(RepoFiles(env, cfg, repos[..i])).Err?
    ensures Collect(RepoFiles(env, cfg, repos)) == Collect(RepoFiles(env, cfg, repos[..i]))
    decreases |repos|
  {
    hide Collect, PathFiles;
    if i == |repos| {
      assert repos[..i] == repos;
    } else {
      var front, repo := repos[..|repos| - 1], repos[|repos| - 1];
      assert front[..i] == repos[..i];
      ReposStopped(env, cfg, front, i);
      CollectStopped(RepoFiles(env, cfg, front), PathFiles(cfg, repo, env.order(cfg.repoInline[repo].Keys)));
    }
  }

  lemma {:induction false} DistStopped<T>(cfg: Config<T>, names: seq<string>, i: nat, done: seq<File>)
    requires (forall n :: n in names ==> n in cfg.distInline) && i <= |names| && Collect(done + DistFiles(cfg, names[..i])).Err?
    ensures Collect(done + DistFiles(cfg, names)) == Collect(done + DistFiles(cfg, names[..i]))
    decreases |names|
  {
    hide Collect;
    if i == |names| {
      assert names[..i] == names;
    } else {
      var front := names[..|names| - 1];
      assert front[..i] == names[..i];
      DistStopped(cfg, front, i, done);
      CollectStopped(done + DistFiles(cfg, front), [DistFile(cfg, names[|names| - 1])]);
      assert done + DistFiles(cfg, names) == done + DistFiles(cfg, front) + [DistFile(cfg, names[|names| - 1])];
    }
  }

  lemma {:induction false} UploadStopped(env: Env, server: Server, payloads: Payloads, missing: seq<string>, i: nat, cut: Cut, now: int)
    requires (forall d :: d in missing ==> d in payloads) && i <= |missing| && UploadMissing(env, server, payloads, missing[..i], cut, now).result.Err?
    ensures UploadMissing(env, server, payloads, missing, cut, now) == UploadMissing(env, server, payloads, missing[..i], cut, now)
    decreases |missing|
  {
    hide UploadOne;
    if i == |missing| {
      assert missing[..i] == missing;
    } else {
      var front := missing[..|missing| - 1];
      assert front[..i] == missing[..i];
      UploadStopped(env, server, payloads, front, i, cut, now);
    }
  }
}

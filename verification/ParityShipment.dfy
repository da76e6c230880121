/** What a capture ships, and its way into the blob store. */
module ParityShipments {
  import opened Common
  import opened Collections
  import opened Codecs
  import opened BlobStores
  import opened Paths
  import opened FileSystems
  import opened ParityCaptures

  /** No name on an approved path has a backslash. */
  ghost predicate Clean(src: Fs) {
    forall p :: p in src && Approved(p) ==> forall i :: 0 <= i < |p| ==> NoBackslash(p[i])
  }

  predicate KeptFile(src: Fs, p: Path) {
    p in src && p != [] && src[p].File? && !Noise(Last(p))
  }

  predicate KeptLink(src: Fs, p: Path) {
    p in src && p != [] && src[p].Link? && !Noise(Last(p))
  }

  predicate KeptDir(src: Fs, p: Path) {
    p in src && p != [] && src[p].Dir?
  }

  /** A node the capture is about: directories, and files and links that are not run-time noise. */
  predicate Captured(src: Fs, p: Path) {
    Approved(p) && (KeptDir(src, p) || KeptFile(src, p) || KeptLink(src, p))
  }

  function ContentEntry(codec: Codec, bytes: Bytes, mtime: int): Entry {
    Entry(codec.sha256(bytes), |bytes|, mtime)
  }

  // ── What is shipped ───────────────────────────────────────────────

  predicate KeyIn(k: string, paths: set<Path>) {
    Sanitize(k).Ok? && Sanitize(k).value in paths && Joined(Sanitize(k).value) == k
  }

  ghost predicate ShipsDirs(src: Fs, paths: set<Path>, m: Manifest) {
    && (forall p :: p in paths && KeptDir(src, p) ==> Joined(p) in m.dirs && m.dirs[Joined(p)] == src[p].mtime)
    && (forall k :: k in m.dirs ==> KeyIn(k, paths) && KeptDir(src, Sanitize(k).value))
  }

  ghost predicate ShipsFiles(codec: Codec, src: Fs, paths: set<Path>, m: Manifest) {
    && (forall p :: p in paths && KeptFile(src, p) ==> Joined(p) in m.files && m.files[Joined(p)] == ContentEntry(codec, src[p].bytes, src[p].mtime))
    && (forall k :: k in m.files ==> KeyIn(k, paths) && KeptFile(src, Sanitize(k).value))
  }

  ghost predicate ShipsLinks(codec: Codec, src: Fs, paths: set<Path>, m: Manifest) {
    && (forall p :: p in paths && KeptLink(src, p) ==> Joined(p) in m.links && m.links[Joined(p)] == ContentEntry(codec, src[p].target, src[p].mtime))
    && (forall k :: k in m.links ==> KeyIn(k, paths) && KeptLink(src, Sanitize(k).value))
  }

  /** The byte string is a file's content or a link's target. */
  ghost predicate ContentOf(src: Fs, paths: set<Path>, bytes: Bytes) {
    exists p :: p in paths && ((KeptFile(src, p) && src[p].bytes == bytes) || (KeptLink(src, p) && src[p].target == bytes))
  }

  ghost predicate ShipsBlobs(codec: Codec, src: Fs, paths: set<Path>, ship: Shipment) {
    && (forall d :: d in ship.blobs ==> codec.sha256(ship.blobs[d]) == d && ContentOf(src, paths, ship.blobs[d]))
    && (forall k :: k in ship.manifest.files ==> ship.manifest.files[k].digest in ship.blobs)
    && (forall k :: k in ship.manifest.links ==> ship.manifest.links[k].digest in ship.blobs)
  }

  ghost predicate Ships(codec: Codec, src: Fs, paths: set<Path>, ship: Shipment) {
    ShipsDirs(src, paths, ship.manifest) && ShipsFiles(codec, src, paths, ship.manifest) && ShipsLinks(codec, src, paths, ship.manifest)
    && ShipsBlobs(codec, src, paths, ship)
  }

  lemma CleanKey(src: Fs, p: Path)
    requires Tree(src) && Clean(src) && p in src && p != [] && Approved(p)
    ensures Key(p) == Joined(p) && Sanitize(Joined(p)) == Ok(p)
  {
    KeyRoundTrip(p);
  }

  lemma SkipDirs(src: Fs, paths: set<Path>, m: Manifest, m': Manifest, p: Path)
    requires ShipsDirs(src, paths, m) && m'.dirs == m.dirs && !KeptDir(src, p)
    ensures ShipsDirs(src, paths + {p}, m')
  {
    hide Joined, Sanitize;
  }

  lemma SkipFiles(codec: Codec, src: Fs, paths: set<Path>, m: Manifest, m': Manifest, p: Path)
    requires ShipsFiles(codec, src, paths, m) && m'.files == m.files && !KeptFile(src, p)
    ensures ShipsFiles(codec, src, paths + {p}, m')
  {
    hide Joined, Sanitize, Noise;
  }

  lemma SkipLinks(codec: Codec, src: Fs, paths: set<Path>, m: Manifest, m': Manifest, p: Path)
    requires ShipsLinks(codec, src, paths, m) && m'.links == m.links && !KeptLink(src, p)
    ensures ShipsLinks(codec, src, paths + {p}, m')
  {
    hide Joined, Sanitize, Noise;
  }

  /** A node more keeps every shipped content a content. */
  lemma StillContents(codec: Codec, src: Fs, paths: set<Path>, ship: Shipment, p: Path)
    requires ShipsBlobs(codec, src, paths, ship)
    ensures ShipsBlobs(codec, src, paths + {p}, ship)
  {
    hide KeptFile, KeptLink;
    forall d | d in ship.blobs ensures ContentOf(src, paths + {p}, ship.blobs[d]) {
      assert ContentOf(src, paths, ship.blobs[d]);
    }
  }

  lemma OneMoreDir(codec: Codec, src: Fs, paths: set<Path>, ship: Shipment, p: Path)
    requires Ships(codec, src, paths, ship) && p !in paths && Sanitize(Joined(p)) == Ok(p) && KeptDir(src, p)
    ensures Joined(p) !in ship.manifest.dirs && Ships(codec, src, paths + {p}, WithDir(ship, Joined(p), src[p].mtime))
  {
    hide Joined, Sanitize, Noise, ShipsFiles, ShipsLinks;
    var ship' := WithDir(ship, Joined(p), src[p].mtime);
    StillContents(codec, src, paths, ship, p);
    SkipFiles(codec, src, paths, ship.manifest, ship'.manifest, p);
    SkipLinks(codec, src, paths, ship.manifest, ship'.manifest, p);
  }

  lemma OneMoreFile(codec: Codec, src: Fs, paths: set<Path>, ship: Shipment, p: Path)
    requires Ships(codec, src, paths, ship) && p !in paths && Sanitize(Joined(p)) == Ok(p) && KeptFile(src, p)
    ensures Joined(p) !in ship.manifest.files && Ships(codec, src, paths + {p}, WithFile(codec, ship, Joined(p), src[p].bytes, src[p].mtime))
  {
    hide Joined, Sanitize, Noise, ShipsDirs, ShipsFiles, ShipsLinks, ShipsBlobs;
    var ship' := WithFile(codec, ship, Joined(p), src[p].bytes, src[p].mtime);
    SkipDirs(src, paths, ship.manifest, ship'.manifest, p);
    SkipLinks(codec, src, paths, ship.manifest, ship'.manifest, p);
    FileListed(codec, src, paths, ship, p);
    FileShipped(codec, src, paths, ship, p);
  }

  lemma FileListed(codec: Codec, src: Fs, paths: set<Path>, ship: Shipment, p: Path)
    requires ShipsFiles(codec, src, paths, ship.manifest) && p !in paths && Sanitize(Joined(p)) == Ok(p) && KeptFile(src, p)
    ensures Joined(p) !in ship.manifest.files
    ensures ShipsFiles(codec, src, paths + {p}, WithFile(codec, ship, Joined(p), src[p].bytes, src[p].mtime).manifest)
  {
    hide Joined, Sanitize, Noise;
  }

  lemma FileShipped(codec: Codec, src: Fs, paths: set<Path>, ship: Shipment, p: Path)
    requires ShipsBlobs(codec, src, paths, ship) && KeptFile(src, p)
    ensures ShipsBlobs(codec, src, paths + {p}, WithFile(codec, ship, Joined(p), src[p].bytes, src[p].mtime))
  {
    hide Joined, Noise, ContentOf;
    StillContents(codec, src, paths, ship, p);
    IsContent(src, paths + {p}, p);
  }

  lemma OneMoreLink(codec: Codec, src: Fs, paths: set<Path>, ship: Shipment, p: Path)
    requires Ships(codec, src, paths, ship) && p !in paths && Sanitize(Joined(p)) == Ok(p) && KeptLink(src, p)
    ensures Joined(p) !in ship.manifest.links && Ships(codec, src, paths + {p}, WithLink(codec, ship, Joined(p), src[p].target, src[p].mtime))
  {
    hide Joined, Sanitize, Noise, ShipsDirs, ShipsFiles, ShipsLinks, ShipsBlobs;
    var ship' := WithLink(codec, ship, Joined(p), src[p].target, src[p].mtime);
    SkipDirs(src, paths, ship.manifest, ship'.manifest, p);
    SkipFiles(codec, src, paths, ship.manifest, ship'.manifest, p);
    LinkListed(codec, src, paths, ship, p);
    LinkShipped(codec, src, paths, ship, p);
  }

  lemma LinkListed(codec: Codec, src: Fs, paths: set<Path>, ship: Shipment, p: Path)
    requires ShipsLinks(codec, src, paths, ship.manifest) && p !in paths && Sanitize(Joined(p)) == Ok(p) && KeptLink(src, p)
    ensures Joined(p) !in ship.manifest.links
    ensures ShipsLinks(codec, src, paths + {p}, WithLink(codec, ship, Joined(p), src[p].target, src[p].mtime).manifest)
  {
    hide Joined, Sanitize, Noise;
  }

  lemma LinkShipped(codec: Codec, src: Fs, paths: set<Path>, ship: Shipment, p: Path)
    requires ShipsBlobs(codec, src, paths, ship) && KeptLink(src, p)
    ensures ShipsBlobs(codec, src, paths + {p}, WithLink(codec, ship, Joined(p), src[p].target, src[p].mtime))
  {
    hide Joined, Noise, ContentOf;
    StillContents(codec, src, paths, ship, p);
    IsContent(src, paths + {p}, p);
  }

  lemma IsContent(src: Fs, paths: set<Path>, p: Path)
    requires p in paths
    ensures KeptFile(src, p) ==> ContentOf(src, paths, src[p].bytes)
    ensures KeptLink(src, p) ==> ContentOf(src, paths, src[p].target)
  {
  }

  lemma OneMoreSkipped(codec: Codec, src: Fs, paths: set<Path>, ship: Shipment, p: Path)
    requires Ships(codec, src, paths, ship) && !KeptDir(src, p) && !KeptFile(src, p) && !KeptLink(src, p)
    ensures Ships(codec, src, paths + {p}, ship)
  {
    hide ShipsDirs, ShipsFiles, ShipsLinks, KeptDir, KeptFile, KeptLink;
    StillContents(codec, src, paths, ship, p);
    SkipDirs(src, paths, ship.manifest, ship.manifest, p);
    SkipFiles(codec, src, paths, ship.manifest, ship.manifest, p);
    SkipLinks(codec, src, paths, ship.manifest, ship.manifest, p);
  }

  lemma OneMoreShips(codec: Codec, src: Fs, paths: set<Path>, ship: Shipment, p: Path)
    requires Tree(src) && Clean(src) && Ships(codec, src, paths, ship) && p !in paths && p in src && p != [] && Approved(p)
    ensures var r := Recorded(codec, ship, Joined(p), Last(p), src[p]);
            r.Some? && Ships(codec, src, paths + {p}, r.value)
  {
    hide Tree, Clean, Ships, Joined, Sanitize, Noise, Approved, WithDir, WithFile, WithLink;
    CleanKey(src, p);
    if src[p].Dir? { OneMoreDir(codec, src, paths, ship, p); }
    else if KeptFile(src, p) { OneMoreFile(codec, src, paths, ship, p); }
    else if KeptLink(src, p) { OneMoreLink(codec, src, paths, ship, p); }
    else { OneMoreSkipped(codec, src, paths, ship, p); }
  }

  /** Without backslashes no key is taken twice, and the manifest lists exactly the nodes visited. */
  lemma {:induction false} VisitsShip(codec: Codec, src: Fs, visits: seq<Visit>)
    requires Tree(src) && Clean(src) && Fair(src, visits)
    ensures var r := RecordAll(codec, src, visits);
            r.Some? && Ships(codec, src, PathsOf(visits), r.value)
    decreases |visits|
  {
    hide Tree, Clean, Ships, Joined, Recorded, Approved;
    if visits == [] {
      assert PathsOf(visits) == {};
      NothingShips(codec, src);
    } else {
      var front, v := visits[..|visits| - 1], visits[|visits| - 1];
      FairFront(src, visits);
      VisitsShip(codec, src, front);
      CleanKey(src, v.path);
      OneMoreShips(codec, src, PathsOf(front), RecordAll(codec, src, front).value, v.path);
    }
  }

  lemma NothingShips(codec: Codec, src: Fs)
    ensures Ships(codec, src, {}, NOTHING)
  {
  }

  lemma FairFront(src: Fs, visits: seq<Visit>)
    requires Fair(src, visits) && visits != []
    ensures var front, v := visits[..|visits| - 1], visits[|visits| - 1];
            && Fair(src, front) && v.path !in PathsOf(front) && PathsOf(visits) == PathsOf(front) + {v.path}
            && v.path in src && v.path != [] && Approved(v.path) && (v.key == Joined(v.path) || v.key == Key(v.path))
  {
    hide Joined, Key, Approved;
    var front, v := visits[..|visits| - 1], visits[|visits| - 1];
    assert visits == front + [v];
    PathsAfter(front, v);
    assert v in visits && forall x :: x in front ==> x in visits;
    forall x | x in front ensures x.path != v.path {
      var i :| 0 <= i < |front| && front[i] == x;
      assert visits[i].path != visits[|front|].path;
    }
  }

  lemma NoCollision(codec: Codec, src: Fs)
    requires Tree(src) && Clean(src)
    ensures !Collides(codec, src)
  {
    forall visits | Fair(src, visits) ensures RecordAll(codec, src, visits).Some? { VisitsShip(codec, src, visits); }
  }

  // ── Ingest ────────────────────────────────────────────────────────

  datatype IngestError = MissingContent | Refused(cause: StoreError)

  datatype Ingested = Ingested(store: Store, error: Option<IngestError>)

  function IngestOne(codec: Codec, st: Store, blobs: map<string, Bytes>, digest: string, now: int): Ingested {
    if digest !in blobs then Ingested(st, Some(MissingContent))
    else
      var s := StoreBlobForDigest(codec, st, digest, blobs[digest], now);
      Ingested(s.store, if s.outcome.Err? then Some(Refused(s.outcome.error)) else None)
  }

  /** Stores the listed contents one after another until one is refused. */
  function IngestAll(codec: Codec, st: Store, blobs: map<string, Bytes>, digests: seq<string>, now: int): Ingested
    decreases |digests|
  {
    if digests == [] then Ingested(st, None)
    else
      var before := IngestAll(codec, st, blobs, digests[..|digests| - 1], now);
      if before.error.Some? then before else IngestOne(codec, before.store, blobs, digests[|digests| - 1], now)
  }

  function EntryDigests(entries: map<string, Entry>, keys: seq<string>): (ds: seq<string>)
    requires forall k :: k in keys ==> k in entries
    ensures |ds| == |keys| && forall i :: 0 <= i < |keys| ==> ds[i] == entries[keys[i]].digest
  {
    if keys == [] then [] else EntryDigests(entries, keys[..|keys| - 1]) + [entries[keys[|keys| - 1]].digest]
  }

  function ShipmentDigests(order: set<string> -> seq<string>, m: Manifest): seq<string>
    requires Walks(order)
  {
    EntryDigests(m.files, order(m.files.Keys)) + EntryDigests(m.links, order(m.links.Keys))
  }

  method IngestDigests(store: BlobStore, blobs: map<string, Bytes>, digests: seq<string>, now: int) returns (error: Option<IngestError>)
    modifies store
    ensures Ingested(store.Contents(), error) == IngestAll(store.codec, old(store.Contents()), blobs, digests, now)
  {
    hide StoreBlobForDigest;
    var i := 0;
    while i < |digests|
      invariant i <= |digests|
      invariant Ingested(store.Contents(), None) == IngestAll(store.codec, old(store.Contents()), blobs, digests[..i], now)
    {
      assert digests[..i + 1][..i] == digests[..i];
      if digests[i] !in blobs {
        IngestStops(store.codec, old(store.Contents()), blobs, digests, i + 1, now);
        return Some(MissingContent);
      }
      var stored := store.StoreForDigest(digests[i], blobs[digests[i]], now);
      if stored.Err? {
        IngestStops(store.codec, old(store.Contents()), blobs, digests, i + 1, now);
        return Some(Refused(stored.error));
      }
      i := i + 1;
    }
    assert digests[..i] == digests;
    return None;
  }

  lemma {:induction false} IngestStops(codec: Codec, st: Store, blobs: map<string, Bytes>, digests: seq<string>, i: nat, now: int)
    requires i <= |digests| && IngestAll(codec, st, blobs, digests[..i], now).error.Some?
    ensures IngestAll(codec, st, blobs, digests, now) == IngestAll(codec, st, blobs, digests[..i], now)
    decreases |digests|
  {
    if i == |digests| {
      assert digests[..i] == digests;
    } else {
      assert digests[..|digests| - 1][..i] == digests[..i];
      IngestStops(codec, st, blobs, digests[..|digests| - 1], i, now);
    }
  }

  ghost predicate Holds(st: Store, st': Store, digests: seq<string>) {
    && (forall d :: d in st.blobs ==> d in st'.blobs && st'.blobs[d] == st.blobs[d])
    && (forall d :: d in digests ==> d in st'.blobs)
  }

  /** Every stored blob and every decoded variant is among these byte strings. */
  ghost predicate StoreWithin(codec: Codec, pool: set<Bytes>, st: Store) {
    && (forall d :: d in st.blobs ==> st.blobs[d] in pool)
    && (forall d :: d in st.zstd && codec.zstdDecode(st.zstd[d]).Some? ==> codec.zstdDecode(st.zstd[d]).value in pool)
  }

  /** Ingesting a shipment none of whose contents collides with what is stored succeeds, keeps the store sound and leaves every content in it. */
  lemma {:induction false} IngestKeeps(codec: Codec, pool: set<Bytes>, st: Store, blobs: map<string, Bytes>, digests: seq<string>, now: int)
    requires codec.Lawful() && codec.CollisionFreeOn(pool) && Sound(codec, st) && StoreWithin(codec, pool, st)
    requires forall d :: d in blobs ==> codec.sha256(blobs[d]) == d && blobs[d] in pool
    requires forall d :: d in digests ==> d in blobs
    ensures var r := IngestAll(codec, st, blobs, digests, now);
            r.error.None? && Sound(codec, r.store) && StoreWithin(codec, pool, r.store) && Holds(st, r.store, digests)
    decreases |digests|
  {
    hide Codec.Lawful, Codec.CollisionFreeOn, Sound, StoreBlobForDigest, StoreWithin;
    if digests != [] {
      var front, d := digests[..|digests| - 1], digests[|digests| - 1];
      assert d in digests && forall x :: x in digests <==> x in front || x == d;
      IngestKeeps(codec, pool, st, blobs, front, now);
      OneMoreBlob(codec, pool, IngestAll(codec, st, blobs, front, now).store, d, blobs[d], now);
    }
  }

  lemma OneMoreBlob(codec: Codec, pool: set<Bytes>, st: Store, d: string, bytes: Bytes, now: int)
    requires codec.Lawful() && codec.CollisionFreeOn(pool) && Sound(codec, st) && StoreWithin(codec, pool, st) && codec.sha256(bytes) == d && bytes in pool
    ensures var s := StoreBlobForDigest(codec, st, d, bytes, now);
            && s.outcome.Ok? && Sound(codec, s.store) && d in s.store.blobs && StoreWithin(codec, pool, s.store)
            && forall x :: x in st.blobs ==> x in s.store.blobs && s.store.blobs[x] == st.blobs[x]
  {
    hide StoreBlobForDigest;
    StoreKeeps(codec, st, d, bytes, now);
    if d in st.blobs {
      assert BlobSound(codec, st, d);
      assert codec.Apart(st.blobs[d], bytes);
    }
    StoreStaysWithin(codec, pool, st, d, bytes, now);
  }

  lemma StoreStaysWithin(codec: Codec, pool: set<Bytes>, st: Store, d: string, bytes: Bytes, now: int)
    requires codec.Lawful() && StoreWithin(codec, pool, st) && bytes in pool
    ensures StoreWithin(codec, pool, StoreBlobForDigest(codec, st, d, bytes, now).store)
  {
    hide MaybeStoreZstdVariant, Codec.Lawful, ValidDigest;
    var s0 := if d !in st.blobs then st.(blobs := st.blobs[d := bytes]) else st;
    assert StoreWithin(codec, pool, s0);
    VariantStaysWithin(codec, pool, EnsureMetadata(s0, d, |bytes|, now).store, d, bytes, now);
  }

  lemma VariantStaysWithin(codec: Codec, pool: set<Bytes>, st: Store, d: string, bytes: Bytes, now: int)
    requires codec.Lawful() && StoreWithin(codec, pool, st) && bytes in pool
    ensures StoreWithin(codec, pool, MaybeStoreZstdVariant(codec, st, d, bytes, now).store)
  {
    hide ValidDigest;
  }
}

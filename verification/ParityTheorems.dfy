/** Capture, ingest and reconciliation together rebuild what was captured. */
module ParityTheorems {
  import opened Common
  import opened Collections
  import opened Codecs
  import opened BlobStores
  import opened Paths
  import opened FileSystems
  import opened ParityCaptures
  import opened ParityShipments
  import opened ParityRestores
  import opened ParityEffects
  import opened ParityPhases

  // ── The manifest ──────────────────────────────────────────────────

  ghost predicate Scope(src: Fs, paths: set<Path>) {
    forall p :: p in paths <==> p in src && Approved(p)
  }

  lemma EntryFits(codec: Codec, src: Fs, paths: set<Path>, ship: Shipment, k: string)
    requires Source(src) && Scope(src, paths) && Ships(codec, src, paths, ship)
    ensures k in ship.manifest.dirs ==> Fits(codec, src, MakeDirectory(k)) && Fits(codec, src, StampDirectory(k, ship.manifest.dirs[k]))
    ensures k in ship.manifest.links ==> Fits(codec, src, PutLink(k, ship.manifest.links[k]))
    ensures k in ship.manifest.files ==> Fits(codec, src, PutFile(k, ship.manifest.files[k]))
  {
    hide Sanitize, Joined, Approved, Noise, Tree, Clean;
  }

  lemma CapturedTarget(src: Fs, p: Path)
    requires Tree(src) && Clean(src) && Captured(src, p)
    ensures p in src && p != [] && Target(Joined(p)) == Some(p)
  {
    CleanKey(src, p);
  }

  lemma CapturedIsListed(codec: Codec, src: Fs, paths: set<Path>, ship: Shipment, p: Path)
    requires Source(src) && Scope(src, paths) && Ships(codec, src, paths, ship) && Captured(src, p)
    ensures Target(Joined(p)) == Some(p)
    ensures KeptDir(src, p) ==> Joined(p) in ship.manifest.dirs
    ensures KeptLink(src, p) ==> Joined(p) in ship.manifest.links
    ensures KeptFile(src, p) ==> Joined(p) in ship.manifest.files
  {
    hide Sanitize, Joined, Approved, Noise, Target;
    CapturedTarget(src, p);
  }

  lemma WorksFit(codec: Codec, src: Fs, paths: set<Path>, ship: Shipment, order: set<string> -> seq<string>)
    requires Source(src) && Scope(src, paths) && Ships(codec, src, paths, ship) && Walks(order)
    ensures var m := ship.manifest;
            && (forall w :: w in Makes(order(m.dirs.Keys)) ==> w.MakeDirectory? && Fits(codec, src, w))
            && (forall w :: w in Links(m, order(m.links.Keys)) ==> w.PutLink? && Fits(codec, src, w))
            && (forall w :: w in Files(m, order(m.files.Keys)) ==> w.PutFile? && Fits(codec, src, w))
            && (forall w :: w in Stamps(m, order(m.dirs.Keys)) ==> w.StampDirectory? && Fits(codec, src, w))
  {
    hide Source, Scope, Ships, Fits;
    var m := ship.manifest;
    var ds, ls, fs := order(m.dirs.Keys), order(m.links.Keys), order(m.files.Keys);
    forall i | 0 <= i < |ds| ensures Fits(codec, src, Makes(ds)[i]) && Fits(codec, src, Stamps(m, ds)[i]) {
      assert ds[i] in ds;
      EntryFits(codec, src, paths, ship, ds[i]);
    }
    forall i | 0 <= i < |ls| ensures Fits(codec, src, Links(m, ls)[i]) {
      assert ls[i] in ls;
      EntryFits(codec, src, paths, ship, ls[i]);
    }
    forall i | 0 <= i < |fs| ensures Fits(codec, src, Files(m, fs)[i]) {
      assert fs[i] in fs;
      EntryFits(codec, src, paths, ship, fs[i]);
    }
  }

  lemma WorksCover(m: Manifest, order: set<string> -> seq<string>, k: string)
    requires Walks(order)
    ensures k in m.dirs ==> MakeDirectory(k) in Makes(order(m.dirs.Keys)) && StampDirectory(k, m.dirs[k]) in Stamps(m, order(m.dirs.Keys))
    ensures k in m.links ==> PutLink(k, m.links[k]) in Links(m, order(m.links.Keys))
    ensures k in m.files ==> PutFile(k, m.files[k]) in Files(m, order(m.files.Keys))
  {
    var ds, ls, fs := order(m.dirs.Keys), order(m.links.Keys), order(m.files.Keys);
    if k in m.dirs {
      assert k in ds;
      var i :| 0 <= i < |ds| && ds[i] == k;
      assert Makes(ds)[i] == MakeDirectory(k) && Stamps(m, ds)[i] == StampDirectory(k, m.dirs[k]);
    }
    if k in m.links {
      assert k in ls;
      var i :| 0 <= i < |ls| && ls[i] == k;
      assert Links(m, ls)[i] == PutLink(k, m.links[k]);
    }
    if k in m.files {
      assert k in fs;
      var i :| 0 <= i < |fs| && fs[i] == k;
      assert Files(m, fs)[i] == PutFile(k, m.files[k]);
    }
  }

  lemma OrderCovers(order: set<string> -> seq<string>, m: Manifest)
    requires Walks(order)
    ensures forall k :: k in order(m.dirs.Keys) ==> k in m.dirs
    ensures forall k :: k in order(m.links.Keys) ==> k in m.links
    ensures forall k :: k in order(m.files.Keys) ==> k in m.files
  {
  }

  lemma StampsAreListed(m: Manifest, order: set<string> -> seq<string>, w: Work)
    requires Walks(order) && w in Stamps(m, order(m.dirs.Keys))
    ensures w.key in m.dirs
  {
    var ds := order(m.dirs.Keys);
    var i :| 0 <= i < |ds| && Stamps(m, ds)[i] == w;
    assert ds[i] in ds;
  }

  // ── Times of directories ──────────────────────────────────────────

  predicate Exact(src: Fs, f: Fs, q: Path) {
    q in f && q in src && f[q] == src[q]
  }

  ghost predicate Stamped(src: Fs, f: Fs, f': Fs) {
    f'.Keys == f.Keys && forall q :: q in f ==> f'[q] == f[q] || (f[q].Dir? && f'[q].Dir? && Exact(src, f', q))
  }

  lemma {:induction false} StampsAdvance(codec: Codec, st: Store, src: Fs, start: Progress, works: seq<Work>, now: int)
    requires forall w :: w in works ==> w.StampDirectory? && Fits(codec, src, w) && IsDir(start.fs, Target(w.key).value)
    ensures var r := PerformAll(codec, st, start, works, now);
            && r.issues == start.issues && Stamped(src, start.fs, r.fs)
            && forall w :: w in works ==> Target(w.key).Some? && Exact(src, r.fs, Target(w.key).value)
    decreases |works|
  {
    hide Target, Captured;
    if works != [] {
      var front, w := works[..|works| - 1], works[|works| - 1];
      assert w in works && forall x :: x in works <==> x in front || x == w;
      StampsAdvance(codec, st, src, start, front, now);
    }
  }

  lemma StampedMoves(src: Fs, f: Fs, f': Fs)
    requires Stamped(src, f, f')
    ensures Moves(src, f, f')
  {
    hide Captured, Temporary, Needed;
  }

  // ── Rebuilding ────────────────────────────────────────────────────

  /** No captured link has the name used for a link that is restored after it. */
  ghost predicate LinksInOrder(keys: seq<string>) {
    forall i, j :: 0 <= i < j < |keys| ==> !LostTo(keys[i], keys[j])
  }

  /** Restoring the link at `later` clears away the node at `key`. */
  predicate LostTo(key: string, later: string) {
    Target(key).Some? && Target(later).Some? && Target(key).value == Sibling(Target(later).value, LINK_LINK)
  }

  /** Every captured node is exactly as captured, and all else is as it was. */
  ghost predicate Rebuilt(src: Fs, f: Fs, f': Fs) {
    && Tree(f') && Moves(src, f, f')
    && forall p :: p in src && Captured(src, p) ==> Exact(src, f', p)
  }

  lemma DirectoriesInOrder(codec: Codec, src: Fs, works: seq<Work>)
    requires forall w :: w in works ==> w.MakeDirectory? && Fits(codec, src, w)
    ensures InOrder(src, works)
  {
    forall i, j | 0 <= i < j < |works| ensures Avoids(src, works[i], works[j]) {
      assert works[i] in works && works[j] in works;
    }
  }

  lemma FileAvoids(codec: Codec, src: Fs, a: Work, b: Work)
    requires Fits(codec, src, a) && Fits(codec, src, b) && (a.PutFile? || a.PutLink?) && b.PutFile?
    ensures Avoids(src, a, b)
  {
    hide Target, Captured, Sibling, Noise;
    PartsAreNotCaptured(src, Target(b.key).value, Sibling(Target(b.key).value, FILE_PART));
  }

  lemma FilesInOrder(codec: Codec, src: Fs, works: seq<Work>)
    requires forall w :: w in works ==> w.PutFile? && Fits(codec, src, w)
    ensures InOrder(src, works)
  {
    hide Fits, Avoids;
    forall i, j | 0 <= i < j < |works| ensures Avoids(src, works[i], works[j]) {
      assert works[i] in works && works[j] in works;
      FileAvoids(codec, src, works[i], works[j]);
    }
  }

  lemma LinkAvoids(codec: Codec, src: Fs, a: Work, b: Work)
    requires Fits(codec, src, a) && Fits(codec, src, b) && a.PutLink? && b.PutLink? && !LostTo(a.key, b.key)
    ensures Avoids(src, a, b)
  {
    hide Target, Captured, Sibling, Noise;
    PartsAreNotCaptured(src, Target(b.key).value, Sibling(Target(b.key).value, LINK_PART));
  }

  lemma LinkWorksInOrder(codec: Codec, src: Fs, m: Manifest, keys: seq<string>)
    requires (forall k :: k in keys ==> k in m.links) && LinksInOrder(keys)
    requires forall w :: w in Links(m, keys) ==> w.PutLink? && Fits(codec, src, w)
    ensures InOrder(src, Links(m, keys))
  {
    hide Fits, Avoids, LostTo;
    var works := Links(m, keys);
    forall i, j | 0 <= i < j < |works| ensures Avoids(src, works[i], works[j]) {
      assert works[i] in works && works[j] in works && !LostTo(keys[i], keys[j]);
      LinkAvoids(codec, src, works[i], works[j]);
    }
  }

  lemma DirectoriesAreSpared(codec: Codec, src: Fs, works: seq<Work>, q: Path)
    requires NoDirInTheWay(src) && (forall w :: w in works ==> Fits(codec, src, w)) && Captured(src, q) && KeptDir(src, q)
    ensures Spares(src, works, q)
  {
    hide Temps, KeptDir, Captured, Target, NoDirInTheWay, Fits;
    forall i | 0 <= i < |works| ensures Target(works[i].key).Some? && q !in Temps(src, Target(works[i].key).value) {
      assert works[i] in works;
      FitsCaptured(codec, src, works[i]);
      NotInTheWay(src, Target(works[i].key).value, q);
    }
  }

  lemma LinksAreSpared(codec: Codec, src: Fs, link: Work, works: seq<Work>)
    requires (forall w :: w in works ==> w.PutFile? && Fits(codec, src, w)) && link.PutLink? && Fits(codec, src, link)
    ensures Target(link.key).Some? && Spares(src, works, Target(link.key).value)
  {
    hide Fits, Target, Temps;
    FitsCaptured(codec, src, link);
    forall i | 0 <= i < |works| ensures Target(works[i].key).Some? && Target(link.key).value !in Temps(src, Target(works[i].key).value) {
      assert works[i] in works;
      FileAvoids(codec, src, link, works[i]);
    }
  }

  ghost predicate Listed(codec: Codec, src: Fs, m: Manifest, order: set<string> -> seq<string>)
    requires Walks(order)
  {
    && (forall w :: w in Makes(order(m.dirs.Keys)) ==> w.MakeDirectory? && Fits(codec, src, w))
    && (forall w :: w in Links(m, order(m.links.Keys)) ==> w.PutLink? && Fits(codec, src, w))
    && (forall w :: w in Files(m, order(m.files.Keys)) ==> w.PutFile? && Fits(codec, src, w))
    && (forall w :: w in Stamps(m, order(m.dirs.Keys)) ==> w.StampDirectory? && Fits(codec, src, w))
  }

  lemma DirectoryIsThere(codec: Codec, src: Fs, f: Fs, w: Work)
    requires Fits(codec, src, w) && (w.MakeDirectory? || w.StampDirectory?) && There(src, f, Target(w.key).value)
    ensures IsDir(f, Target(w.key).value) && Captured(src, Target(w.key).value) && KeptDir(src, Target(w.key).value)
  {
  }

  /** After the first phase every listed directory is there, and stays there. */
  lemma DirectoriesStay(codec: Codec, src: Fs, m: Manifest, order: set<string> -> seq<string>, p0: Progress, works: seq<Work>, p1: Progress, k: string)
    requires Walks(order) && NoDirInTheWay(src) && Listed(codec, src, m, order) && k in m.dirs
    requires Target(k).Some? && There(src, p0.fs, Target(k).value)
    requires (forall w :: w in works ==> Fits(codec, src, w)) && Phased(src, p0, works, p1)
    ensures There(src, p1.fs, Target(k).value)
  {
    hide Fits, Target, There, NoDirInTheWay, Compatible, Moves, Walks, Spares;
    WorksCover(m, order, k);
    var w := MakeDirectory(k);
    assert w in Makes(order(m.dirs.Keys));
    DirectoryIsThere(codec, src, p0.fs, w);
    DirectoriesAreSpared(codec, src, works, Target(k).value);
  }

  /** Links stay while files are restored. */
  lemma LinksStay(codec: Codec, src: Fs, m: Manifest, order: set<string> -> seq<string>, p1: Progress, p2: Progress, k: string)
    requires Walks(order) && Listed(codec, src, m, order) && k in m.links
    requires Target(k).Some? && There(src, p1.fs, Target(k).value)
    requires Phased(src, p1, Files(m, order(m.files.Keys)), p2)
    ensures There(src, p2.fs, Target(k).value)
  {
    hide Fits, Target, There, Compatible, Moves, Walks, Spares;
    OrderCovers(order, m);
    WorksCover(m, order, k);
    LinksAreSpared(codec, src, PutLink(k, m.links[k]), Files(m, order(m.files.Keys)));
  }

  lemma PhasedWork(src: Fs, start: Progress, works: seq<Work>, r: Progress, w: Work)
    requires Phased(src, start, works, r) && w in works
    ensures Target(w.key).Some? && There(src, r.fs, Target(w.key).value)
  {
  }

  lemma PhasedBasics(src: Fs, start: Progress, works: seq<Work>, r: Progress)
    requires Phased(src, start, works, r)
    ensures r.issues == start.issues && Compatible(src, r.fs) && Moves(src, start.fs, r.fs)
  {
  }

  /** Before the times are set, everything listed is there. */
  ghost predicate AllThere(src: Fs, m: Manifest, f: Fs) {
    && (forall k :: k in m.dirs ==> Target(k).Some? && There(src, f, Target(k).value))
    && (forall k :: k in m.links ==> Target(k).Some? && There(src, f, Target(k).value))
    && (forall k :: k in m.files ==> Target(k).Some? && There(src, f, Target(k).value))
  }

  lemma EverythingThere(codec: Codec, src: Fs, m: Manifest, order: set<string> -> seq<string>, start: Progress, p0: Progress, p1: Progress, p2: Progress)
    requires Walks(order) && NoDirInTheWay(src) && Listed(codec, src, m, order)
    requires Phased(src, start, Makes(order(m.dirs.Keys)), p0) && Phased(src, p0, Links(m, order(m.links.Keys)), p1)
    requires Phased(src, p1, Files(m, order(m.files.Keys)), p2)
    ensures AllThere(src, m, p2.fs)
  {
    hide Walks, NoDirInTheWay, Fits, Phased, Target, There;
    OrderCovers(order, m);
    forall k | k in m.dirs ensures Target(k).Some? && There(src, p2.fs, Target(k).value) {
      WorksCover(m, order, k);
      PhasedWork(src, start, Makes(order(m.dirs.Keys)), p0, MakeDirectory(k));
      DirectoriesStay(codec, src, m, order, p0, Links(m, order(m.links.Keys)), p1, k);
      DirectoriesStay(codec, src, m, order, p1, Files(m, order(m.files.Keys)), p2, k);
    }
    forall k | k in m.links ensures Target(k).Some? && There(src, p2.fs, Target(k).value) {
      WorksCover(m, order, k);
      PhasedWork(src, p0, Links(m, order(m.links.Keys)), p1, PutLink(k, m.links[k]));
      LinksStay(codec, src, m, order, p1, p2, k);
    }
    forall k | k in m.files ensures Target(k).Some? && There(src, p2.fs, Target(k).value) {
      WorksCover(m, order, k);
      PhasedWork(src, p1, Files(m, order(m.files.Keys)), p2, PutFile(k, m.files[k]));
    }
  }

  lemma AllExact(codec: Codec, src: Fs, paths: set<Path>, ship: Shipment, f: Fs, f': Fs)
    requires Source(src) && Scope(src, paths) && Ships(codec, src, paths, ship)
    requires AllThere(src, ship.manifest, f) && Stamped(src, f, f')
    requires forall k :: k in ship.manifest.dirs ==> Target(k).Some? && Exact(src, f', Target(k).value)
    ensures forall p :: p in src && Captured(src, p) ==> Exact(src, f', p)
  {
    hide Source, Scope, Ships, Target, Captured, Joined, Noise;
    forall p | p in src && Captured(src, p) ensures Exact(src, f', p) {
      CapturedIsListed(codec, src, paths, ship, p);
      OneKind(src, p);
    }
  }

  lemma OneKind(src: Fs, p: Path)
    requires Captured(src, p)
    ensures KeptDir(src, p) || KeptLink(src, p) || KeptFile(src, p)
  {
  }

  lemma StampedTree(src: Fs, f: Fs, f': Fs)
    requires Tree(f) && Stamped(src, f, f')
    ensures Tree(f')
  {
    AlikeTree(f, f');
  }

  lemma ExactVerifies(codec: Codec, src: Fs, paths: set<Path>, ship: Shipment, f: Fs)
    requires Source(src) && Scope(src, paths) && Ships(codec, src, paths, ship) && forall p :: p in src && Captured(src, p) ==> Exact(src, f, p)
    ensures Verified(codec, f, ship.manifest)
  {
    hide Source, Scope, Ships, Target, Captured, Noise;
    var m := ship.manifest;
    forall k | k in m.dirs ensures Target(k).Some? && DirMatches(f, Target(k).value, m.dirs[k]) { EntryFits(codec, src, paths, ship, k); }
    forall k | k in m.links ensures Target(k).Some? && LinkMatches(codec, f, Target(k).value, m.links[k]) { EntryFits(codec, src, paths, ship, k); }
    forall k | k in m.files ensures Target(k).Some? && FileMatches(codec, f, Target(k).value, m.files[k]) { EntryFits(codec, src, paths, ship, k); }
  }

  lemma AllListed(codec: Codec, src: Fs, paths: set<Path>, ship: Shipment, order: set<string> -> seq<string>)
    requires Source(src) && Scope(src, paths) && Ships(codec, src, paths, ship) && Walks(order)
    ensures Listed(codec, src, ship.manifest, order)
  {
    WorksFit(codec, src, paths, ship, order);
  }

  /**
   Reconciling any root in which nothing needed is of another kind has no issues, verifies,
   leaves every captured node exactly as captured and every other node as it was, when no
   captured directory and no earlier captured link has a name that restoring needs.
   */
  lemma ReconcileRebuilds(codec: Codec, st: Store, src: Fs, paths: set<Path>, ship: Shipment, order: set<string> -> seq<string>, f: Fs, now: int)
    requires Source(src) && Scope(src, paths) && Ships(codec, src, paths, ship) && Served(codec, st, src) && Walks(order)
    requires NoImpostor(codec, src, f) && Compatible(src, f) && NoDirInTheWay(src) && LinksInOrder(order(ship.manifest.links.Keys))
    ensures var r := Reconciled(codec, st, order, ship.manifest, f, now);
            r.issues == [] && Rebuilt(src, f, r.fs) && Verified(codec, r.fs, ship.manifest)
  {
    hide NoImpostor, Source, Scope, Ships, Served, Walks, Compatible, NoDirInTheWay, LinksInOrder, Fits, Target, PerformAll, Verified;
    hide Phased, InOrder, Stamped, Moves, Captured, There, Tree;
    var m := ship.manifest;
    AllListed(codec, src, paths, ship, order);
    OrderCovers(order, m);
    var makes, links, files, stamps := Makes(order(m.dirs.Keys)), Links(m, order(m.links.Keys)), Files(m, order(m.files.Keys)), Stamps(m, order(m.dirs.Keys));
    DirectoriesInOrder(codec, src, makes);
    LinkWorksInOrder(codec, src, m, order(m.links.Keys));
    FilesInOrder(codec, src, files);
    var start := Progress(f, 0, []);
    var p0 := PerformAll(codec, st, start, makes, now);
    var p1 := PerformAll(codec, st, p0, links, now);
    var p2 := PerformAll(codec, st, p1, files, now);
    PhaseRestores(codec, st, src, start, makes, now);
    PhasedBasics(src, start, makes, p0);
    PhaseRestores(codec, st, src, p0, links, now);
    PhasedBasics(src, p0, links, p1);
    PhaseRestores(codec, st, src, p1, files, now);
    PhasedBasics(src, p1, files, p2);
    EverythingThere(codec, src, m, order, start, p0, p1, p2);
    StampPhase(codec, st, src, paths, ship, order, p2, now);
    var p3 := PerformAll(codec, st, p2, stamps, now);
    MovesTransitive(src, f, p0.fs, p1.fs);
    MovesTransitive(src, f, p1.fs, p2.fs);
    MovesTransitive(src, f, p2.fs, p3.fs);
    ExactVerifies(codec, src, paths, ship, p3.fs);
  }

  lemma StampPhase(codec: Codec, st: Store, src: Fs, paths: set<Path>, ship: Shipment, order: set<string> -> seq<string>, p2: Progress, now: int)
    requires Source(src) && Scope(src, paths) && Ships(codec, src, paths, ship) && Walks(order) && Listed(codec, src, ship.manifest, order)
    requires Compatible(src, p2.fs) && AllThere(src, ship.manifest, p2.fs)
    ensures var p3 := PerformAll(codec, st, p2, Stamps(ship.manifest, order(ship.manifest.dirs.Keys)), now);
            && p3.issues == p2.issues && Tree(p3.fs) && Moves(src, p2.fs, p3.fs)
            && forall p :: p in src && Captured(src, p) ==> Exact(src, p3.fs, p)
  {
    hide Source, Scope, Ships, Walks, Fits, Target, PerformAll, Stamped, Moves, Captured, There, Tree, Compatible;
    var m := ship.manifest;
    OrderCovers(order, m);
    var stamps := Stamps(m, order(m.dirs.Keys));
    forall w | w in stamps ensures w.StampDirectory? && Fits(codec, src, w) && Target(w.key).Some? && IsDir(p2.fs, Target(w.key).value) {
      StampsAreListed(m, order, w);
      DirectoryIsThere(codec, src, p2.fs, w);
    }
    StampsAdvance(codec, st, src, p2, stamps, now);
    var p3 := PerformAll(codec, st, p2, stamps, now);
    forall k | k in m.dirs ensures Target(k).Some? && Exact(src, p3.fs, Target(k).value) { WorksCover(m, order, k); }
    AllExact(codec, src, paths, ship, p2.fs, p3.fs);
    CompatibleTree(src, p2.fs);
    StampedTree(src, p2.fs, p3.fs);
    StampedMoves(src, p2.fs, p3.fs);
  }

  // ── A second time ─────────────────────────────────────────────────

  ghost predicate AllAsCaptured(src: Fs, f: Fs) {
    forall p :: p in src && Captured(src, p) ==> Exact(src, f, p)
  }

  lemma NothingToDo(codec: Codec, st: Store, src: Fs, f: Fs, w: Work, now: int)
    requires AllAsCaptured(src, f) && Fits(codec, src, w)
    ensures Perform(codec, st, f, w, now) == Attempt(f, 0, None)
  {
    hide Captured, Target, CreateDirAll, PlaceFile, PlaceLink, Fetched;
    var p := Target(w.key).value;
    assert Exact(src, f, p);
    if w.StampDirectory? { assert f[p := Dir(w.mtime)] == f; }
  }

  lemma {:induction false} IdlePhase(codec: Codec, st: Store, src: Fs, start: Progress, works: seq<Work>, now: int)
    requires AllAsCaptured(src, start.fs) && forall w :: w in works ==> Fits(codec, src, w)
    ensures PerformAll(codec, st, start, works, now) == start
    decreases |works|
  {
    hide AllAsCaptured, Fits, Perform;
    if works != [] {
      var front, w := works[..|works| - 1], works[|works| - 1];
      assert w in works && forall x :: x in front ==> x in works;
      IdlePhase(codec, st, src, start, front, now);
      NothingToDo(codec, st, src, start.fs, w, now);
    }
  }

  /** Reconciling a root that has everything as captured, at any time and whatever the server still has, downloads and changes nothing. */
  lemma ReconcileAgain(codec: Codec, st: Store, src: Fs, paths: set<Path>, ship: Shipment, order: set<string> -> seq<string>, f: Fs, now: int)
    requires Source(src) && Scope(src, paths) && Ships(codec, src, paths, ship) && Walks(order) && AllAsCaptured(src, f)
    ensures Reconciled(codec, st, order, ship.manifest, f, now) == Progress(f, 0, []) && Verified(codec, f, ship.manifest)
  {
    hide Source, Scope, Ships, Walks, Fits, AllAsCaptured, PerformAll, Verified;
    var m := ship.manifest;
    AllListed(codec, src, paths, ship, order);
    OrderCovers(order, m);
    var start := Progress(f, 0, []);
    IdlePhase(codec, st, src, start, Makes(order(m.dirs.Keys)), now);
    IdlePhase(codec, st, src, start, Links(m, order(m.links.Keys)), now);
    IdlePhase(codec, st, src, start, Files(m, order(m.files.Keys)), now);
    IdlePhase(codec, st, src, start, Stamps(m, order(m.dirs.Keys)), now);
    VerifiesAsCaptured(codec, src, paths, ship, f);
  }

  lemma VerifiesAsCaptured(codec: Codec, src: Fs, paths: set<Path>, ship: Shipment, f: Fs)
    requires Source(src) && Scope(src, paths) && Ships(codec, src, paths, ship) && AllAsCaptured(src, f)
    ensures Verified(codec, f, ship.manifest)
  {
    hide Source, Scope, Ships, Captured, Verified;
    ExactVerifies(codec, src, paths, ship, f);
  }

  // ── End to end ────────────────────────────────────────────────────

  lemma DigestListed(m: Manifest, order: set<string> -> seq<string>, k: string)
    requires Walks(order)
    ensures k in m.files ==> m.files[k].digest in ShipmentDigests(order, m)
    ensures k in m.links ==> m.links[k].digest in ShipmentDigests(order, m)
  {
    var fs, ls := order(m.files.Keys), order(m.links.Keys);
    if k in m.files {
      assert k in fs;
      var i :| 0 <= i < |fs| && fs[i] == k;
      assert EntryDigests(m.files, fs)[i] == m.files[k].digest;
    }
    if k in m.links {
      assert k in ls;
      var i :| 0 <= i < |ls| && ls[i] == k;
      assert EntryDigests(m.links, ls)[i] == m.links[k].digest;
    }
  }

  lemma DigestsAreShipped(codec: Codec, src: Fs, paths: set<Path>, ship: Shipment, order: set<string> -> seq<string>)
    requires ShipsBlobs(codec, src, paths, ship) && Walks(order)
    ensures forall d :: d in ShipmentDigests(order, ship.manifest) ==> d in ship.blobs
  {
    var m := ship.manifest;
    var fs, ls := order(m.files.Keys), order(m.links.Keys);
    assert forall i :: 0 <= i < |fs| ==> fs[i] in fs;
    assert forall i :: 0 <= i < |ls| ==> ls[i] in ls;
  }

  /** Every captured content is among these byte strings. */
  ghost predicate CapturedWithin(src: Fs, pool: set<Bytes>) {
    forall p :: p in src && Captured(src, p) ==> (KeptFile(src, p) ==> src[p].bytes in pool) && (KeptLink(src, p) ==> src[p].target in pool)
  }

  lemma ContentIsServed(codec: Codec, pool: set<Bytes>, st: Store, bytes: Bytes, mtime: int)
    requires codec.CollisionFreeOn(pool) && Sound(codec, st) && StoreWithin(codec, pool, st) && bytes in pool && codec.sha256(bytes) in st.blobs
    ensures Fetched(codec, st, ContentEntry(codec, bytes, mtime)) == Some(bytes)
  {
    var d := codec.sha256(bytes);
    DownloadServesTheBlob(codec, st, d, true);
    FetchedIsWithin(codec, pool, st, ContentEntry(codec, bytes, mtime));
    assert codec.Apart(Fetched(codec, st, ContentEntry(codec, bytes, mtime)).value, bytes);
  }

  lemma FetchedIsWithin(codec: Codec, pool: set<Bytes>, st: Store, e: Entry)
    requires StoreWithin(codec, pool, st)
    ensures Fetched(codec, st, e).Some? ==> Fetched(codec, st, e).value in pool
  {
  }

  lemma StoreServes(codec: Codec, pool: set<Bytes>, st: Store, src: Fs, paths: set<Path>, ship: Shipment, order: set<string> -> seq<string>)
    requires Source(src) && Scope(src, paths) && Ships(codec, src, paths, ship) && Walks(order)
    requires codec.CollisionFreeOn(pool) && Sound(codec, st) && StoreWithin(codec, pool, st) && CapturedWithin(src, pool)
    requires forall d :: d in ShipmentDigests(order, ship.manifest) ==> d in st.blobs
    ensures Served(codec, st, src)
  {
    hide Source, Sound, Walks, Captured, Codec.CollisionFreeOn, StoreWithin, Fetched, ShipmentDigests, ShipsDirs, ShipsBlobs, Joined;
    forall p | p in src && Captured(src, p) && KeptFile(src, p)
      ensures Fetched(codec, st, ContentEntry(codec, src[p].bytes, src[p].mtime)) == Some(src[p].bytes)
    {
      ListedFile(codec, src, paths, ship, p);
      DigestListed(ship.manifest, order, Joined(p));
      ContentIsServed(codec, pool, st, src[p].bytes, src[p].mtime);
    }
    forall p | p in src && Captured(src, p) && KeptLink(src, p)
      ensures Fetched(codec, st, ContentEntry(codec, src[p].target, src[p].mtime)) == Some(src[p].target)
    {
      ListedLink(codec, src, paths, ship, p);
      DigestListed(ship.manifest, order, Joined(p));
      ContentIsServed(codec, pool, st, src[p].target, src[p].mtime);
    }
  }

  lemma ListedFile(codec: Codec, src: Fs, paths: set<Path>, ship: Shipment, p: Path)
    requires Scope(src, paths) && Ships(codec, src, paths, ship) && Captured(src, p) && KeptFile(src, p)
    ensures Joined(p) in ship.manifest.files && ship.manifest.files[Joined(p)].digest == codec.sha256(src[p].bytes)
  {
    hide Joined, Approved, Noise, Sanitize;
  }

  lemma ListedLink(codec: Codec, src: Fs, paths: set<Path>, ship: Shipment, p: Path)
    requires Scope(src, paths) && Ships(codec, src, paths, ship) && Captured(src, p) && KeptLink(src, p)
    ensures Joined(p) in ship.manifest.links && ship.manifest.links[Joined(p)].digest == codec.sha256(src[p].target)
  {
    hide Joined, Approved, Noise, Sanitize;
  }

  /**
   From the worker's walk over every approved node, through the server's ingest, to a
   client's root: the captured nodes are rebuilt with equal kinds, contents, link targets
   and times, the rest of the root is as it was, and a second reconciliation downloads
   nothing.
   */
  lemma ParityTheorem(codec: Codec, pool: set<Bytes>, src: Fs, visits: seq<Visit>, st: Store, order: set<string> -> seq<string>, f: Fs, now: int, later: Store, now': int)
    requires codec.Lawful() && Sound(codec, st) && Walks(order)
    requires codec.CollisionFreeOn(pool) && StoreWithin(codec, pool, st) && CapturedWithin(src, pool) && NoImpostor(codec, src, f)
    requires Source(src) && Fair(src, visits) && Scope(src, PathsOf(visits)) && Compatible(src, f) && NoDirInTheWay(src)
    requires var ship := RecordAll(codec, src, visits); ship.Some? ==> LinksInOrder(order(ship.value.manifest.links.Keys))
    ensures var ship := RecordAll(codec, src, visits);
            && ship.Some?
            && var m := ship.value.manifest;
               var ingested := IngestAll(codec, st, ship.value.blobs, ShipmentDigests(order, m), now);
               var r := Reconciled(codec, ingested.store, order, m, f, now);
               && ingested.error.None? && Sound(codec, ingested.store)
               && r.issues == [] && Rebuilt(src, f, r.fs) && Verified(codec, r.fs, m)
               && Reconciled(codec, later, order, m, r.fs, now') == Progress(r.fs, 0, [])
  {
    hide Codec.Lawful, Codec.CollisionFreeOn, StoreWithin, CapturedWithin, NoImpostor, Sound, Walks, Scope, Compatible, NoDirInTheWay, LinksInOrder, Verified, Reconciled, IngestAll, ShipmentDigests;
    hide ShipsDirs, ShipsFiles, ShipsLinks, Tree, Clean, Moves, Captured;
    VisitsShip(codec, src, visits);
    var ship := RecordAll(codec, src, visits).value;
    ShipmentArrives(codec, pool, src, PathsOf(visits), ship, st, order, now);
    var ingested := IngestAll(codec, st, ship.blobs, ShipmentDigests(order, ship.manifest), now);
    ReconcileRebuilds(codec, ingested.store, src, PathsOf(visits), ship, order, f, now);
    ReconcileAgain(codec, later, src, PathsOf(visits), ship, order, Reconciled(codec, ingested.store, order, ship.manifest, f, now).fs, now');
  }

  lemma ShippedIsWithin(src: Fs, paths: set<Path>, pool: set<Bytes>, bytes: Bytes)
    requires Scope(src, paths) && CapturedWithin(src, pool) && ContentOf(src, paths, bytes)
    ensures bytes in pool
  {
    hide Noise;
  }

  /** Once a shipment is ingested the server can serve every captured content. */
  lemma ShipmentArrives(codec: Codec, pool: set<Bytes>, src: Fs, paths: set<Path>, ship: Shipment, st: Store, order: set<string> -> seq<string>, now: int)
    requires codec.Lawful() && Sound(codec, st) && Walks(order)
    requires codec.CollisionFreeOn(pool) && StoreWithin(codec, pool, st) && CapturedWithin(src, pool)
    requires Source(src) && Scope(src, paths) && Ships(codec, src, paths, ship)
    ensures var ingested := IngestAll(codec, st, ship.blobs, ShipmentDigests(order, ship.manifest), now);
            ingested.error.None? && Sound(codec, ingested.store) && Served(codec, ingested.store, src)
  {
    hide Codec.Lawful, Codec.CollisionFreeOn, StoreWithin, CapturedWithin, Sound, Walks, Source, Scope, IngestAll, ShipmentDigests, ShipsDirs, ShipsFiles, ShipsLinks, Served, ContentOf;
    var digests := ShipmentDigests(order, ship.manifest);
    DigestsAreShipped(codec, src, paths, ship, order);
    forall d | d in ship.blobs ensures ship.blobs[d] in pool { ShippedIsWithin(src, paths, pool, ship.blobs[d]); }
    IngestKeeps(codec, pool, st, ship.blobs, digests, now);
    StoreServes(codec, pool, IngestAll(codec, st, ship.blobs, digests, now).store, src, paths, ship, order);
  }

  /** An empty root is compatible with every source. */
  lemma EmptyRootIsCompatible(src: Fs, t: int)
    requires Tree(src)
    ensures Compatible(src, map[[] := Dir(t)])
  {
    hide Captured;
    forall p, q | Captured(src, p) && q in Temps(src, p) ensures q != [] { TempsAreSiblings(src, p, q); }
  }

  lemma EmptyRootIsHonest(codec: Codec, src: Fs, t: int)
    ensures NoImpostor(codec, src, map[[] := Dir(t)])
  {
    hide Captured;
  }
}

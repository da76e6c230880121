/** Exactly when an empty root is rebuilt: which captured names restoring cannot cope with. */
module ParityExactness {
  import opened Common
  import opened Collections
  import opened Codecs
  import opened BlobStores
  import opened Paths
  import opened FileSystems
  import opened ParityCaptures
  import opened ParityShipments
  import opened ParityRestores
  import opened ParityEffects
  import opened ParityPhases
  import opened ParityTheorems

  // ── What one attempt can and cannot do, whatever the root ─────────

  lemma {:induction false} CreateKeeps(fs: Fs, p: Path, now: int)
    ensures var r := CreateDirAll(fs, p, now);
            r.Ok? ==> (forall q :: q in fs ==> q in r.value && Agrees(r.value[q], fs[q])) && (forall q :: q in r.value ==> q in fs || Within(p, q)) && IsDir(r.value, p)
    decreases |p|
  {
    if p !in fs && p != [] {
      CreateKeeps(fs, Parent(p), now);
      PrefixOfChild(p);
    }
  }

  lemma PlaceFileKeepsDirs(codec: Codec, f: Fs, p: Path, bytes: Bytes, e: Entry, now: int, q: Path)
    requires p != [] && IsDir(f, q)
    ensures IsDir(PlaceFile(codec, f, p, bytes, e, now).fs, q)
  {
    hide Sibling, FileMatches;
  }

  lemma SwapLinkKeepsDirs(f: Fs, p: Path, target: Bytes, mtime: int, now: int, q: Path)
    requires p != [] && IsDir(f, q)
    ensures IsDir(SwapLink(f, p, target, mtime, now).fs, q)
  {
    hide Sibling;
  }

  lemma PlaceLinkKeepsDirs(codec: Codec, f: Fs, p: Path, bytes: Bytes, e: Entry, now: int, q: Path)
    requires p != [] && IsDir(f, q)
    ensures IsDir(PlaceLink(codec, f, p, bytes, e, now).fs, q)
  {
    hide Sibling, SwapLink;
    var t := Sibling(p, LINK_PART);
    SiblingIsTemporary(p, LINK_PART);
    var w := WriteFile(f, t, bytes, now);
    if w.Ok? {
      var r := RemoveFile(w.value, t, now);
      if r.Ok? { SwapLinkKeepsDirs(r.value, p, bytes, e.mtime, now, q); }
    }
  }

  /** Directories are never removed or replaced. */
  lemma DirsPersist(codec: Codec, st: Store, f: Fs, w: Work, now: int, q: Path)
    requires IsDir(f, q)
    ensures IsDir(Perform(codec, st, f, w, now).fs, q)
  {
    hide Target, CreateDirAll, PlaceFile, PlaceLink, Fetched, FileMatches, LinkMatches;
    var t := Target(w.key);
    if t.Some? {
      CreateKeeps(f, t.value, now);
      CreateKeeps(f, Parent(t.value), now);
      var made := CreateDirAll(f, Parent(t.value), now);
      if made.Ok? && (w.PutFile? || w.PutLink?) {
        var bytes := Fetched(codec, st, w.entry);
        if bytes.Some? {
          PlaceFileKeepsDirs(codec, made.value, t.value, bytes.value, w.entry, now, q);
          PlaceLinkKeepsDirs(codec, made.value, t.value, bytes.value, w.entry, now, q);
        }
      }
    }
  }

  lemma PlaceFileCreates(codec: Codec, f: Fs, p: Path, bytes: Bytes, e: Entry, now: int, q: Path)
    requires p != [] && q !in f && q != p
    ensures var a := PlaceFile(codec, f, p, bytes, e, now); a.issue.None? ==> q !in a.fs
  {
    hide Sibling, FileMatches;
  }

  lemma SwapLinkCreates(f: Fs, p: Path, target: Bytes, mtime: int, now: int, q: Path)
    requires p != [] && q !in f && q != p
    ensures var a := SwapLink(f, p, target, mtime, now); a.issue.None? ==> q !in a.fs
  {
    hide Sibling;
  }

  lemma PlaceLinkCreates(codec: Codec, f: Fs, p: Path, bytes: Bytes, e: Entry, now: int, q: Path)
    requires p != [] && q !in f && q != p
    ensures var a := PlaceLink(codec, f, p, bytes, e, now); a.issue.None? ==> q !in a.fs
  {
    hide Sibling, SwapLink;
    var t := Sibling(p, LINK_PART);
    SiblingIsTemporary(p, LINK_PART);
    var w := WriteFile(f, t, bytes, now);
    if w.Ok? {
      var r := RemoveFile(w.value, t, now);
      if r.Ok? { SwapLinkCreates(r.value, p, bytes, e.mtime, now, q); }
    }
  }

  /** An attempt without issue creates nothing but its target and what is above it. */
  lemma NotCreated(codec: Codec, st: Store, f: Fs, w: Work, now: int, q: Path)
    requires q !in f && Target(w.key).Some? && !Within(Target(w.key).value, q)
    ensures var a := Perform(codec, st, f, w, now); a.issue.None? ==> q !in a.fs
  {
    hide Target, CreateDirAll, PlaceFile, PlaceLink, Fetched, FileMatches, LinkMatches;
    var p := Target(w.key).value;
    assert Within(p, p);
    PrefixOfChild(p);
    CreateKeeps(f, p, now);
    CreateKeeps(f, Parent(p), now);
    var made := CreateDirAll(f, Parent(p), now);
    if made.Ok? && (w.PutFile? || w.PutLink?) {
      var bytes := Fetched(codec, st, w.entry);
      if bytes.Some? {
        PlaceFileCreates(codec, made.value, p, bytes.value, w.entry, now, q);
        PlaceLinkCreates(codec, made.value, p, bytes.value, w.entry, now, q);
      }
    }
  }

  /** A directory in the place of a temporary stops the restoration of an absent file or link. */
  lemma DirInTheWayStops(codec: Codec, st: Store, src: Fs, f: Fs, w: Work, now: int, d: Path)
    requires Fits(codec, src, w) && (w.PutFile? || w.PutLink?) && Target(w.key).value !in f && d in Temps(src, Target(w.key).value) && IsDir(f, d)
    ensures Perform(codec, st, f, w, now).issue.Some?
  {
    hide Target, CreateDirAll, Fetched, Captured, Sibling, Noise;
    var p := Target(w.key).value;
    TempsAreSiblings(src, p, d);
    CreateKeeps(f, Parent(p), now);
    var made := CreateDirAll(f, Parent(p), now);
    if made.Ok? {
      var bytes := Fetched(codec, st, w.entry);
      if bytes.Some? {
        if w.PutFile? {
          assert WriteFile(made.value, d, bytes.value, now).Err?;
        } else {
          LinkStopped(codec, made.value, p, bytes.value, w.entry, now, d);
        }
      }
    }
  }

  lemma LinkStopped(codec: Codec, f: Fs, p: Path, bytes: Bytes, e: Entry, now: int, d: Path)
    requires p != [] && (d == Sibling(p, LINK_PART) || d == Sibling(p, LINK_LINK)) && IsDir(f, d)
    ensures PlaceLink(codec, f, p, bytes, e, now).issue.Some?
  {
    hide Sibling;
    var t := Sibling(p, LINK_PART);
    SiblingIsTemporary(p, LINK_PART);
    if d != t {
      var w := WriteFile(f, t, bytes, now);
      if w.Ok? {
        var r := RemoveFile(w.value, t, now);
        if r.Ok? {
          assert IsDir(r.value, d);
          SwapStopped(r.value, p, bytes, e.mtime, now, d);
        }
      }
    }
  }

  lemma SwapStopped(f: Fs, p: Path, target: Bytes, mtime: int, now: int, d: Path)
    requires p != [] && d == Sibling(p, LINK_LINK) && IsDir(f, d)
    ensures SwapLink(f, p, target, mtime, now).issue.Some?
  {
    hide Sibling;
  }

  /** Restoring an absent link without issue leaves nothing at its temporary name. */
  lemma LinkClears(codec: Codec, st: Store, f: Fs, w: Work, now: int)
    requires w.PutLink? && Target(w.key).Some? && Target(w.key).value !in f
    ensures var a := Perform(codec, st, f, w, now); a.issue.None? ==> Sibling(Target(w.key).value, LINK_LINK) !in a.fs
  {
    hide Target, CreateDirAll, Fetched, Sibling, LINK_LINK, PlaceLink;
    var p := Target(w.key).value;
    var made := CreateDirAll(f, Parent(p), now);
    if made.Ok? {
      var bytes := Fetched(codec, st, w.entry);
      if bytes.Some? { PlaceLinkClears(codec, made.value, p, bytes.value, w.entry, now); }
    }
  }

  lemma PlaceLinkClears(codec: Codec, f: Fs, p: Path, bytes: Bytes, e: Entry, now: int)
    requires p != []
    ensures var a := PlaceLink(codec, f, p, bytes, e, now); a.issue.None? ==> Sibling(p, LINK_LINK) !in a.fs
  {
    hide Sibling;
    ExtensionsHaveDots();
    SiblingDiffers(p, LINK_LINK, 22);
  }

  // ── Runs without issue ────────────────────────────────────────────

  lemma {:induction false} PerformSplit(codec: Codec, st: Store, start: Progress, a: seq<Work>, b: seq<Work>, now: int)
    ensures PerformAll(codec, st, start, a + b, now) == PerformAll(codec, st, PerformAll(codec, st, start, a, now), b, now)
    decreases |b|
  {
    hide Perform;
    if b == [] {
      assert a + b == a;
    } else {
      assert (a + b)[..|a + b| - 1] == a + b[..|b| - 1];
      PerformSplit(codec, st, start, a, b[..|b| - 1], now);
    }
  }

  lemma {:induction false} IssuesGrow(codec: Codec, st: Store, start: Progress, works: seq<Work>, now: int)
    ensures start.issues <= PerformAll(codec, st, start, works, now).issues
    decreases |works|
  {
    hide Perform;
    if works != [] { IssuesGrow(codec, st, start, works[..|works| - 1], now); }
  }

  /** In a run that ends without issue no attempt had one. */
  lemma CleanAt(codec: Codec, st: Store, start: Progress, works: seq<Work>, now: int, i: nat)
    requires i < |works| && PerformAll(codec, st, start, works, now).issues == []
    ensures var before := PerformAll(codec, st, start, works[..i], now);
            before.issues == [] && Perform(codec, st, before.fs, works[i], now).issue.None?
            && PerformAll(codec, st, start, works[..i + 1], now) == With(before, Perform(codec, st, before.fs, works[i], now))
  {
    hide Perform;
    assert works == works[..i + 1] + works[i + 1..];
    PerformSplit(codec, st, start, works[..i + 1], works[i + 1..], now);
    IssuesGrow(codec, st, PerformAll(codec, st, start, works[..i + 1], now), works[i + 1..], now);
    assert works[..i + 1][..i] == works[..i];
  }

  lemma {:induction false} DirStays(codec: Codec, st: Store, start: Progress, works: seq<Work>, now: int, q: Path)
    requires IsDir(start.fs, q)
    ensures IsDir(PerformAll(codec, st, start, works, now).fs, q)
    decreases |works|
  {
    hide Perform;
    if works != [] {
      DirStays(codec, st, start, works[..|works| - 1], now, q);
      DirsPersist(codec, st, PerformAll(codec, st, start, works[..|works| - 1], now).fs, works[|works| - 1], now, q);
    }
  }

  /** None of these works is at q or below it. */
  ghost predicate Elsewhere(works: seq<Work>, q: Path) {
    forall i :: 0 <= i < |works| ==> Target(works[i].key).Some? && !Within(Target(works[i].key).value, q)
  }

  lemma {:induction false} StaysAbsent(codec: Codec, st: Store, start: Progress, works: seq<Work>, now: int, q: Path)
    requires q !in start.fs && Elsewhere(works, q) && PerformAll(codec, st, start, works, now).issues == []
    ensures q !in PerformAll(codec, st, start, works, now).fs
    decreases |works|
  {
    hide Perform, Target;
    if works != [] {
      var n := |works| - 1;
      assert works[..n + 1] == works;
      CleanAt(codec, st, start, works, now, n);
      ElsewhereFront(works, q);
      StaysAbsent(codec, st, start, works[..n], now, q);
      NotCreated(codec, st, PerformAll(codec, st, start, works[..n], now).fs, works[n], now, q);
    }
  }

  lemma ElsewhereFront(works: seq<Work>, q: Path)
    requires works != [] && Elsewhere(works, q)
    ensures Elsewhere(works[..|works| - 1], q) && Target(works[|works| - 1].key).Some? && !Within(Target(works[|works| - 1].key).value, q)
  {
    hide Target, Within;
    var front := works[..|works| - 1];
    assert forall i :: 0 <= i < |front| ==> front[i] == works[i];
  }

  // ── The works of a manifest ───────────────────────────────────────

  function AllWorks(m: Manifest, order: set<string> -> seq<string>): seq<Work>
    requires Walks(order)
  {
    Makes(order(m.dirs.Keys)) + Links(m, order(m.links.Keys)) + Files(m, order(m.files.Keys)) + Stamps(m, order(m.dirs.Keys))
  }

  lemma ReconciledIsOneRun(codec: Codec, st: Store, order: set<string> -> seq<string>, m: Manifest, f: Fs, now: int)
    requires Walks(order)
    ensures Reconciled(codec, st, order, m, f, now) == PerformAll(codec, st, Progress(f, 0, []), AllWorks(m, order), now)
  {
    hide PerformAll, Walks;
    OrderCovers(order, m);
    var makes, links, files, stamps := Makes(order(m.dirs.Keys)), Links(m, order(m.links.Keys)), Files(m, order(m.files.Keys)), Stamps(m, order(m.dirs.Keys));
    var start := Progress(f, 0, []);
    PerformSplit(codec, st, start, makes, links, now);
    PerformSplit(codec, st, start, makes + links, files, now);
    PerformSplit(codec, st, start, makes + links + files, stamps, now);
  }

  /** Each entry describes its node, under the node's own key, and no node but a directory is restored twice. */
  ghost predicate Orderly(codec: Codec, src: Fs, works: seq<Work>) {
    && (forall i :: 0 <= i < |works| ==> Fits(codec, src, works[i]))
    && (forall i, j :: 0 <= i < |works| && 0 <= j < |works| && i != j && Puts(works[i]) && Puts(works[j]) ==> !SameTarget(works[i], works[j]))
  }

  predicate Puts(w: Work) {
    w.PutFile? || w.PutLink?
  }

  predicate SameTarget(a: Work, b: Work) {
    Target(a.key) == Target(b.key)
  }

  /** Works other than the one that puts q are elsewhere. */
  lemma OthersElsewhere(codec: Codec, src: Fs, works: seq<Work>, i: nat, x: nat)
    requires Tree(src) && Orderly(codec, src, works) && i < |works| && x < |works| && x != i && Puts(works[i])
    ensures Target(works[i].key).Some? && Target(works[x].key).Some? && !Within(Target(works[x].key).value, Target(works[i].key).value)
  {
    hide Captured, Target, Noise;
    assert Fits(codec, src, works[i]) && Fits(codec, src, works[x]);
    var q, c := Target(works[i].key).value, Target(works[x].key).value;
    AncestorsNeeded(src, c);
    if Puts(works[x]) { assert !SameTarget(works[i], works[x]); }
  }

  lemma PartElsewhere(codec: Codec, src: Fs, works: seq<Work>, i: nat)
    requires Tree(src) && Orderly(codec, src, works) && i < |works| && Puts(works[i])
    ensures Target(works[i].key).Some? && Elsewhere(works[..i], Target(works[i].key).value) && Elsewhere(works[i + 1..], Target(works[i].key).value)
  {
    hide Orderly, Target, Within, Tree;
    assert Target(works[i].key).Some? by { FitsAt(codec, src, works, i); }
    var q := Target(works[i].key).value;
    var front, back := works[..i], works[i + 1..];
    forall x | 0 <= x < |front| ensures Target(front[x].key).Some? && !Within(Target(front[x].key).value, q) { OthersElsewhere(codec, src, works, i, x); }
    forall x | 0 <= x < |back| ensures Target(back[x].key).Some? && !Within(Target(back[x].key).value, q) {
      OthersElsewhere(codec, src, works, i, i + 1 + x);
    }
  }

  lemma FitsAt(codec: Codec, src: Fs, works: seq<Work>, i: nat)
    requires Orderly(codec, src, works) && i < |works|
    ensures Fits(codec, src, works[i]) && Target(works[i].key).Some?
  {
  }

  /** Until its turn, a node that is not a directory is absent. */
  lemma AbsentUntilTurn(codec: Codec, st: Store, src: Fs, start: Progress, works: seq<Work>, now: int, i: nat)
    requires Tree(src) && Orderly(codec, src, works) && i < |works| && Puts(works[i]) && PerformAll(codec, st, start, works, now).issues == []
    requires Target(works[i].key).Some? ==> Target(works[i].key).value !in start.fs
    ensures Target(works[i].key).Some? && Target(works[i].key).value !in PerformAll(codec, st, start, works[..i], now).fs
  {
    hide Orderly, Target, PerformAll, Tree, Perform;
    PartElsewhere(codec, src, works, i);
    CleanAt(codec, st, start, works, now, i);
    StaysAbsent(codec, st, start, works[..i], now, Target(works[i].key).value);
  }

  lemma CanonicalKey(codec: Codec, src: Fs, paths: set<Path>, ship: Shipment, k: string)
    requires Source(src) && Scope(src, paths) && Ships(codec, src, paths, ship) && (k in ship.manifest.links || k in ship.manifest.files)
    ensures Target(k).Some? && Joined(Target(k).value) == k
  {
    hide Sanitize, Joined, Noise, Tree, Clean;
    EntryFits(codec, src, paths, ship, k);
  }

  lemma DifferentKeys(codec: Codec, src: Fs, paths: set<Path>, ship: Shipment, a: string, b: string)
    requires Source(src) && Scope(src, paths) && Ships(codec, src, paths, ship) && a != b
    requires (a in ship.manifest.links || a in ship.manifest.files) && (b in ship.manifest.links || b in ship.manifest.files)
    ensures Target(a) != Target(b)
  {
    hide Source, Scope, Ships, Target, Joined;
    CanonicalKey(codec, src, paths, ship, a);
    CanonicalKey(codec, src, paths, ship, b);
  }

  /** The key of a link or file work, and where it stands among its kind. */
  lemma PutIsListed(m: Manifest, order: set<string> -> seq<string>, i: nat)
    requires Walks(order) && i < |AllWorks(m, order)| && Puts(AllWorks(m, order)[i])
    ensures var ls, fs, a := order(m.links.Keys), order(m.files.Keys), |order(m.dirs.Keys)|;
            var w := AllWorks(m, order)[i];
            || (w.PutLink? && a <= i < a + |ls| && w.key == ls[i - a] && w.key in m.links)
            || (w.PutFile? && a + |ls| <= i < a + |ls| + |fs| && w.key == fs[i - a - |ls|] && w.key in m.files)
  {
    var ls, fs, a := order(m.links.Keys), order(m.files.Keys), |order(m.dirs.Keys)|;
    if a <= i < a + |ls| { assert ls[i - a] in ls; }
    if a + |ls| <= i < a + |ls| + |fs| { assert fs[i - a - |ls|] in fs; }
  }

  lemma PutsDiffer(codec: Codec, src: Fs, paths: set<Path>, ship: Shipment, order: set<string> -> seq<string>, i: nat, j: nat)
    requires Source(src) && Scope(src, paths) && Ships(codec, src, paths, ship) && Walks(order)
    requires var works := AllWorks(ship.manifest, order);
             i < |works| && j < |works| && i != j && Puts(works[i]) && Puts(works[j]) && Fits(codec, src, works[i]) && Fits(codec, src, works[j])
    ensures !SameTarget(AllWorks(ship.manifest, order)[i], AllWorks(ship.manifest, order)[j])
  {
    hide Source, Scope, Ships, Target, AllWorks, Captured, Noise;
    var m := ship.manifest;
    var x, y := AllWorks(m, order)[i], AllWorks(m, order)[j];
    PutIsListed(m, order, i);
    PutIsListed(m, order, j);
    WalkCovers(order, m.links.Keys);
    WalkCovers(order, m.files.Keys);
    if x.PutLink? == y.PutLink? { DifferentKeys(codec, src, paths, ship, x.key, y.key); }
  }

  lemma WorksAreOrderly(codec: Codec, src: Fs, paths: set<Path>, ship: Shipment, order: set<string> -> seq<string>)
    requires Source(src) && Scope(src, paths) && Ships(codec, src, paths, ship) && Walks(order)
    ensures Orderly(codec, src, AllWorks(ship.manifest, order))
  {
    hide Source, Scope, Ships, Walks, Target, Fits, SameTarget;
    var m := ship.manifest;
    AllListed(codec, src, paths, ship, order);
    OrderCovers(order, m);
    var works := AllWorks(m, order);
    var makes, links, files, stamps := Makes(order(m.dirs.Keys)), Links(m, order(m.links.Keys)), Files(m, order(m.files.Keys)), Stamps(m, order(m.dirs.Keys));
    forall i | 0 <= i < |works| ensures Fits(codec, src, works[i]) {
      assert works[i] in makes || works[i] in links || works[i] in files || works[i] in stamps;
    }
    forall i, j | 0 <= i < |works| && 0 <= j < |works| && i != j && Puts(works[i]) && Puts(works[j]) ensures !SameTarget(works[i], works[j]) {
      PutsDiffer(codec, src, paths, ship, order, i, j);
    }
  }

  // ── Only if ───────────────────────────────────────────────────────

  /** A directory made in the first phase is there ever after. */
  lemma DirectoryThereAt(codec: Codec, st: Store, start: Progress, works: seq<Work>, now: int, i: nat, j: nat)
    requires i < j <= |works| && works[i].MakeDirectory? && PerformAll(codec, st, start, works, now).issues == []
    ensures Target(works[i].key).Some? && IsDir(PerformAll(codec, st, start, works[..j], now).fs, Target(works[i].key).value)
  {
    hide Target, PerformAll, CreateDirAll;
    CleanAt(codec, st, start, works, now, i);
    var before := PerformAll(codec, st, start, works[..i], now);
    var p := Target(works[i].key).value;
    CreateKeeps(before.fs, p, now);
    assert works[..j] == works[..i + 1] + works[i + 1..j];
    PerformSplit(codec, st, start, works[..i + 1], works[i + 1..j], now);
    DirStays(codec, st, PerformAll(codec, st, start, works[..i + 1], now), works[i + 1..j], now, p);
  }

  lemma NoDirWasInTheWay(codec: Codec, st: Store, src: Fs, start: Progress, works: seq<Work>, now: int, i: nat, j: nat)
    requires Tree(src) && Orderly(codec, src, works) && PerformAll(codec, st, start, works, now).issues == []
    requires i < j < |works| && works[i].MakeDirectory? && Puts(works[j])
    requires Target(works[j].key).Some? ==> Target(works[j].key).value !in start.fs
    ensures Target(works[i].key).Some? && Target(works[j].key).Some? && Target(works[i].key).value !in Temps(src, Target(works[j].key).value)
  {
    hide Target, PerformAll, Tree, Temps, Perform, Fits;
    FitsAt(codec, src, works, i);
    FitsAt(codec, src, works, j);
    DirectoryThereAt(codec, st, start, works, now, i, j);
    AbsentUntilTurn(codec, st, src, start, works, now, j);
    CleanAt(codec, st, start, works, now, j);
    if Target(works[i].key).value in Temps(src, Target(works[j].key).value) {
      DirInTheWayStops(codec, st, src, PerformAll(codec, st, start, works[..j], now).fs, works[j], now, Target(works[i].key).value);
    }
  }

  lemma NoLinkWasLost(codec: Codec, st: Store, src: Fs, start: Progress, works: seq<Work>, now: int, i: nat, j: nat)
    requires Tree(src) && Orderly(codec, src, works) && PerformAll(codec, st, start, works, now).issues == []
    requires i < j < |works| && works[i].PutLink? && works[j].PutLink?
    requires Target(works[j].key).Some? ==> Target(works[j].key).value !in start.fs
    requires Target(works[i].key).Some? ==> Target(works[i].key).value in PerformAll(codec, st, start, works, now).fs
    ensures !LostTo(works[i].key, works[j].key)
  {
    hide Target, PerformAll, Tree, Perform, Sibling, Orderly;
    AbsentUntilTurn(codec, st, src, start, works, now, j);
    CleanAt(codec, st, start, works, now, j);
    LinkClears(codec, st, PerformAll(codec, st, start, works[..j], now).fs, works[j], now);
    if LostTo(works[i].key, works[j].key) {
      GoneForGood(codec, st, src, start, works, now, i, j);
    }
  }

  /** What is absent after its own turn and another work is absent at the end. */
  lemma GoneForGood(codec: Codec, st: Store, src: Fs, start: Progress, works: seq<Work>, now: int, i: nat, j: nat)
    requires Tree(src) && Orderly(codec, src, works) && PerformAll(codec, st, start, works, now).issues == []
    requires i < j < |works| && Puts(works[i]) && Target(works[i].key).Some?
    requires Target(works[i].key).value !in PerformAll(codec, st, start, works[..j + 1], now).fs
    ensures Target(works[i].key).value !in PerformAll(codec, st, start, works, now).fs
  {
    hide Target, PerformAll, Tree, Orderly, Within;
    var q := Target(works[i].key).value;
    PartElsewhere(codec, src, works, i);
    var rest := works[j + 1..];
    assert forall x :: 0 <= x < |rest| ==> rest[x] == works[i + 1..][x + j - i];
    assert works == works[..j + 1] + rest;
    PerformSplit(codec, st, start, works[..j + 1], rest, now);
    StaysAbsent(codec, st, PerformAll(codec, st, start, works[..j + 1], now), rest, now, q);
  }

  // ── The exact condition ───────────────────────────────────────────

  lemma DirectoryAt(m: Manifest, order: set<string> -> seq<string>, k: string) returns (i: nat)
    requires Walks(order) && k in m.dirs
    ensures i < |order(m.dirs.Keys)| <= |AllWorks(m, order)| && AllWorks(m, order)[i] == MakeDirectory(k)
  {
    var ds := order(m.dirs.Keys);
    assert k in ds;
    i :| 0 <= i < |ds| && ds[i] == k;
  }

  lemma PutAt(m: Manifest, order: set<string> -> seq<string>, k: string, link: bool) returns (j: nat)
    requires Walks(order) && (if link then k in m.links else k in m.files)
    ensures |order(m.dirs.Keys)| <= j < |AllWorks(m, order)|
    ensures AllWorks(m, order)[j] == if link then PutLink(k, m.links[k]) else PutFile(k, m.files[k])
  {
    hide Walks;
    WalkCovers(order, m.dirs.Keys);
    WalkCovers(order, m.links.Keys);
    WalkCovers(order, m.files.Keys);
    var ls, fs, a := order(m.links.Keys), order(m.files.Keys), |order(m.dirs.Keys)|;
    if link {
      var x :| 0 <= x < |ls| && ls[x] == k;
      j := a + x;
    } else {
      var x :| 0 <= x < |fs| && fs[x] == k;
      j := a + |ls| + x;
    }
  }

  lemma RunShowsNoDirInTheWay(codec: Codec, st: Store, src: Fs, paths: set<Path>, ship: Shipment, order: set<string> -> seq<string>, start: Progress, now: int, p: Path, d: Path)
    requires Source(src) && Scope(src, paths) && Ships(codec, src, paths, ship) && Walks(order) && start.fs.Keys == {[]}
    requires PerformAll(codec, st, start, AllWorks(ship.manifest, order), now).issues == []
    requires Captured(src, p) && Captured(src, d) && KeptDir(src, d)
    ensures d !in Temps(src, p)
  {
    hide Scope, Ships, Clean, Tree, Walks, PerformAll, AllWorks, Captured, Joined, Target, Noise, Orderly;
    if KeptFile(src, p) || KeptLink(src, p) {
      CapturedIsListed(codec, src, paths, ship, p);
      CapturedIsListed(codec, src, paths, ship, d);
      var works := AllWorks(ship.manifest, order);
      var i := DirectoryAt(ship.manifest, order, Joined(d));
      var j := PutAt(ship.manifest, order, Joined(p), KeptLink(src, p));
      WorksAreOrderly(codec, src, paths, ship, order);
      NoDirWasInTheWay(codec, st, src, start, works, now, i, j);
    }
  }

  lemma LinkAt(m: Manifest, order: set<string> -> seq<string>, x: nat)
    requires Walks(order) && x < |order(m.links.Keys)|
    ensures var i := |order(m.dirs.Keys)| + x;
            var k := order(m.links.Keys)[x];
            i < |AllWorks(m, order)| && k in m.links && AllWorks(m, order)[i] == PutLink(k, m.links[k])
  {
    var ls := order(m.links.Keys);
    assert ls[x] in ls;
  }

  lemma RunShowsLinksInOrder(codec: Codec, st: Store, src: Fs, paths: set<Path>, ship: Shipment, order: set<string> -> seq<string>, start: Progress, now: int)
    requires Source(src) && Scope(src, paths) && Ships(codec, src, paths, ship) && Walks(order) && start.fs.Keys == {[]}
    requires var r := PerformAll(codec, st, start, AllWorks(ship.manifest, order), now); r.issues == [] && AllAsCaptured(src, r.fs)
    ensures LinksInOrder(order(ship.manifest.links.Keys))
  {
    hide Scope, Ships, Clean, Tree, Walks, PerformAll, AllWorks, Captured, Target, Orderly, LostTo, Fits;
    var m := ship.manifest;
    var ls, a := order(m.links.Keys), |order(m.dirs.Keys)|;
    var works := AllWorks(m, order);
    WorksAreOrderly(codec, src, paths, ship, order);
    forall x, y | 0 <= x < y < |ls| ensures !LostTo(ls[x], ls[y]) {
      LinkAt(m, order, x);
      LinkAt(m, order, y);
      FitsAt(codec, src, works, a + x);
      FitsCaptured(codec, src, works[a + x]);
      CapturedIsApproved(src, Target(works[a + x].key).value);
      NoLinkWasLost(codec, st, src, start, works, now, a + x, a + y);
    }
  }

  /**
   Over an empty root reconciliation has no issues and rebuilds every captured node if and
   only if no captured directory has the name of a temporary of a captured file or link, and
   no captured link has that of a link restored after it.
   */
  lemma EmptyRootRebuiltExactly(codec: Codec, st: Store, src: Fs, paths: set<Path>, ship: Shipment, order: set<string> -> seq<string>, t: int, now: int)
    requires Source(src) && Scope(src, paths) && Ships(codec, src, paths, ship) && Served(codec, st, src) && Walks(order)
    ensures var f := map[[] := Dir(t)];
            var r := Reconciled(codec, st, order, ship.manifest, f, now);
            r.issues == [] && Rebuilt(src, f, r.fs) <==> NoDirInTheWay(src) && LinksInOrder(order(ship.manifest.links.Keys))
  {
    hide NoImpostor, Scope, Ships, Served, Walks, Clean, Tree, LinksInOrder, Compatible, Reconciled, PerformAll, AllWorks, Moves, Captured, Temps, KeptDir;
    var f: Fs := map[[] := Dir(t)];
    var start := Progress(f, 0, []);
    var r := Reconciled(codec, st, order, ship.manifest, f, now);
    ReconciledIsOneRun(codec, st, order, ship.manifest, f, now);
    EmptyRootIsCompatible(src, t);
    EmptyRootIsHonest(codec, src, t);
    if NoDirInTheWay(src) && LinksInOrder(order(ship.manifest.links.Keys)) {
      ReconcileRebuilds(codec, st, src, paths, ship, order, f, now);
    }
    if r.issues == [] && Rebuilt(src, f, r.fs) {
      assert AllAsCaptured(src, r.fs);
      RunShowsLinksInOrder(codec, st, src, paths, ship, order, start, now);
      forall p, d | Captured(src, p) && Captured(src, d) && KeptDir(src, d) ensures d !in Temps(src, p) {
        RunShowsNoDirInTheWay(codec, st, src, paths, ship, order, start, now, p, d);
      }
    }
  }

  /** The same from the worker's walk on, through the server's ingest. */
  lemma CaptureRebuiltExactly(codec: Codec, pool: set<Bytes>, src: Fs, visits: seq<Visit>, st: Store, order: set<string> -> seq<string>, t: int, now: int)
    requires codec.Lawful() && Sound(codec, st) && Walks(order)
    requires codec.CollisionFreeOn(pool) && StoreWithin(codec, pool, st) && CapturedWithin(src, pool)
    requires Source(src) && Fair(src, visits) && Scope(src, PathsOf(visits))
    ensures var ship := RecordAll(codec, src, visits);
            && ship.Some?
            && var m := ship.value.manifest;
               var f: Fs := map[[] := Dir(t)];
               var served := IngestAll(codec, st, ship.value.blobs, ShipmentDigests(order, m), now).store;
               var r := Reconciled(codec, served, order, m, f, now);
               r.issues == [] && Rebuilt(src, f, r.fs) <==> NoDirInTheWay(src) && LinksInOrder(order(m.links.Keys))
  {
    hide Codec.Lawful, Codec.CollisionFreeOn, StoreWithin, CapturedWithin, Sound, Walks, Scope, Ships, Tree, Clean, Reconciled, IngestAll, ShipmentDigests, Served, Rebuilt, NoDirInTheWay, LinksInOrder;
    VisitsShip(codec, src, visits);
    var ship := RecordAll(codec, src, visits).value;
    ShipmentArrives(codec, pool, src, PathsOf(visits), ship, st, order, now);
    var served := IngestAll(codec, st, ship.blobs, ShipmentDigests(order, ship.manifest), now).store;
    EmptyRootRebuiltExactly(codec, served, src, PathsOf(visits), ship, order, t, now);
  }

  // ── One such input ────────────────────────────────────────────────

  const A_FILE: Path := PORTAGE + ["a"]
  const A_DIR: Path := PORTAGE + ["a" + "." + FILE_PART]

  /** A file and a directory with the name its download needs. */
  function InTheWay(bytes: Bytes): Fs {
    map[[] := Dir(0), ["var"] := Dir(0), ["var", "lib"] := Dir(0), PORTAGE := Dir(0), A_FILE := File(bytes, 0), A_DIR := Dir(0)]
  }

  lemma InTheWayNames()
    ensures Name("var") && Name("lib") && Name("portage") && Name("a") && Name("a" + "." + FILE_PART)
    ensures NoBackslash("var") && NoBackslash("lib") && NoBackslash("portage") && NoBackslash("a") && NoBackslash("a" + "." + FILE_PART)
  {
    ExtensionsHaveDots();
    assert Name(FILE_PART) && NoBackslash(FILE_PART);
    assert |"a" + "." + FILE_PART| > 2;
  }

  lemma InTheWayParents()
    ensures Parent(["var"]) == [] && Parent(["var", "lib"]) == ["var"] && Parent(PORTAGE) == ["var", "lib"] && Parent(A_FILE) == PORTAGE && Parent(A_DIR) == PORTAGE
    ensures A_FILE != A_DIR && A_DIR == Sibling(A_FILE, FILE_PART) && |A_FILE| == |A_DIR| == 4 && PORTAGE <= A_FILE && PORTAGE <= A_DIR
  {
    ExtensionsHaveDots();
    assert LastDot("a") == 1;
    assert WithExtension("a", FILE_PART) == "a" + "." + FILE_PART;
    assert |"a" + "." + FILE_PART| > |"a"|;
    assert A_FILE[3] != A_DIR[3];
  }

  lemma InTheWayIsTree(bytes: Bytes)
    ensures Tree(InTheWay(bytes))
  {
    hide Name, FILE_PART;
    InTheWayNames();
    InTheWayParents();
  }

  lemma InTheWayIsClean(bytes: Bytes)
    ensures Clean(InTheWay(bytes))
  {
    hide Approved, NoBackslash, FILE_PART;
    InTheWayNames();
  }

  lemma InTheWayIsCaptured(bytes: Bytes)
    ensures var src := InTheWay(bytes);
            Captured(src, A_FILE) && KeptFile(src, A_FILE) && Captured(src, A_DIR) && KeptDir(src, A_DIR) && A_DIR in Temps(src, A_FILE)
  {
    hide Sibling, FILE_PART, Captured, KeptFile, KeptDir, InTheWay;
    InTheWayParents();
    InTheWayFile(bytes);
    InTheWayDir(bytes);
  }

  lemma InTheWayFile(bytes: Bytes)
    ensures Captured(InTheWay(bytes), A_FILE) && KeptFile(InTheWay(bytes), A_FILE)
  {
    hide Sibling, FILE_PART, Parent;
    assert PORTAGE <= A_FILE && A_FILE[|A_FILE| - 1] == "a";
    assert !Noise("a");
  }

  lemma InTheWayDir(bytes: Bytes)
    ensures Captured(InTheWay(bytes), A_DIR) && KeptDir(InTheWay(bytes), A_DIR)
  {
    hide Sibling, FILE_PART, Parent, Noise;
    assert PORTAGE <= A_DIR;
  }

  lemma InTheWayWithin(bytes: Bytes, pool: set<Bytes>)
    requires bytes in pool
    ensures CapturedWithin(InTheWay(bytes), pool)
  {
    hide Noise, Approved, FILE_PART;
  }

  /** With such a capture reconciling an empty root never succeeds. */
  lemma DirectoryInTheWayIsNotRebuilt(codec: Codec, pool: set<Bytes>, bytes: Bytes, visits: seq<Visit>, st: Store, order: set<string> -> seq<string>, t: int, now: int)
    requires codec.Lawful() && Sound(codec, st) && Walks(order) && codec.CollisionFreeOn(pool) && StoreWithin(codec, pool, st) && bytes in pool
    requires Fair(InTheWay(bytes), visits) && Scope(InTheWay(bytes), PathsOf(visits))
    ensures var ship := RecordAll(codec, InTheWay(bytes), visits);
            && ship.Some?
            && var m := ship.value.manifest;
               var f: Fs := map[[] := Dir(t)];
               var served := IngestAll(codec, st, ship.value.blobs, ShipmentDigests(order, m), now).store;
               var r := Reconciled(codec, served, order, m, f, now);
               !(r.issues == [] && Rebuilt(InTheWay(bytes), f, r.fs))
  {
    hide Codec.Lawful, Codec.CollisionFreeOn, StoreWithin, CapturedWithin, Sound, Walks, Scope, Tree, Clean, Reconciled, IngestAll, ShipmentDigests, Rebuilt, LinksInOrder, InTheWay, Captured, KeptDir, Temps;
    InTheWayIsTree(bytes);
    InTheWayIsClean(bytes);
    InTheWayIsCaptured(bytes);
    InTheWayWithin(bytes, pool);
    CaptureRebuiltExactly(codec, pool, InTheWay(bytes), visits, st, order, t, now);
    assert !NoDirInTheWay(InTheWay(bytes));
  }
}

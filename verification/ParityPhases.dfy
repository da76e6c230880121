/** Restoring entries one after another: what each step and each phase guarantees. */
module ParityPhases {
  import opened Common
  import opened Collections
  import opened Codecs
  import opened BlobStores
  import opened Paths
  import opened FileSystems
  import opened ParityCaptures
  import opened ParityShipments
  import opened ParityRestores
  import opened ParityEffects

  ghost predicate Source(src: Fs) {
    Tree(src) && Clean(src)
  }

  /** What may lie where b is to be restored: a directory or a file of its kind, and for a link anything but a directory. */
  predicate CanBecome(a: Node, b: Node) {
    (b.Dir? && a.Dir?) || (b.File? && a.File?) || (b.Link? && !a.Dir?)
  }

  /** What restoring p can work around at its temporary sibling t. */
  predicate MakesWay(src: Fs, f: Fs, p: Path, t: Path) {
    t in f ==> if KeptLink(src, p) && t == Sibling(p, LINK_LINK) then !f[t].Dir? else f[t].File?
  }

  /** Nothing on the way is of a kind that cannot become what was captured, and the temporary names are free or hold what can make way. */
  ghost predicate Compatible(src: Fs, f: Fs) {
    && Tree(f)
    && (forall q :: q in f && Needed(src, q) ==> q in src && CanBecome(f[q], src[q]))
    && (forall p, t :: Captured(src, p) && t in Temps(src, p) ==> MakesWay(src, f, p, t))
  }

  /** Nothing at a captured path collides with what was captured there. */
  ghost predicate NoImpostor(codec: Codec, src: Fs, f: Fs) {
    forall p :: p in f && p in src && Captured(src, p) ==>
      && (f[p].File? && src[p].File? ==> codec.Apart(f[p].bytes, src[p].bytes))
      && (f[p].Link? && src[p].Link? ==> codec.Apart(f[p].target, src[p].target))
  }

  ghost predicate Served(codec: Codec, st: Store, src: Fs) {
    && (forall p :: p in src && Captured(src, p) && KeptFile(src, p) ==> Fetched(codec, st, ContentEntry(codec, src[p].bytes, src[p].mtime)) == Some(src[p].bytes))
    && (forall p :: p in src && Captured(src, p) && KeptLink(src, p) ==> Fetched(codec, st, ContentEntry(codec, src[p].target, src[p].mtime)) == Some(src[p].target))
  }

  // ── One entry of the manifest ─────────────────────────────────────

  /** The entry describes a captured node of the source. */
  predicate Fits(codec: Codec, src: Fs, w: Work) {
    && Target(w.key).Some? && Captured(src, Target(w.key).value)
    && var p := Target(w.key).value;
       match w
       case MakeDirectory(_) => KeptDir(src, p)
       case PutLink(_, e) => KeptLink(src, p) && e == ContentEntry(codec, src[p].target, src[p].mtime)
       case PutFile(_, e) => KeptFile(src, p) && e == ContentEntry(codec, src[p].bytes, src[p].mtime)
       case StampDirectory(_, mtime) => KeptDir(src, p) && mtime == src[p].mtime
  }

  /** p is as captured except for a directory's time; all but p, its temporaries and directory times is as before. */
  ghost predicate Step(src: Fs, f: Fs, f': Fs, p: Path) {
    && Tree(f') && p in f' && p in src && Agrees(f'[p], src[p])
    && (forall q :: q in f && q != p && q !in Temps(src, p) ==> q in f' && Agrees(f'[q], f[q]))
    && (forall q :: q in f' ==> q in f || Within(p, q))
    && (forall q :: q in f' && q in Temps(src, p) ==> q in f && f'[q] == f[q])
  }

  lemma Room(src: Fs, f: Fs, d: Path, p: Path, now: int)
    requires Tree(src) && Compatible(src, f) && Captured(src, p) && Within(p, d) && IsDir(src, d)
    ensures var r := CreateDirAll(f, d, now);
            && r.Ok? && Tree(r.value) && IsDir(r.value, d)
            && (forall q :: q in r.value <==> q in f || Within(d, q))
            && (forall q :: q in f ==> Agrees(r.value[q], f[q]))
            && (forall q :: Within(d, q) ==> r.value[q].Dir?)
  {
    hide CreateDirAll, Captured, Needed, Names;
    AncestorsNeeded(src, p);
    WithinTransitive(p, d);
    AncestorsPresent(src, d);
    ParentsCreated(f, d, now);
  }

  lemma WithinTransitive(p: Path, d: Path)
    requires Within(p, d)
    ensures forall q :: Within(d, q) ==> Within(p, q)
  {
  }

  lemma DirectoryStep(codec: Codec, src: Fs, f: Fs, w: Work, now: int)
    requires Source(src) && Compatible(src, f) && w.MakeDirectory? && Fits(codec, src, w)
    ensures var a := EnsureDirectory(f, w.key, now); a.issue.None? && Step(src, f, a.fs, Target(w.key).value)
  {
    hide Captured, Target, CreateDirAll, Clean, Needed, Tree;
    var p := Target(w.key).value;
    assert Within(p, p);
    AncestorsNeeded(src, p);
    if p !in f { Room(src, f, p, p, now); }
    CompatibleTree(src, f);
  }

  lemma CompatibleTree(src: Fs, f: Fs)
    requires Compatible(src, f)
    ensures Tree(f)
  {
  }

  /** The parent of a captured node that is not a directory, made if need be. */
  lemma RoomFor(src: Fs, f: Fs, p: Path, now: int)
    requires Tree(src) && Compatible(src, f) && Captured(src, p) && p != [] && p in src
    ensures var r := CreateDirAll(f, Parent(p), now);
            && r.Ok? && Tree(r.value) && IsDir(r.value, Parent(p)) && (p in f <==> p in r.value)
            && (forall q :: q in r.value <==> q in f || Within(Parent(p), q))
            && (forall q :: q in f ==> Agrees(r.value[q], f[q]))
            && (forall q :: Within(Parent(p), q) ==> r.value[q].Dir?)
  {
    hide Captured, CreateDirAll, Needed;
    AncestorsNeeded(src, p);
    PrefixOfChild(p);
    assert Within(Parent(p), Parent(p));
    Room(src, f, Parent(p), p, now);
  }

  /** The temporaries still make way once the parent exists. */
  lemma TempsAfterRoom(src: Fs, f: Fs, p: Path, t: Path, now: int)
    requires Tree(src) && Compatible(src, f) && Captured(src, p) && p != [] && p in src && t in Temps(src, p)
    ensures var r := CreateDirAll(f, Parent(p), now);
            r.Ok? && MakesWay(src, r.value, p, t) && t != p && t != [] && Parent(t) == Parent(p) && (t in f <==> t in r.value)
  {
    hide Captured, CreateDirAll, Needed, Tree, Sibling;
    TempsAreSiblings(src, p, t);
    RoomFor(src, f, p, now);
    SiblingNotAbove(p, t);
  }

  lemma SiblingNotAbove(p: Path, t: Path)
    requires p != [] && t != [] && Parent(t) == Parent(p)
    ensures !Within(Parent(p), t)
  {
    assert |t| > |Parent(p)|;
  }

  /** Placing after making room is one step. */
  lemma PlacedIsStep(src: Fs, f: Fs, room: Fs, f': Fs, p: Path)
    requires Tree(room) && Names(p) && p != [] && p in src && IsDir(room, Parent(p)) && !IsDir(room, p)
    requires (forall q :: q in room <==> q in f || Within(Parent(p), q)) && (forall q :: q in f ==> Agrees(room[q], f[q]))
    requires (forall t :: t in Temps(src, p) ==> t != [] && Parent(t) == Parent(p) && !IsDir(room, t)) && Placed(room, f', p, src[p], Temps(src, p))
    ensures Step(src, f, f', p)
  {
    hide Temps, Names, Tree;
    ParentIsShorter(p);
    PrefixOfChild(p);
    forall t | t in Temps(src, p) ensures t != Parent(p) { SiblingNotAbove(p, t); }
    PlacedKeepsTree(room, f', p, src[p], Temps(src, p));
  }

  lemma Unmatched(codec: Codec, src: Fs, f: Fs, p: Path)
    requires NoImpostor(codec, src, f) && Compatible(src, f) && Captured(src, p) && Needed(src, p) && p in src
    ensures KeptFile(src, p) && FileMatches(codec, f, p, ContentEntry(codec, src[p].bytes, src[p].mtime)) ==> p in f && f[p] == src[p]
    ensures KeptLink(src, p) && LinkMatches(codec, f, p, ContentEntry(codec, src[p].target, src[p].mtime)) ==> p in f && f[p] == src[p]
    ensures (KeptFile(src, p) || KeptLink(src, p)) && p in f ==> !f[p].Dir?
  {
    hide Captured, Needed, Tree;
  }

  lemma FileStep(codec: Codec, st: Store, src: Fs, f: Fs, w: Work, now: int)
    requires Source(src) && NoImpostor(codec, src, f) && Served(codec, st, src) && Compatible(src, f) && w.PutFile? && Fits(codec, src, w)
    ensures var a := RestoreFile(codec, st, f, w.key, w.entry, now); a.issue.None? && Step(src, f, a.fs, Target(w.key).value)
  {
    hide Captured, Target, CreateDirAll, Clean, PlaceFile, Sibling, Fetched, Tree, Needed, Compatible, NoImpostor, FileMatches, Noise;
    var p := Target(w.key).value;
    var t := Sibling(p, FILE_PART);
    SelfNeeded(src, p);
    Unmatched(codec, src, f, p);
    if FileMatches(codec, f, p, w.entry) {
      CompatibleTree(src, f);
    } else {
      RoomFor(src, f, p, now);
      var room := CreateDirAll(f, Parent(p), now).value;
      TempsAfterRoom(src, f, p, t, now);
      FilePlaced(codec, room, p, src[p].bytes, w.entry, now);
      PlacedIsStep(src, f, room, PlaceFile(codec, room, p, src[p].bytes, w.entry, now).fs, p);
    }
  }

  lemma SelfNeeded(src: Fs, p: Path)
    requires Tree(src) && Captured(src, p)
    ensures Needed(src, p) && Names(p)
  {
    assert Within(p, p);
  }

  lemma LinkStep(codec: Codec, st: Store, src: Fs, f: Fs, w: Work, now: int)
    requires Source(src) && NoImpostor(codec, src, f) && Served(codec, st, src) && Compatible(src, f) && w.PutLink? && Fits(codec, src, w)
    ensures var a := RestoreLink(codec, st, f, w.key, w.entry, now); a.issue.None? && Step(src, f, a.fs, Target(w.key).value)
  {
    hide Captured, Target, CreateDirAll, Clean, PlaceLink, Sibling, Fetched, Tree, Needed, Compatible, NoImpostor, LinkMatches, Noise;
    var p := Target(w.key).value;
    SelfNeeded(src, p);
    Unmatched(codec, src, f, p);
    if LinkMatches(codec, f, p, w.entry) {
      CompatibleTree(src, f);
    } else {
      RoomFor(src, f, p, now);
      var room := CreateDirAll(f, Parent(p), now).value;
      TempsAfterRoom(src, f, p, Sibling(p, LINK_PART), now);
      TempsAfterRoom(src, f, p, Sibling(p, LINK_LINK), now);
      TempsOfLinkDiffer(p);
      LinkPlaced(codec, room, p, src[p].target, w.entry, now);
      PlacedIsStep(src, f, room, PlaceLink(codec, room, p, src[p].target, w.entry, now).fs, p);
    }
  }

  lemma WorkStep(codec: Codec, st: Store, src: Fs, f: Fs, w: Work, now: int)
    requires Source(src) && NoImpostor(codec, src, f) && Served(codec, st, src) && Compatible(src, f) && !w.StampDirectory? && Fits(codec, src, w)
    ensures var a := Perform(codec, st, f, w, now); a.issue.None? && Step(src, f, a.fs, Target(w.key).value)
  {
    hide Source, Served, Compatible, Fits, Target, EnsureDirectory, RestoreFile, RestoreLink, Step, NoImpostor;
    match w
    case MakeDirectory(_) => DirectoryStep(codec, src, f, w, now);
    case PutLink(_, _) => LinkStep(codec, st, src, f, w, now);
    case PutFile(_, _) => FileStep(codec, st, src, f, w, now);
  }

  // ── Compatibility is kept ─────────────────────────────────────────

  lemma StepKeepsKinds(src: Fs, f: Fs, f': Fs, p: Path)
    requires Tree(src) && Compatible(src, f) && Captured(src, p) && Step(src, f, f', p)
    ensures forall q :: q in f' && Needed(src, q) ==> q in src && CanBecome(f'[q], src[q])
  {
    hide Captured, Needed, Temps;
    AncestorsNeeded(src, p);
    AncestorsPresent(f', p);
    CapturedKind(src, p);
  }

  lemma CapturedKind(src: Fs, p: Path)
    requires Captured(src, p)
    ensures p in src && p != [] && CanBecome(src[p], src[p])
  {
  }

  lemma StepKeepsWay(src: Fs, f: Fs, f': Fs, p: Path, c: Path, t: Path)
    requires Tree(src) && NoDirInTheWay(src) && Compatible(src, f) && Captured(src, p) && Step(src, f, f', p)
    requires Captured(src, c) && t in Temps(src, c)
    ensures MakesWay(src, f', c, t)
  {
    hide Captured, Needed, Tree, Sibling, Noise;
    TempsAreSiblings(src, c, t);
    assert MakesWay(src, f, c, t);
    CapturedKind(src, p);
    if KeptDir(src, p) { NotInTheWay(src, c, p); }
    if t in f' {
      if t == p {
        if !KeptDir(src, p) { PartNotCaptured(src, c, p); }
      } else if t in f {
        assert t in Temps(src, p) || Agrees(f'[t], f[t]);
      } else {
        AncestorsNeeded(src, p);
        NeededTempIsCaptured(src, c, t);
        CapturedDirIsKept(src, t);
      }
    }
  }

  lemma NotInTheWay(src: Fs, c: Path, p: Path)
    requires NoDirInTheWay(src) && Captured(src, c) && Captured(src, p) && KeptDir(src, p)
    ensures p !in Temps(src, c)
  {
  }

  lemma CapturedDirIsKept(src: Fs, t: Path)
    requires Captured(src, t) && t in src && src[t].Dir?
    ensures KeptDir(src, t)
  {
  }

  /** A captured file or link in the place of a temporary can only be in that of a new link. */
  lemma PartNotCaptured(src: Fs, c: Path, p: Path)
    requires p in Temps(src, c) && p in src && p != [] && !src[p].Dir? && Captured(src, p)
    ensures KeptLink(src, c) && p == Sibling(c, LINK_LINK) && (KeptFile(src, p) || KeptLink(src, p))
  {
    hide Sibling, Noise, Approved;
    TempsAreSiblings(src, c, p);
    if p == Sibling(c, FILE_PART) || p == Sibling(c, LINK_PART) { PartsAreNotCaptured(src, c, p); }
  }

  lemma StepKeepsCompatible(src: Fs, f: Fs, f': Fs, p: Path)
    requires Tree(src) && NoDirInTheWay(src) && Compatible(src, f) && Captured(src, p) && Step(src, f, f', p)
    ensures Compatible(src, f')
  {
    hide Captured, Needed, MakesWay, Temps, NoDirInTheWay, CanBecome, Agrees;
    StepKeepsKinds(src, f, f', p);
    forall c, t | Captured(src, c) && t in Temps(src, c) ensures MakesWay(src, f', c, t) { StepKeepsWay(src, f, f', p, c, t); }
  }

  lemma StepKeepsHonest(codec: Codec, src: Fs, f: Fs, f': Fs, p: Path)
    requires NoImpostor(codec, src, f) && Step(src, f, f', p)
    ensures NoImpostor(codec, src, f')
  {
    hide Captured, Temps;
    AncestorsPresent(f', p);
  }

  // ── What a run leaves alone ───────────────────────────────────────

  ghost predicate Temporary(src: Fs, q: Path) {
    exists p :: Captured(src, p) && q in Temps(src, p)
  }

  /** Nothing new but needed nodes; all that is neither captured nor temporary is as it was, except times of directories. */
  ghost predicate Moves(src: Fs, f: Fs, f': Fs) {
    && (forall q :: q in f && !Captured(src, q) && !Temporary(src, q) ==> q in f' && Agrees(f'[q], f[q]))
    && (forall q :: q in f' ==> q in f || Needed(src, q))
  }

  lemma StepMoves(src: Fs, f: Fs, f': Fs, p: Path)
    requires Tree(src) && Captured(src, p) && Step(src, f, f', p)
    ensures Moves(src, f, f')
  {
    hide Captured, Temps, Tree;
    AncestorsNeeded(src, p);
  }

  lemma MovesTransitive(src: Fs, a: Fs, b: Fs, c: Fs)
    requires Moves(src, a, b) && Moves(src, b, c)
    ensures Moves(src, a, c)
  {
    hide Captured, Temporary, Needed;
  }

  // ── Phases ────────────────────────────────────────────────────────

  /** The node is as captured, except for the time of a directory. */
  predicate There(src: Fs, f: Fs, q: Path) {
    q in f && q in src && Agrees(f[q], src[q])
  }

  /** None of these works uses q as a temporary. */
  ghost predicate Spares(src: Fs, works: seq<Work>, q: Path) {
    forall i :: 0 <= i < |works| ==> Target(works[i].key).Some? && q !in Temps(src, Target(works[i].key).value)
  }

  /** No work uses as a temporary what an earlier one restored. */
  ghost predicate InOrder(src: Fs, works: seq<Work>) {
    forall i, j :: 0 <= i < j < |works| ==> Avoids(src, works[i], works[j])
  }

  predicate Avoids(src: Fs, a: Work, b: Work) {
    Target(a.key).Some? && Target(b.key).Some? && Target(a.key).value !in Temps(src, Target(b.key).value)
  }

  ghost predicate Phased(src: Fs, start: Progress, works: seq<Work>, r: Progress) {
    && r.issues == start.issues && Compatible(src, r.fs) && Moves(src, start.fs, r.fs)
    && (forall w :: w in works ==> Target(w.key).Some? && There(src, r.fs, Target(w.key).value))
    && (forall q :: There(src, start.fs, q) && Spares(src, works, q) ==> There(src, r.fs, q))
  }

  lemma {:induction false} PhaseRestores(codec: Codec, st: Store, src: Fs, start: Progress, works: seq<Work>, now: int)
    requires Source(src) && NoImpostor(codec, src, start.fs) && Served(codec, st, src) && NoDirInTheWay(src) && Compatible(src, start.fs)
    requires (forall w :: w in works ==> !w.StampDirectory? && Fits(codec, src, w)) && InOrder(src, works)
    ensures Phased(src, start, works, PerformAll(codec, st, start, works, now)) && NoImpostor(codec, src, PerformAll(codec, st, start, works, now).fs)
    decreases |works|
  {
    hide Tree, Clean, Served, Compatible, Target, Perform, Fits, NoDirInTheWay, NoImpostor, Phased, InOrder, Step, Captured;
    if works == [] {
      NoWorks(src, start);
    } else {
      var front, w := works[..|works| - 1], works[|works| - 1];
      assert w in works && forall x :: x in front ==> x in works;
      FrontInOrder(src, works);
      PhaseRestores(codec, st, src, start, front, now);
      var before := PerformAll(codec, st, start, front, now);
      PhasedCompatible(src, start, front, before);
      WorkStep(codec, st, src, before.fs, w, now);
      FitsCaptured(codec, src, w);
      StepKeepsHonest(codec, src, before.fs, Perform(codec, st, before.fs, w, now).fs, Target(w.key).value);
      OneMoreWork(src, start, works, before, Perform(codec, st, before.fs, w, now));
    }
  }

  lemma FitsCaptured(codec: Codec, src: Fs, w: Work)
    requires Fits(codec, src, w)
    ensures Target(w.key).Some? && Captured(src, Target(w.key).value)
  {
  }

  lemma NoWorks(src: Fs, start: Progress)
    requires Compatible(src, start.fs)
    ensures Phased(src, start, [], start)
  {
  }

  lemma FrontInOrder(src: Fs, works: seq<Work>)
    requires works != [] && InOrder(src, works)
    ensures InOrder(src, works[..|works| - 1])
  {
    hide Avoids;
  }

  lemma PhasedCompatible(src: Fs, start: Progress, works: seq<Work>, r: Progress)
    requires Phased(src, start, works, r)
    ensures Compatible(src, r.fs)
  {
  }

  lemma StepKeepsThere(src: Fs, f: Fs, f': Fs, p: Path, q: Path)
    requires Step(src, f, f', p) && There(src, f, q) && q !in Temps(src, p)
    ensures There(src, f', q)
  {
  }

  lemma OneMoreWork(src: Fs, start: Progress, works: seq<Work>, before: Progress, a: Attempt)
    requires Tree(src) && NoDirInTheWay(src) && works != [] && InOrder(src, works)
    requires Phased(src, start, works[..|works| - 1], before)
    requires var w := works[|works| - 1];
             Target(w.key).Some? && Captured(src, Target(w.key).value) && a.issue.None? && Step(src, before.fs, a.fs, Target(w.key).value)
    ensures Phased(src, start, works, With(before, a))
  {
    hide Tree, NoDirInTheWay, Compatible, Captured, Temps, Target, Moves, Step, There;
    var front, w := works[..|works| - 1], works[|works| - 1];
    var p := Target(w.key).value;
    StepKeepsCompatible(src, before.fs, a.fs, p);
    StepMoves(src, before.fs, a.fs, p);
    MovesTransitive(src, start.fs, before.fs, a.fs);
    StepThere(src, before.fs, a.fs, p);
    forall x | x in works ensures Target(x.key).Some? && There(src, a.fs, Target(x.key).value) {
      var i :| 0 <= i < |works| && works[i] == x;
      if i < |works| - 1 {
        assert front[i] == x && Avoids(src, works[i], works[|works| - 1]);
        StepKeepsThere(src, before.fs, a.fs, p, Target(x.key).value);
      }
    }
    forall q | There(src, start.fs, q) && Spares(src, works, q) ensures There(src, a.fs, q) {
      SparesFront(src, works, q);
      StepKeepsThere(src, before.fs, a.fs, p, q);
    }
  }

  lemma StepThere(src: Fs, f: Fs, f': Fs, p: Path)
    requires Step(src, f, f', p)
    ensures There(src, f', p)
  {
  }

  lemma SparesFront(src: Fs, works: seq<Work>, q: Path)
    requires works != [] && Spares(src, works, q)
    ensures Spares(src, works[..|works| - 1], q) && Target(works[|works| - 1].key).Some? && q !in Temps(src, Target(works[|works| - 1].key).value)
  {
    var front := works[..|works| - 1];
    assert forall i :: 0 <= i < |front| ==> front[i] == works[i];
  }
}

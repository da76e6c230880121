/** What restoring one manifest entry does to a root, and which captures get in its way. */
module ParityEffects {
  import opened Common
  import opened Collections
  import opened Codecs
  import opened BlobStores
  import opened Paths
  import opened FileSystems
  import opened ParityCaptures
  import opened ParityShipments
  import opened ParityRestores

  // ── Temporary siblings ────────────────────────────────────────────

  /** The names restoring p uses for its own files. */
  function Temps(src: Fs, p: Path): set<Path> {
    if KeptFile(src, p) then {Sibling(p, FILE_PART)}
    else if KeptLink(src, p) then {Sibling(p, LINK_PART), Sibling(p, LINK_LINK)}
    else {}
  }

  /** No captured directory has a name that restoring needs for itself. */
  ghost predicate NoDirInTheWay(src: Fs) {
    forall p, d :: Captured(src, p) && Captured(src, d) && KeptDir(src, d) ==> d !in Temps(src, p)
  }

  lemma TempsAreSiblings(src: Fs, p: Path, t: Path)
    requires t in Temps(src, p)
    ensures p != [] && t != [] && t != p && Parent(t) == Parent(p)
    ensures t == Sibling(p, FILE_PART) || t == Sibling(p, LINK_PART) || t == Sibling(p, LINK_LINK)
    ensures EndsWith(Last(t), "." + FILE_PART) || EndsWith(Last(t), "." + LINK_PART) || EndsWith(Last(t), "." + LINK_LINK)
  {
    hide EndsWith;
    ExtensionsHaveDots();
    SiblingDiffers(p, FILE_PART, 14);
    SiblingDiffers(p, LINK_PART, 22);
    SiblingDiffers(p, LINK_LINK, 22);
    SiblingIsTemporary(p, FILE_PART);
    SiblingIsTemporary(p, LINK_PART);
    SiblingIsTemporary(p, LINK_LINK);
  }

  /** Captured files and links are never named like a partial download. */
  lemma PartsAreNotCaptured(src: Fs, p: Path, q: Path)
    requires p != [] && (q == Sibling(p, FILE_PART) || q == Sibling(p, LINK_PART))
    ensures !KeptFile(src, q) && !KeptLink(src, q)
  {
    hide EndsWith, Noise;
    SiblingIsTemporary(p, FILE_PART);
    SiblingIsTemporary(p, LINK_PART);
    PartIsNoise(Last(q));
  }

  lemma TempsOfLinkDiffer(p: Path)
    requires p != []
    ensures Sibling(p, LINK_PART) != Sibling(p, LINK_LINK)
  {
    hide EndsWith;
    SiblingIsTemporary(p, LINK_PART);
    SiblingIsTemporary(p, LINK_LINK);
    TemporaryNamesDiffer(Last(Sibling(p, LINK_PART)));
  }

  // ── Needed nodes ──────────────────────────────────────────────────

  /** The root, or something on the way to a captured node, or one itself. */
  ghost predicate Needed(src: Fs, q: Path) {
    q == [] || exists p :: Captured(src, p) && Within(p, q)
  }

  lemma AncestorsNeeded(src: Fs, p: Path)
    requires Tree(src) && Captured(src, p)
    ensures forall q :: Within(p, q) ==> Needed(src, q) && q in src && (q != p ==> src[q].Dir?)
  {
    AncestorsPresent(src, p);
  }

  predicate TemporaryName(n: string) {
    EndsWith(n, "." + FILE_PART) || EndsWith(n, "." + LINK_PART) || EndsWith(n, "." + LINK_LINK)
  }

  lemma PlainNames(n: string)
    requires n in {"var", "cache", "binpkgs", "Packages", "eclass", "db", "repos", "lib", "portage", "metadata"}
    ensures !TemporaryName(n)
  {
    assert |n| < 10;
    ExtensionsHaveDots();
  }

  /** A directory with a temporary name on the way to an approved node is approved, or is itself a repository. */
  lemma TemporaryAncestor(p: Path, t: Path)
    requires Approved(p) && Within(p, t) && p != t && t != [] && TemporaryName(Last(t))
    ensures Approved(t) || (|t| == 4 && REPOS <= t)
  {
    hide TemporaryName;
    var n := |t|;
    assert t == p[..n];
    PlainNames("var"); PlainNames("cache"); PlainNames("binpkgs"); PlainNames("db"); PlainNames("repos"); PlainNames("lib");
    assert t[n - 1] == p[n - 1];
    StartsAs(ECLASS, p);
    StartsAs(PORTAGE, p);
    StartsAs(REPOS, p);
    if n > 3 { assert t[..3] == p[..3]; }
  }

  lemma StartsAs(root: Path, p: Path)
    requires |root| == 3
    ensures root <= p ==> |p| >= 3 && p[0] == root[0] && p[1] == root[1] && p[2] == root[2]
  {
  }

  /** The temporary sibling of a captured file or link is only needed if it is captured itself. */
  lemma NeededTempIsCaptured(src: Fs, p: Path, t: Path)
    requires Tree(src) && Captured(src, p) && t in Temps(src, p) && Needed(src, t)
    ensures Captured(src, t)
  {
    hide Captured, EndsWith;
    TempsAreSiblings(src, p, t);
    var c :| Captured(src, c) && Within(c, t);
    if c != t {
      CapturedIsApproved(src, c);
      CapturedIsApproved(src, p);
      TemporaryAncestor(c, t);
      SiblingLengths(p, t);
      if |t| == 4 && REPOS <= t { NoApprovedRepo(p, t); }
      AncestorsPresent(src, c);
      ApprovedDirIsCaptured(src, t);
    }
  }

  lemma CapturedIsApproved(src: Fs, p: Path)
    requires Captured(src, p)
    ensures Approved(p) && p in src && p != []
  {
  }

  lemma ApprovedDirIsCaptured(src: Fs, t: Path)
    requires Approved(t) && IsDir(src, t) && t != []
    ensures Captured(src, t)
  {
  }

  lemma SiblingLengths(p: Path, t: Path)
    requires p != [] && t != [] && Parent(p) == Parent(t)
    ensures |p| == |t| && (|t| >= 4 ==> p[..3] == t[..3])
  {
    assert |p| - 1 == |Parent(p)| == |Parent(t)| == |t| - 1;
    if |t| >= 4 { assert p[..3] == Parent(p)[..3] && t[..3] == Parent(t)[..3]; }
  }

  lemma NoApprovedRepo(p: Path, t: Path)
    requires |p| == |t| == 4 && p[..3] == t[..3] && REPOS <= t
    ensures !Approved(p)
  {
    assert t[..3] == REPOS;
    assert p[1] == p[..3][1] == "db";
  }

  // ── Placing ───────────────────────────────────────────────────────

  /** p now holds the node, the temporaries are gone, and nothing else changed but times of directories. */
  ghost predicate Placed(f: Fs, f': Fs, p: Path, node: Node, temps: set<Path>) {
    && p in f' && f'[p] == node
    && (forall q :: q in f' <==> (q in f || q == p) && q !in temps)
    && (forall q :: q in f' && q != p ==> Agrees(f'[q], f[q]))
  }

  lemma FilePlaced(codec: Codec, f: Fs, p: Path, bytes: Bytes, e: Entry, now: int)
    requires p != [] && IsDir(f, Parent(p)) && !IsDir(f, p) && RightContent(codec, bytes, e)
    requires var t := Sibling(p, FILE_PART); t != p && t != [] && Parent(t) == Parent(p) && (t in f ==> f[t].File?)
    ensures var a := PlaceFile(codec, f, p, bytes, e, now);
            a.issue.None? && a.downloads == 1 && Placed(f, a.fs, p, File(bytes, e.mtime), {Sibling(p, FILE_PART)})
  {
    hide Sibling, WriteFile, Rename, SetMtime, Placed;
    FileWritten(f, Sibling(p, FILE_PART), bytes, now);
    FileMoved(f, WriteFile(f, Sibling(p, FILE_PART), bytes, now).value, p, Sibling(p, FILE_PART), bytes, e.mtime, now);
    PlacedThere(f, SetMtime(Rename(WriteFile(f, Sibling(p, FILE_PART), bytes, now).value, Sibling(p, FILE_PART), p, now).value, p, e.mtime).value,
                p, File(bytes, e.mtime), {Sibling(p, FILE_PART)});
  }

  lemma PlacedThere(f: Fs, f': Fs, p: Path, node: Node, temps: set<Path>)
    requires Placed(f, f', p, node, temps)
    ensures p in f' && f'[p] == node
  {
  }

  lemma FileWritten(f: Fs, t: Path, bytes: Bytes, now: int)
    requires t != [] && IsDir(f, Parent(t)) && (t in f ==> f[t].File?)
    ensures var w := WriteFile(f, t, bytes, now);
            && w.Ok? && t in w.value && w.value[t] == File(bytes, now)
            && (forall q :: q in w.value <==> q in f || q == t) && (forall q :: q in w.value && q != t ==> Agrees(w.value[q], f[q]))
  {
  }

  lemma FileMoved(f: Fs, written: Fs, p: Path, t: Path, bytes: Bytes, mtime: int, now: int)
    requires p != [] && t != p && IsDir(f, Parent(p)) && !IsDir(f, p) && t in written && written[t].File? && written[t].bytes == bytes
    requires (forall q :: q in written <==> q in f || q == t) && (forall q :: q in written && q != t ==> Agrees(written[q], f[q]))
    ensures var moved := Rename(written, t, p, now);
            && moved.Ok?
            && var timed := SetMtime(moved.value, p, mtime);
               timed.Ok? && Placed(f, timed.value, p, File(bytes, mtime), {t})
  {
    var moved := Rename(written, t, p, now).value;
    assert forall q :: q in moved <==> (q in f || q == p) && q != t;
  }

  /** What is at p and beside it makes way. */
  lemma MadeWay(f: Fs, p: Path, t: Path, now: int)
    requires p != [] && IsDir(f, Parent(p)) && !IsDir(f, p) && !IsDir(f, t)
    ensures var cleared := if p in f then Touched(f - {p}, Parent(p), now) else f;
            var free := if t in cleared && !cleared[t].Dir? then Touched(cleared - {t}, Parent(p), now) else cleared;
            && (forall q :: q in free <==> q in f && q != p && q != t) && (forall q :: q in free ==> Agrees(free[q], f[q])) && IsDir(free, Parent(p)) && p !in free && t !in free
  {
  }

  lemma LinkMoved(free: Fs, p: Path, t: Path, bytes: Bytes, mtime: int, now: int)
    requires p != [] && t != [] && t != p && Parent(t) == Parent(p) && IsDir(free, Parent(p)) && p !in free && t !in free
    ensures var made := MakeLink(free, t, bytes, now);
            && made.Ok?
            && var moved := Rename(made.value, t, p, now);
               && moved.Ok?
               && var timed := SetMtime(moved.value, p, mtime);
                  timed.Ok? && Placed(free, timed.value, p, Link(bytes, mtime), {})
  {
    var made := MakeLink(free, t, bytes, now).value;
    assert forall q :: q in made <==> q in free || q == t;
  }

  lemma LinkSwapped(f: Fs, p: Path, bytes: Bytes, mtime: int, now: int)
    requires p != [] && IsDir(f, Parent(p)) && !IsDir(f, p)
    requires var t := Sibling(p, LINK_LINK); t != p && t != [] && Parent(t) == Parent(p) && !IsDir(f, t)
    ensures var a := SwapLink(f, p, bytes, mtime, now);
            a.issue.None? && a.downloads == 1 && Placed(f, a.fs, p, Link(bytes, mtime), {Sibling(p, LINK_LINK)})
  {
    hide Sibling, MakeLink, Rename, SetMtime, Touched;
    var t := Sibling(p, LINK_LINK);
    MadeWay(f, p, t, now);
    var cleared := if p in f then Touched(f - {p}, Parent(p), now) else f;
    var free := if t in cleared && !cleared[t].Dir? then Touched(cleared - {t}, Parent(p), now) else cleared;
    LinkMoved(free, p, t, bytes, mtime, now);
  }

  lemma PartRemoved(f: Fs, t: Path, bytes: Bytes, now: int)
    requires t != [] && IsDir(f, Parent(t)) && (t in f ==> f[t].File?)
    ensures var w := WriteFile(f, t, bytes, now);
            && w.Ok?
            && var r := RemoveFile(w.value, t, now);
               && r.Ok? && (forall q :: q in r.value <==> q in f && q != t) && forall q :: q in r.value ==> Agrees(r.value[q], f[q])
  {
    var w := WriteFile(f, t, bytes, now).value;
    assert forall q :: q in w <==> q in f || q == t;
  }

  lemma LinkPlaced(codec: Codec, f: Fs, p: Path, bytes: Bytes, e: Entry, now: int)
    requires p != [] && IsDir(f, Parent(p)) && !IsDir(f, p) && RightContent(codec, bytes, e)
    requires var t := Sibling(p, LINK_PART); t != p && t != [] && Parent(t) == Parent(p) && (t in f ==> f[t].File?)
    requires var t := Sibling(p, LINK_LINK); t != p && t != [] && Parent(t) == Parent(p) && !IsDir(f, t)
    ensures var a := PlaceLink(codec, f, p, bytes, e, now);
            a.issue.None? && a.downloads == 1 && Placed(f, a.fs, p, Link(bytes, e.mtime), {Sibling(p, LINK_PART), Sibling(p, LINK_LINK)})
  {
    hide Sibling, WriteFile, RemoveFile, SwapLink;
    var t := Sibling(p, LINK_PART);
    PartRemoved(f, t, bytes, now);
    var removed := RemoveFile(WriteFile(f, t, bytes, now).value, t, now).value;
    assert IsDir(removed, Parent(p));
    LinkSwapped(removed, p, bytes, e.mtime, now);
  }

  /** Placing a node beside nothing that holds others keeps a tree a tree. */
  lemma PlacedKeepsTree(f: Fs, f': Fs, p: Path, node: Node, temps: set<Path>)
    requires Tree(f) && Names(p) && p != [] && IsDir(f, Parent(p)) && !IsDir(f, p) && Placed(f, f', p, node, temps)
    requires Parent(p) !in temps && (forall t :: t in temps ==> !IsDir(f, t) && t != []) && Parent(p) != p
    ensures Tree(f')
  {
  }

  lemma ParentIsShorter(p: Path)
    requires p != []
    ensures Parent(p) != p
  {
    assert |Parent(p)| < |p|;
  }
}

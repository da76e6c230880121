/** An abstract file system: directories, regular files, symbolic links and other nodes, with modification times. */
module FileSystems {
  import opened Common
  import opened Paths

  datatype Node = Dir(mtime: int) | File(bytes: Bytes, mtime: int) | Link(target: Bytes, mtime: int) | Special

  type Fs = map<Path, Node>

  /** Every node sits in a directory and has a proper name. */
  ghost predicate Tree(fs: Fs) {
    && [] in fs && fs[[]].Dir?
    && (forall p :: p in fs ==> Names(p))
    && (forall p :: p in fs && p != [] ==> Parent(p) in fs && fs[Parent(p)].Dir?)
  }

  datatype FsError = NotFound | NotADirectory | Exists

  predicate IsDir(fs: Fs, p: Path) {
    p in fs && fs[p].Dir?
  }

  // ── Operations ────────────────────────────────────────────────────

  /** Changing what a directory holds changes its modification time. */
  function Touched(fs: Fs, p: Path, now: int): Fs {
    if IsDir(fs, p) then fs[p := Dir(now)] else fs
  }

  function CreateDirAll(fs: Fs, p: Path, now: int): Result<Fs, FsError>
    decreases |p|
  {
    if p in fs then (if fs[p].Dir? then Ok(fs) else Err(NotADirectory))
    else if p == [] then Err(NotFound)
    else
      var r := CreateDirAll(fs, Parent(p), now);
      if r.Err? then r else Ok(Touched(r.value, Parent(p), now)[p := Dir(now)])
  }

  /** Creates the file or replaces its contents. */
  function WriteFile(fs: Fs, p: Path, bytes: Bytes, now: int): Result<Fs, FsError>
    requires p != []
  {
    if p in fs then (if fs[p].File? then Ok(fs[p := File(bytes, now)]) else Err(Exists))
    else if !IsDir(fs, Parent(p)) then Err(NotFound)
    else Ok(Touched(fs, Parent(p), now)[p := File(bytes, now)])
  }

  function MakeLink(fs: Fs, p: Path, target: Bytes, now: int): Result<Fs, FsError>
    requires p != []
  {
    if p in fs then Err(Exists)
    else if !IsDir(fs, Parent(p)) then Err(NotFound)
    else Ok(Touched(fs, Parent(p), now)[p := Link(target, now)])
  }

  function RemoveFile(fs: Fs, p: Path, now: int): Result<Fs, FsError>
    requires p != []
  {
    if p !in fs then Err(NotFound) else if fs[p].Dir? then Err(Exists) else Ok(Touched(fs - {p}, Parent(p), now))
  }

  /** Moves a node that is not a directory over an absent or replaceable target in the same directory. */
  function Rename(fs: Fs, from: Path, to: Path, now: int): Result<Fs, FsError>
    requires to != []
  {
    if from !in fs || fs[from].Dir? then Err(NotFound)
    else if to in fs && fs[to].Dir? then Err(Exists)
    else Ok(Touched((fs - {from})[to := fs[from]], Parent(to), now))
  }

  function SetMtime(fs: Fs, p: Path, mtime: int): Result<Fs, FsError> {
    if p !in fs || fs[p].Special? then Err(NotFound)
    else Ok(fs[p := if fs[p].Dir? then Dir(mtime) else fs[p].(mtime := mtime)])
  }

  // ── Equal up to directory times ───────────────────────────────────

  predicate Agrees(a: Node, b: Node) {
    (a.Dir? && b.Dir?) || a == b
  }

  ghost predicate Alike(a: Fs, b: Fs) {
    a.Keys == b.Keys && forall p :: p in a ==> Agrees(a[p], b[p])
  }

  lemma AlikeTree(a: Fs, b: Fs)
    requires Alike(a, b) && Tree(a)
    ensures Tree(b)
  {
  }

  /** p is root or lies below it. */
  predicate Within(p: Path, root: Path) {
    root <= p
  }

  lemma {:induction false} ParentsCreated(fs: Fs, p: Path, now: int)
    requires Tree(fs) && Names(p) && (forall q :: Within(p, q) && q in fs ==> fs[q].Dir?)
    ensures var r := CreateDirAll(fs, p, now);
            && r.Ok? && Tree(r.value) && IsDir(r.value, p)
            && (forall q :: q in r.value <==> q in fs || Within(p, q))
            && (forall q :: q in fs ==> Agrees(r.value[q], fs[q]))
            && (forall q :: Within(p, q) ==> r.value[q].Dir?)
    decreases |p|
  {
    if p !in fs {
      PrefixOfChild(p);
      ParentsCreated(fs, Parent(p), now);
    } else {
      AncestorsPresent(fs, p);
    }
  }

  lemma PrefixOfChild(p: Path)
    requires p != []
    ensures forall q :: Within(p, q) <==> Within(Parent(p), q) || q == p
  {
    forall q ensures Within(p, q) <==> Within(Parent(p), q) || q == p {
      if q <= p && q != p { assert q == p[..|q|] == Parent(p)[..|q|]; }
      if q <= Parent(p) { assert q == Parent(p)[..|q|] == p[..|q|]; }
    }
  }

  lemma {:induction false} AncestorsPresent(fs: Fs, p: Path)
    requires Tree(fs) && p in fs
    ensures forall q :: Within(p, q) ==> q in fs && (q != p ==> fs[q].Dir?)
    decreases |p|
  {
    if p != [] {
      PrefixOfChild(p);
      AncestorsPresent(fs, Parent(p));
    }
  }
}

/** The worker's walk over the approved trees: a manifest of what it saw and a directory of contents. */
module ParityCaptures {
  import opened Common
  import opened Collections
  import opened Codecs
  import opened Paths
  import opened FileSystems

  datatype Entry = Entry(digest: string, size: nat, mtime: int)

  datatype Manifest = Manifest(files: map<string, Entry>, dirs: map<string, int>, links: map<string, Entry>)

  /** The output directory: manifest and contents by digest. */
  datatype Shipment = Shipment(manifest: Manifest, blobs: map<string, Bytes>)

  const NOTHING: Shipment := Shipment(Manifest(map[], map[], map[]), map[])

  // ── Recording one node ────────────────────────────────────────────

  function Keep(codec: Codec, ship: Shipment, bytes: Bytes): Shipment {
    var d := codec.sha256(bytes);
    if d in ship.blobs then ship else ship.(blobs := ship.blobs[d := bytes])
  }

  function WithDir(ship: Shipment, key: string, mtime: int): Shipment {
    ship.(manifest := ship.manifest.(dirs := ship.manifest.dirs[key := mtime]))
  }

  function WithFile(codec: Codec, ship: Shipment, key: string, bytes: Bytes, mtime: int): Shipment {
    var kept := Keep(codec, ship, bytes);
    kept.(manifest := kept.manifest.(files := kept.manifest.files[key := Entry(codec.sha256(bytes), |bytes|, mtime)]))
  }

  function WithLink(codec: Codec, ship: Shipment, key: string, target: Bytes, mtime: int): Shipment {
    var kept := Keep(codec, ship, target);
    kept.(manifest := kept.manifest.(links := kept.manifest.links[key := Entry(codec.sha256(target), |target|, mtime)]))
  }

  /** Records a node under its key; None when the key is taken. */
  function Recorded(codec: Codec, ship: Shipment, key: string, name: string, node: Node): Option<Shipment> {
    if node.Dir? then (if key in ship.manifest.dirs then None else Some(WithDir(ship, key, node.mtime)))
    else if Noise(name) then Some(ship)
    else if node.Link? then (if key in ship.manifest.links then None else Some(WithLink(codec, ship, key, node.target, node.mtime)))
    else if node.File? then (if key in ship.manifest.files then None else Some(WithFile(codec, ship, key, node.bytes, node.mtime)))
    else Some(ship)
  }

  datatype Visit = Visit(key: string, path: Path)

  function RecordAll(codec: Codec, src: Fs, visits: seq<Visit>): Option<Shipment>
    requires forall v :: v in visits ==> v.path in src && v.path != []
  {
    if visits == [] then Some(NOTHING)
    else
      var before, v := RecordAll(codec, src, visits[..|visits| - 1]), visits[|visits| - 1];
      if before.None? then None else Recorded(codec, before.value, v.key, Last(v.path), src[v.path])
  }

  /** Two different nodes of this tree have the same manifest key. */
  ghost predicate Collides(codec: Codec, src: Fs) {
    exists visits :: Fair(src, visits) && RecordAll(codec, src, visits).None?
  }

  // ── The walk ──────────────────────────────────────────────────────

  /** Approved nodes, each at most once, under its joined path, with backslashes replaced or not. */
  ghost predicate Fair(src: Fs, visits: seq<Visit>) {
    && (forall v :: v in visits ==> v.path in src && v.path != [] && Approved(v.path) && (v.key == Joined(v.path) || v.key == Key(v.path)))
    && (forall i, j :: 0 <= i < j < |visits| ==> visits[i].path != visits[j].path)
  }

  ghost function PathsOf(visits: seq<Visit>): set<Path> {
    set v | v in visits :: v.path
  }

  lemma OneMoreVisit(codec: Codec, src: Fs, visits: seq<Visit>, v: Visit, ship: Shipment)
    requires Fair(src, visits) && RecordAll(codec, src, visits) == Some(ship)
    requires v.path in src && v.path != [] && Approved(v.path) && v.path !in PathsOf(visits) && (v.key == Joined(v.path) || v.key == Key(v.path))
    ensures Fair(src, visits + [v]) && PathsOf(visits + [v]) == PathsOf(visits) + {v.path}
    ensures RecordAll(codec, src, visits + [v]) == Recorded(codec, ship, v.key, Last(v.path), src[v.path])
    ensures Recorded(codec, ship, v.key, Last(v.path), src[v.path]).None? ==> Collides(codec, src)
  {
    hide Recorded, Joined, Key, Approved;
    assert (visits + [v])[..|visits|] == visits;
    PathsAfter(visits, v);
    forall i, j | 0 <= i < j < |visits + [v]| ensures (visits + [v])[i].path != (visits + [v])[j].path {
      assert visits[i] in visits;
    }
  }

  lemma PathsAfter(visits: seq<Visit>, v: Visit)
    ensures PathsOf(visits + [v]) == PathsOf(visits) + {v.path}
  {
    assert forall x :: x in visits + [v] <==> x in visits || x == v;
    assert v in visits + [v];
  }

  function Children(src: Fs, d: Path): set<Path> {
    set p | p in src && p != [] && Parent(p) == d
  }

  /** Something on the way to p is not a directory. */
  predicate Blocked(src: Fs, p: Path) {
    exists i :: 0 <= i < |p| && p[..i] in src && !src[p[..i]].Dir?
  }

  datatype Outcome = Done | WrongKind | Duplicate

  const ECLASS: Path := ["var", "cache", "eclass"]
  const PORTAGE: Path := ["var", "lib", "portage"]
  const REPOS: Path := ["var", "db", "repos"]
  const PACKAGES: Path := ["var", "cache", "binpkgs", "Packages"]

  class Capture {
    const codec: Codec
    const src: Fs
    const walk: set<Path> -> seq<Path>
    var ship: Shipment
    ghost var visits: seq<Visit>

    ghost predicate Valid()
      reads this
    {
      Tree(src) && Walks(walk) && Fair(src, visits) && RecordAll(codec, src, visits) == Some(ship)
    }

    constructor (codec: Codec, src: Fs, walk: set<Path> -> seq<Path>)
      requires Tree(src) && Walks(walk)
      ensures Valid() && this.codec == codec && this.src == src && this.walk == walk && visits == []
    {
      this.codec, this.src, this.walk := codec, src, walk;
      ship, visits := NOTHING, [];
    }

    method Record(p: Path, key: string) returns (r: Outcome)
      requires Valid() && p in src && p != [] && Approved(p) && p !in PathsOf(visits) && (key == Joined(p) || key == Key(p))
      modifies this
      ensures r.Done? || r.Duplicate?
      ensures r.Done? ==> Valid() && PathsOf(visits) == old(PathsOf(visits)) + {p}
      ensures r.Duplicate? ==> Collides(codec, src)
    {
      hide Tree, Walks, Noise, Collides, Approved;
      OneMoreVisit(codec, src, visits, Visit(key, p), ship);
      var node := src[p];
      if node.Dir? {
        if key in ship.manifest.dirs { return Duplicate; }
        ship := WithDir(ship, key, node.mtime);
      } else if !Noise(Last(p)) {
        if node.Link? {
          if key in ship.manifest.links { return Duplicate; }
          ship := WithLink(codec, ship, key, node.target, node.mtime);
        } else if node.File? {
          if key in ship.manifest.files { return Duplicate; }
          ship := WithFile(codec, ship, key, node.bytes, node.mtime);
        }
      }
      visits := visits + [Visit(key, p)];
      return Done;
    }

    /** Records a directory and everything below it, depth first. */
    method CaptureTree(root: Path) returns (r: Outcome)
      requires Valid() && root != [] && (forall p :: p in PathsOf(visits) ==> !Within(p, root)) && forall p :: Within(p, root) ==> Approved(p)
      modifies this
      ensures r.Done? ==> Valid() && forall p :: p in PathsOf(visits) <==> p in old(PathsOf(visits)) || (p in src && Within(p, root))
      ensures r.Done? ==> !Blocked(src, root) && (root in src ==> src[root].Dir?)
      ensures r.WrongKind? ==> Blocked(src, root) || (root in src && !src[root].Dir?)
      ensures r.Duplicate? ==> Collides(codec, src)
    {
      hide Tree, Walks, Fair, RecordAll, PathsOf, Frontier, Opening, Collides, Blocked, Approved;
      assert Within(root, root);
      if root !in src {
        NothingBelow(src, root);
        return if Blocked(src, root) then WrongKind else Done;
      }
      NotBlocked(src, root);
      if !src[root].Dir? { return WrongKind; }
      ghost var before := PathsOf(visits);
      r := Record(root, Joined(root));
      if r.Duplicate? { return; }
      var stack := [root];
      ghost var seen, expanded := {root}, {};
      StartAt(src, root);
      while stack != []
        invariant Valid() && PathsOf(visits) == before + seen && r.Done? && Distinct(stack)
        invariant Frontier(src, root, seen, SetOf(stack), expanded)
        decreases |src.Keys - expanded|
      {
        var current := stack[|stack| - 1];
        TakeTop(src, root, seen, stack, expanded);
        stack := stack[..|stack| - 1];
        r, stack, seen := CaptureChildren(root, current, stack, before, seen, expanded);
        if r.Duplicate? { return; }
        ExpandedOneMore(src.Keys, expanded, current);
        expanded := expanded + {current};
      }
      AllReached(src, root, seen, expanded);
    }

    method CaptureChildren(root: Path, current: Path, stack0: seq<Path>, ghost before: set<Path>, ghost seen0: set<Path>, ghost expanded: set<Path>)
      returns (r: Outcome, stack: seq<Path>, ghost seen: set<Path>)
      requires Valid() && PathsOf(visits) == before + seen0 && (forall p :: p in before ==> !Within(p, root)) && Distinct(stack0)
      requires forall p :: Within(p, root) ==> Approved(p)
      requires Opening(src, root, seen0, SetOf(stack0), expanded, current, {})
      modifies this
      ensures r.Done? || r.Duplicate?
      ensures r.Done? ==> Valid() && PathsOf(visits) == before + seen && Distinct(stack) && Frontier(src, root, seen, SetOf(stack), expanded + {current})
      ensures r.Duplicate? ==> Collides(codec, src)
    {
      hide Tree, Walks, Fair, RecordAll, PathsOf, Frontier, Opening, Collides, Blocked, Within, Approved;
      var children := walk(Children(src, current));
      WalkCovers(walk, Children(src, current));
      stack, seen, r := stack0, seen0, Done;
      var i := 0;
      assert SetOf(children[..0]) == {};
      while i < |children|
        invariant i <= |children| && Valid() && PathsOf(visits) == before + seen && r.Done? && Distinct(stack)
        invariant Opening(src, root, seen, SetOf(stack), expanded, current, SetOf(children[..i]))
      {
        var p := children[i];
        TakeNext(children, i);
        OneMoreChild(src, root, seen, stack, expanded, current, SetOf(children[..i]), p);
        r := Record(p, Key(p));
        if r.Duplicate? { return; }
        if src[p].Dir? { stack := stack + [p]; }
        seen := seen + {p};
        i := i + 1;
      }
      assert children[..i] == children;
      Expanded(src, root, seen, SetOf(stack), expanded, current, SetOf(children));
    }

    /** Records one regular file if it is there. */
    method CaptureFile(p: Path) returns (r: Outcome)
      requires Valid() && p != [] && Approved(p) && p !in PathsOf(visits)
      modifies this
      ensures r.Done? ==> Valid() && PathsOf(visits) == old(PathsOf(visits)) + if p in src then {p} else {}
      ensures r.Done? ==> !Blocked(src, p) && (p in src ==> src[p].File?)
      ensures r.WrongKind? ==> Blocked(src, p) || (p in src && !src[p].File?)
      ensures r.Duplicate? ==> Collides(codec, src)
    {
      if p !in src {
        return if Blocked(src, p) then WrongKind else Done;
      }
      NotBlocked(src, p);
      if !src[p].File? { return WrongKind; }
      r := Record(p, Joined(p));
    }

    method CaptureRepo(repo: Path, ghost done: set<Path>) returns (r: Outcome)
      requires Valid() && |repo| == 4 && REPOS <= repo && repo !in done
      requires forall p :: p in PathsOf(visits) <==> p in src && OfRepos(p, done)
      modifies this
      ensures r.Done? ==> Valid() && (forall p :: p in PathsOf(visits) <==> p in src && OfRepos(p, done + {repo}))
      ensures r.Done? <==> RepoOk(src, repo) && !r.Duplicate?
      ensures r.Duplicate? ==> Collides(codec, src)
    {
      hide Tree, Walks, Fair, RecordAll, PathsOf, Collides, Blocked, Approved;
      RepoScope(repo, done);
      RepoIsApproved(repo);
      var metadata, packages := repo + ["metadata"], repo + ["Packages"];
      r := Done;
      if metadata in src {
        NotBlocked(src, metadata);
        r := CaptureTree(metadata);
        if !r.Done? { return; }
      } else {
        NothingBelow(src, metadata);
      }
      r := CaptureFile(packages);
    }

    method CaptureRepos() returns (r: Outcome)
      requires Valid() && PathsOf(visits) == {}
      modifies this
      ensures r.Done? ==> Valid() && (forall p :: p in PathsOf(visits) <==> p in src && OfRepos(p, Children(src, REPOS)))
      ensures r.Done? ==> ReposOk(src)
      ensures r.WrongKind? ==> !ReposOk(src)
      ensures r.Duplicate? ==> Collides(codec, src)
    {
      hide Tree, Walks, Fair, RecordAll, PathsOf, Collides, Blocked, RepoOk, OfRepos, Children, Approved;
      r := Done;
      NoRepos(src);
      if REPOS !in src {
        NoneWithoutParent(src, REPOS);
        return if Blocked(src, REPOS) then WrongKind else Done;
      }
      NotBlocked(src, REPOS);
      if !src[REPOS].Dir? { return WrongKind; }
      var repos := walk(Children(src, REPOS));
      WalkCovers(walk, Children(src, REPOS));
      var i := 0;
      assert SetOf(repos[..0]) == {};
      while i < |repos|
        invariant i <= |repos| && r.Done? && Valid()
        invariant forall p :: p in PathsOf(visits) <==> p in src && OfRepos(p, SetOf(repos[..i]))
        invariant forall c :: c in SetOf(repos[..i]) ==> RepoOk(src, c)
      {
        TakeNext(repos, i);
        ChildLength(src, REPOS, repos[i]);
        r := CaptureRepo(repos[i], SetOf(repos[..i]));
        if !r.Done? { return; }
        i := i + 1;
      }
      assert repos[..i] == repos;
    }

    method CaptureFinalState() returns (r: Outcome)
      requires Valid() && PathsOf(visits) == {}
      modifies this
      ensures r.Done? ==> Valid() && (forall p :: p in PathsOf(visits) <==> p in src && Approved(p))
      ensures r.Done? ==> RootsOk(src)
      ensures r.WrongKind? ==> !RootsOk(src)
      ensures r.Duplicate? ==> Collides(codec, src)
    {
      hide Tree, Walks, Fair, RecordAll, PathsOf, Collides, Blocked, ReposOk, OfRepos, Children, Approved;
      ScopesAreDisjoint(src);
      FixedScopesAreApproved();
      r := CaptureRepos();
      if !r.Done? { return; }
      r := CaptureTree(ECLASS);
      if !r.Done? { return; }
      r := CaptureFile(PACKAGES);
      if !r.Done? { return; }
      r := CaptureTree(PORTAGE);
      if r.Done? { ApprovedScopes(src); }
    }
  }

  // ── The captured scope ────────────────────────────────────────────

  /** Metadata or package index of one of these repositories. */
  predicate OfRepos(p: Path, repos: set<Path>) {
    |p| >= 5 && p[..4] in repos && (p[4] == "metadata" || (p[4] == "Packages" && |p| == 5))
  }

  predicate RepoOk(src: Fs, repo: Path) {
    && (repo + ["metadata"] in src ==> src[repo + ["metadata"]].Dir?)
    && !Blocked(src, repo + ["Packages"]) && (repo + ["Packages"] in src ==> src[repo + ["Packages"]].File?)
  }

  ghost predicate ReposOk(src: Fs) {
    !Blocked(src, REPOS) && (REPOS in src ==> src[REPOS].Dir?) && forall c :: c in Children(src, REPOS) ==> RepoOk(src, c)
  }

  /** Nothing the capture looks at is of the wrong kind. */
  ghost predicate RootsOk(src: Fs) {
    && ReposOk(src)
    && !Blocked(src, ECLASS) && (ECLASS in src ==> src[ECLASS].Dir?)
    && !Blocked(src, PACKAGES) && (PACKAGES in src ==> src[PACKAGES].File?)
    && !Blocked(src, PORTAGE) && (PORTAGE in src ==> src[PORTAGE].Dir?)
  }

  lemma RepoScope(repo: Path, done: set<Path>)
    requires |repo| == 4 && repo !in done
    ensures forall p :: OfRepos(p, done) ==> !Within(p, repo + ["metadata"]) && p != repo + ["Packages"]
    ensures forall p :: OfRepos(p, done + {repo}) <==> OfRepos(p, done) || Within(p, repo + ["metadata"]) || p == repo + ["Packages"]
    ensures !Within(repo + ["Packages"], repo + ["metadata"])
  {
    forall p: Path ensures Within(p, repo + ["metadata"]) <==> |p| >= 5 && p[..4] == repo && p[4] == "metadata" {
      if |p| >= 5 && p[..4] == repo && p[4] == "metadata" { assert p[..5] == repo + ["metadata"]; }
    }
    assert (repo + ["Packages"])[..4] == repo;
    forall p: Path | |p| == 5 && p[..4] == repo && p[4] == "Packages" ensures p == repo + ["Packages"] {
      assert p == p[..4] + [p[4]];
    }
  }

  lemma RepoIsApproved(repo: Path)
    requires |repo| == 4 && REPOS <= repo
    ensures forall p :: Within(p, repo + ["metadata"]) ==> Approved(p)
    ensures Approved(repo + ["Packages"])
  {
    forall p | Within(p, repo + ["metadata"]) ensures Approved(p) {
      assert p[..5] == repo + ["metadata"];
      assert p[4] == p[..5][4] && p[..3] == p[..5][..3];
    }
  }

  lemma FixedScopesAreApproved()
    ensures forall p :: Within(p, ECLASS) || Within(p, PORTAGE) || p == PACKAGES ==> Approved(p)
  {
  }

  lemma NoRepos(src: Fs)
    ensures forall p :: !OfRepos(p, {})
  {
  }

  lemma NoneWithoutParent(src: Fs, d: Path)
    requires Tree(src) && d !in src
    ensures Children(src, d) == {}
  {
  }

  lemma ChildLength(src: Fs, d: Path, c: Path)
    requires c in Children(src, d)
    ensures |c| == |d| + 1 && d <= c
  {
  }

  lemma ScopesAreDisjoint(src: Fs)
    ensures forall p :: OfRepos(p, Children(src, REPOS)) ==> !Within(p, ECLASS) && !Within(p, PORTAGE) && p != PACKAGES
    ensures forall p :: Within(p, ECLASS) ==> !Within(p, PORTAGE)
    ensures !Within(PACKAGES, ECLASS) && !Within(PACKAGES, PORTAGE)
  {
    forall p | OfRepos(p, Children(src, REPOS)) ensures p[..3] == REPOS { assert p[..4][..3] == p[..3]; }
    forall p: Path | Within(p, ECLASS) ensures p[1] == "cache" { assert p[1] == ECLASS[1]; }
    forall p: Path | Within(p, PORTAGE) ensures p[1] == "lib" { assert p[1] == PORTAGE[1]; }
    assert |PACKAGES[2]| == 7 && |ECLASS[2]| == 6;
    assert PACKAGES[..3][2] != ECLASS[2];
  }

  lemma ApprovedScopes(src: Fs)
    requires Tree(src)
    ensures forall p :: p in src ==>
              (Approved(p) <==> OfRepos(p, Children(src, REPOS)) || Within(p, ECLASS) || p == PACKAGES || Within(p, PORTAGE))
  {
    forall p | p in src && |p| >= 5 ensures p[..4] in Children(src, REPOS) <==> p[..3] == REPOS {
      AncestorsPresent(src, p);
      assert Within(p, p[..4]) && p[..4][..3] == p[..3];
    }
    forall p: Path | |p| >= 3 ensures REPOS <= p <==> p[..3] == REPOS {}
  }

  // ── Depth-first search ────────────────────────────────────────────

  /** `seen` is what was recorded, `open` the directories to expand, `expanded` those whose children were recorded. */
  ghost predicate Frontier(src: Fs, root: Path, seen: set<Path>, open: set<Path>, expanded: set<Path>) {
    && root in seen && (forall p :: p in seen ==> p in src && Within(p, root))
    && (forall p :: p in src && p != root && Within(p, root) ==> (p in seen <==> Parent(p) in expanded))
    && (forall d :: d in expanded || d in open <==> d in seen && IsDir(src, d))
    && open !! expanded
  }

  /** The same while the children `part` of `current` have been recorded. */
  ghost predicate Opening(src: Fs, root: Path, seen: set<Path>, open: set<Path>, expanded: set<Path>, current: Path, part: set<Path>) {
    && root in seen && (forall p :: p in seen ==> p in src && Within(p, root))
    && current in seen && IsDir(src, current) && current !in expanded && current !in open
    && part <= Children(src, current)
    && (forall p :: p in src && p != root && Within(p, root) ==> (p in seen <==> Parent(p) in expanded || p in part))
    && (forall d :: d in expanded || d in open || d == current <==> d in seen && IsDir(src, d))
    && open !! expanded
  }

  lemma StartAt(src: Fs, root: Path)
    requires IsDir(src, root) && root != []
    ensures Distinct([root]) && Frontier(src, root, {root}, SetOf([root]), {})
  {
    assert SetOf([root]) == {root};
  }

  lemma TakeTop(src: Fs, root: Path, seen: set<Path>, stack: seq<Path>, expanded: set<Path>)
    requires stack != [] && Distinct(stack) && Frontier(src, root, seen, SetOf(stack), expanded)
    ensures var n := |stack| - 1;
            && Distinct(stack[..n]) && Opening(src, root, seen, SetOf(stack[..n]), expanded, stack[n], {})
            && stack[n] in src && stack[n] !in expanded
  {
    var n := |stack| - 1;
    TakeNext(stack, n);
    assert stack[..n + 1] == stack;
  }

  lemma ChildIsWithin(root: Path, current: Path, p: Path)
    requires Within(current, root) && p != [] && Parent(p) == current
    ensures Within(p, root) && p != root
  {
    assert p == current + [Last(p)];
  }

  lemma OneMoreChild(src: Fs, root: Path, seen: set<Path>, stack: seq<Path>, expanded: set<Path>, current: Path, part: set<Path>, p: Path)
    requires Opening(src, root, seen, SetOf(stack), expanded, current, part) && Distinct(stack) && p in Children(src, current) && p !in part
    ensures p !in seen && Within(p, root) && p in src && p != []
    ensures var stack' := if src[p].Dir? then stack + [p] else stack;
            Distinct(stack') && Opening(src, root, seen + {p}, SetOf(stack'), expanded, current, part + {p})
  {
    hide Distinct, SetOf;
    ChildIsWithin(root, current, p);
    assert p !in seen;
    if src[p].Dir? { Pushed(stack, p); }
  }

  lemma Expanded(src: Fs, root: Path, seen: set<Path>, open: set<Path>, expanded: set<Path>, current: Path, children: set<Path>)
    requires children == Children(src, current) && Opening(src, root, seen, open, expanded, current, children)
    ensures Frontier(src, root, seen, open, expanded + {current})
  {
  }

  lemma ExpandedOneMore(all: set<Path>, expanded: set<Path>, d: Path)
    requires d in all && d !in expanded
    ensures |all - (expanded + {d})| < |all - expanded|
  {
    assert all - (expanded + {d}) == (all - expanded) - {d};
  }

  lemma AllReached(src: Fs, root: Path, seen: set<Path>, expanded: set<Path>)
    requires Tree(src) && Frontier(src, root, seen, SetOf([]), expanded)
    ensures forall p :: p in seen <==> p in src && Within(p, root)
  {
    forall p | p in src && Within(p, root) ensures p in seen { Reached(src, root, seen, expanded, p); }
  }

  lemma {:induction false} Reached(src: Fs, root: Path, seen: set<Path>, expanded: set<Path>, p: Path)
    requires Tree(src) && Frontier(src, root, seen, SetOf([]), expanded) && p in src && Within(p, root)
    ensures p in seen
    decreases |p|
  {
    if p != root {
      PrefixOfChild(p);
      Reached(src, root, seen, expanded, Parent(p));
    }
  }

  lemma NotBlocked(src: Fs, p: Path)
    requires Tree(src) && p in src
    ensures !Blocked(src, p)
  {
    AncestorsPresent(src, p);
    forall i | 0 <= i < |p| ensures p[..i] in src && src[p[..i]].Dir? { assert Within(p, p[..i]); }
  }

  lemma NothingBelow(src: Fs, root: Path)
    requires Tree(src) && root !in src
    ensures forall p :: p in src ==> !Within(p, root)
  {
    forall p | p in src ensures !Within(p, root) { AncestorsPresent(src, p); }
  }
}

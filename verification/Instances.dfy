/**
 The hypotheses of the theorems can be met: a lawful codec under which different contents have
 different digests, an order to walk in, and a server, a configuration and a captured tree.
 */
module Instances {
  import opened Common
  import opened Collections
  import opened Codecs
  import opened BlobStores
  import opened TreeStores
  import opened Snapshots
  import SnapshotProofs
  import Uploads = SnapshotUploads
  import opened UploadSessions
  import UploadProtocol
  import opened UploadSafety
  import Streams = StreamedUploads
  import Parity = ParityTheorems
  import ParityExactness
  import opened Paths
  import opened FileSystems
  import opened ParityCaptures
  import opened ParityShipments
  import opened ParityEffects
  import opened ParityPhases

  // ── A codec ───────────────────────────────────────────────────────

  const A_CONTENT: Bytes := [1]
  const ANOTHER: Bytes := [2]

  function Repeated(c: char): string {
    seq(64, i => c)
  }

  const CODEC: Codec := Codec(b => if b == A_CONTENT then Repeated('1') else Repeated('0'), b => [0] + b, s => if s == [] then None else Some(s[1..]))

  lemma CodecIsLawful()
    ensures CODEC.Lawful() && CODEC.CollisionFreeOn({A_CONTENT, ANOTHER})
  {
    assert forall b: Bytes :: ([0] + b)[1..] == b;
    assert Repeated('1')[0] != Repeated('0')[0];
  }

  // ── An order ──────────────────────────────────────────────────────

  ghost function Listing<T(!new)>(s: set<T>): (xs: seq<T>)
    ensures (forall x :: x in xs <==> x in s) && Distinct(xs)
    decreases s
  {
    if s == {} then [] else var x :| x in s; Listing(s - {x}) + [x]
  }

  ghost function Order<T(!new)>(): set<T> -> seq<T> {
    s => Listing(s)
  }

  lemma OrderWalks()
    ensures Walks(Order<string>())
  {
  }

  // ── A server and a configuration ──────────────────────────────────

  ghost function Environment(): Env {
    Env(Forms(CODEC, r => []), Order<string>())
  }

  const REPOS_CAPTURED: map<string, Uploads.CapturedFiles> :=
    map["overlay" := map["f" := Uploads.Captured(A_CONTENT, 1, 0), "g" := Uploads.Captured(ANOTHER, 2, 0)]]

  const SERVER: Uploads.Server := Uploads.Server(Disk(map[], map[], EMPTY), map[])

  ghost function Contained(): Pool {
    Pool({A_CONTENT, ANOTHER}, {Uploads.Digests(Environment(), REPOS_CAPTURED["overlay"])})
  }

  /** An empty server and two captured files, one of whose sizes is not that of what was read. */
  lemma SubmissionInstance()
    ensures var env, pool := Environment(), Contained();
            && SnapshotProofs.Ready(env, pool, Uploads.Cache(SERVER)) && Uploads.TreesOccur(env, pool, REPOS_CAPTURED)
            && Uploads.AllReceived(env, pool, SERVER.disk, REPOS_CAPTURED, map[])
            && SnapshotProofs.Covers(env, pool, Uploads.Assembled(env, 0, REPOS_CAPTURED, map[]))
            && !Uploads.SizesAgree(REPOS_CAPTURED) && Uploads.AllAdmitted(env, SERVER.disk, REPOS_CAPTURED, map[])
  {
    hide Environment, Contained, SnapshotProofs.Ready, SnapshotProofs.Covers, Uploads.Receives, Uploads.Occurs, Uploads.Assembled, Uploads.Admits, Uploads.TreesOccur, Uploads.SizesAgree;
    var env, pool := Environment(), Contained();
    ReadyInstance();
    forall b | Uploads.Occurs(REPOS_CAPTURED, map[], b) ensures b in pool.contents && Uploads.Receives(env, pool, SERVER.disk, b) && b != [] {
      ContentIsReceived(b);
    }
    Uploads.AssembledIsCovered(env, pool, 0, REPOS_CAPTURED, map[]);
    Uploads.FreshServerAdmits(env, SERVER, REPOS_CAPTURED, map[]);
    SizesDisagree();
  }

  lemma ReadyInstance()
    ensures var env, pool := Environment(), Contained();
            SnapshotProofs.Ready(env, pool, Uploads.Cache(SERVER)) && env.Lawful() && Uploads.TreesOccur(env, pool, REPOS_CAPTURED)
  {
    hide Uploads.Digests, Order, Codec.Lawful;
    CodecIsLawful();
    OrderWalks();
  }

  lemma SizesDisagree()
    ensures !Uploads.SizesAgree(REPOS_CAPTURED)
  {
    assert "g" in REPOS_CAPTURED["overlay"] && REPOS_CAPTURED["overlay"]["g"].statSize != |REPOS_CAPTURED["overlay"]["g"].content|;
    assert !Uploads.SizesMatch(REPOS_CAPTURED["overlay"]);
  }

  lemma ContentIsReceived(b: Bytes)
    requires Uploads.Occurs(REPOS_CAPTURED, map[], b)
    ensures b in Contained().contents && Uploads.Receives(Environment(), Contained(), SERVER.disk, b) && b != []
  {
    hide Order, CODEC;
    var job := Uploads.PayloadJob(Environment(), b);
    assert b == A_CONTENT || b == ANOTHER;
    assert Streams.Whole(job, SERVER.disk) == job.Stream() == b;
  }

  /** A client with a payload, and a server that has nothing of it. */
  lemma UploadInstance()
    ensures var job := UploadProtocol.Job(CODEC, A_CONTENT, 0); job.Valid() && FreshFor(job, SERVER.disk) && job.Digest() !in SERVER.disk.store.blobs
  {
    CodecIsLawful();
  }

  // ── A captured tree ───────────────────────────────────────────────

  const CAPTURED: Fs :=
    map[[] := Dir(0), ["var"] := Dir(0), ["var", "lib"] := Dir(0), PORTAGE := Dir(0), ParityExactness.A_FILE := File(A_CONTENT, 0)]

  lemma CapturedIsSource()
    ensures Source(CAPTURED)
  {
    hide Tree, Clean, CAPTURED;
    CapturedIsTree();
    CapturedIsClean();
  }

  lemma CapturedIsTree()
    ensures Tree(CAPTURED)
  {
    hide Name, FILE_PART;
    ParityExactness.InTheWayNames();
    ParityExactness.InTheWayParents();
  }

  lemma CapturedIsClean()
    ensures Clean(CAPTURED)
  {
    hide Approved, NoBackslash, FILE_PART;
    ParityExactness.InTheWayNames();
  }

  /** Every source has a walk that visits exactly its approved nodes. */
  lemma FairVisitsExist(src: Fs) returns (visits: seq<Visit>)
    requires Tree(src)
    ensures Fair(src, visits) && Parity.Scope(src, PathsOf(visits))
  {
    hide Joined, Key, Approved, Tree;
    EmptyIsNotApproved();
    var approved := set p | p in src && Approved(p);
    var paths := Listing(approved);
    visits := seq(|paths|, i requires 0 <= i < |paths| => Visit(Joined(paths[i]), paths[i]));
    forall v | v in visits ensures v.path in approved && v.key == Joined(v.path) {
      var i :| 0 <= i < |visits| && visits[i] == v;
      assert paths[i] in paths;
    }
    forall p | p in approved ensures p in PathsOf(visits) {
      assert p in paths;
      var i :| 0 <= i < |paths| && paths[i] == p;
      assert visits[i] in visits;
    }
  }

  lemma EmptyIsNotApproved()
    ensures !Approved([])
  {
  }

  lemma ParityInstance(t: int)
    ensures var pool := {A_CONTENT, ANOTHER};
            && CODEC.Lawful() && CODEC.CollisionFreeOn(pool) && Sound(CODEC, EMPTY) && StoreWithin(CODEC, pool, EMPTY)
            && Source(CAPTURED) && Parity.CapturedWithin(CAPTURED, pool) && NoDirInTheWay(CAPTURED) && Captured(CAPTURED, ParityExactness.A_FILE)
            && Compatible(CAPTURED, map[[] := Dir(t)]) && NoImpostor(CODEC, CAPTURED, map[[] := Dir(t)])
  {
    hide CODEC, CAPTURED, Approved, Noise, Sibling, Temps, Sound, StoreWithin, Parity.CapturedWithin, NoDirInTheWay, Compatible, NoImpostor, Captured;
    CodecIsLawful();
    EmptyStoreIsWithin();
    CapturedIsSource();
    CapturedIsWithin();
    Parity.EmptyRootIsCompatible(CAPTURED, t);
    Parity.EmptyRootIsHonest(CODEC, CAPTURED, t);
    CapturedHasTheFile();
    OnlyOneFile();
  }

  lemma EmptyStoreIsWithin()
    ensures Sound(CODEC, EMPTY) && StoreWithin(CODEC, {A_CONTENT, ANOTHER}, EMPTY)
  {
    hide CODEC;
  }

  lemma CapturedIsWithin()
    ensures Parity.CapturedWithin(CAPTURED, {A_CONTENT, ANOTHER})
  {
    hide Approved, Noise;
  }

  lemma CapturedHasTheFile()
    ensures Captured(CAPTURED, ParityExactness.A_FILE)
  {
    assert PORTAGE <= ParityExactness.A_FILE && ParityExactness.A_FILE[|ParityExactness.A_FILE| - 1] == "a";
    assert !Noise("a");
  }

  /** The temporary of the only file is no captured directory. */
  lemma OnlyOneFile()
    ensures NoDirInTheWay(CAPTURED)
  {
    hide Noise, Sibling;
    ParityExactness.InTheWayParents();
    forall p, d | Captured(CAPTURED, p) && Captured(CAPTURED, d) && KeptDir(CAPTURED, d) ensures d !in Temps(CAPTURED, p) {
      if d in Temps(CAPTURED, p) { TempsAreSiblings(CAPTURED, p, d); }
    }
  }
}

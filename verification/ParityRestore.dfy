/** The client's reconciliation of a local root with a parity manifest. */
module ParityRestores {
  import opened Common
  import opened Collections
  import opened Codecs
  import opened BlobStores
  import opened Paths
  import opened FileSystems
  import opened ParityCaptures

  datatype Issue = Excluded | WrongKindThere | CannotCreate | DownloadFailed | ContentMismatch | CannotMove | VerificationFailed

  /** The root after one entry, the downloads it took, and what went wrong. */
  datatype Attempt = Attempt(fs: Fs, downloads: nat, issue: Option<Issue>)

  function Target(key: string): (t: Option<Path>)
    ensures t.Some? ==> t.value != []
  {
    var p := Sanitize(key);
    if p.Ok? && Approved(p.value) then Some(p.value) else None
  }

  predicate FileMatches(codec: Codec, fs: Fs, p: Path, e: Entry) {
    p in fs && fs[p].File? && |fs[p].bytes| == e.size && fs[p].mtime == e.mtime && codec.sha256(fs[p].bytes) == e.digest
  }

  predicate LinkMatches(codec: Codec, fs: Fs, p: Path, e: Entry) {
    p in fs && fs[p].Link? && fs[p].mtime == e.mtime && |fs[p].target| == e.size && codec.sha256(fs[p].target) == e.digest
  }

  predicate DirMatches(fs: Fs, p: Path, mtime: int) {
    p in fs && fs[p].Dir? && fs[p].mtime == mtime
  }

  function Fetched(codec: Codec, st: Store, e: Entry): Option<Bytes> {
    DecodeDownload(codec, DownloadBlob(st, e.digest, true))
  }

  predicate RightContent(codec: Codec, bytes: Bytes, e: Entry) {
    |bytes| == e.size && codec.sha256(bytes) == e.digest
  }

  // ── One entry ─────────────────────────────────────────────────────

  function EnsureDirectory(fs: Fs, key: string, now: int): Attempt {
    var t := Target(key);
    if t.None? then Attempt(fs, 0, Some(Excluded))
    else if t.value in fs then Attempt(fs, 0, if fs[t.value].Dir? then None else Some(WrongKindThere))
    else
      var made := CreateDirAll(fs, t.value, now);
      if made.Err? then Attempt(fs, 0, Some(CannotCreate)) else Attempt(made.value, 0, None)
  }

  function FinishDirectory(fs: Fs, key: string, mtime: int): Attempt {
    var t := Target(key);
    if t.None? then Attempt(fs, 0, Some(Excluded))
    else if !IsDir(fs, t.value) then Attempt(fs, 0, Some(WrongKindThere))
    else Attempt(fs[t.value := Dir(mtime)], 0, None)
  }

  /** Moves downloaded bytes into place through a temporary sibling. */
  function PlaceFile(codec: Codec, fs: Fs, p: Path, bytes: Bytes, e: Entry, now: int): Attempt
    requires p != []
  {
    var temporary := Sibling(p, FILE_PART);
    var written := WriteFile(fs, temporary, bytes, now);
    if written.Err? then Attempt(fs, 1, Some(DownloadFailed))
    else if !RightContent(codec, bytes, e) then Attempt(written.value, 1, Some(ContentMismatch))
    else
      var moved := Rename(written.value, temporary, p, now);
      if moved.Err? then Attempt(written.value, 1, Some(CannotMove))
      else
        var timed := SetMtime(moved.value, p, e.mtime);
        if timed.Err? then Attempt(moved.value, 1, Some(CannotMove))
        else Attempt(timed.value, 1, if FileMatches(codec, timed.value, p, e) then None else Some(VerificationFailed))
  }

  function RestoreFile(codec: Codec, st: Store, fs: Fs, key: string, e: Entry, now: int): Attempt {
    var t := Target(key);
    if t.None? then Attempt(fs, 0, Some(Excluded))
    else if FileMatches(codec, fs, t.value, e) then Attempt(fs, 0, None)
    else
      var made := CreateDirAll(fs, Parent(t.value), now);
      if made.Err? then Attempt(fs, 0, Some(CannotCreate))
      else
        var bytes := Fetched(codec, st, e);
        if bytes.None? then Attempt(made.value, 1, Some(DownloadFailed)) else PlaceFile(codec, made.value, t.value, bytes.value, e, now)
  }

  /** Replaces whatever is at p, unless it is a directory, by a link made beside it. */
  function SwapLink(fs: Fs, p: Path, target: Bytes, mtime: int, now: int): Attempt
    requires p != []
  {
    if IsDir(fs, p) then Attempt(fs, 1, Some(WrongKindThere))
    else
      var cleared := if p in fs then Touched(fs - {p}, Parent(p), now) else fs;
      var beside := Sibling(p, LINK_LINK);
      var free := if beside in cleared && !cleared[beside].Dir? then Touched(cleared - {beside}, Parent(p), now) else cleared;
      var made := MakeLink(free, beside, target, now);
      if made.Err? then Attempt(free, 1, Some(CannotCreate))
      else
        var moved := Rename(made.value, beside, p, now);
        if moved.Err? then Attempt(made.value, 1, Some(CannotMove))
        else
          var timed := SetMtime(moved.value, p, mtime);
          if timed.Err? then Attempt(moved.value, 1, Some(CannotMove)) else Attempt(timed.value, 1, None)
  }

  function PlaceLink(codec: Codec, fs: Fs, p: Path, bytes: Bytes, e: Entry, now: int): Attempt
    requires p != []
  {
    var temporary := Sibling(p, LINK_PART);
    var written := WriteFile(fs, temporary, bytes, now);
    if written.Err? then Attempt(fs, 1, Some(DownloadFailed))
    else if !RightContent(codec, bytes, e) then Attempt(written.value, 1, Some(ContentMismatch))
    else
      var removed := RemoveFile(written.value, temporary, now);
      if removed.Err? then Attempt(written.value, 1, Some(CannotMove)) else SwapLink(removed.value, p, bytes, e.mtime, now)
  }

  function RestoreLink(codec: Codec, st: Store, fs: Fs, key: string, e: Entry, now: int): Attempt {
    var t := Target(key);
    if t.None? then Attempt(fs, 0, Some(Excluded))
    else if LinkMatches(codec, fs, t.value, e) then Attempt(fs, 0, None)
    else
      var made := CreateDirAll(fs, Parent(t.value), now);
      if made.Err? then Attempt(fs, 0, Some(CannotCreate))
      else
        var bytes := Fetched(codec, st, e);
        if bytes.None? then Attempt(made.value, 1, Some(DownloadFailed)) else PlaceLink(codec, made.value, t.value, bytes.value, e, now)
  }

  // ── The whole manifest ────────────────────────────────────────────

  datatype Work =
    | MakeDirectory(key: string)
    | PutLink(key: string, entry: Entry)
    | PutFile(key: string, entry: Entry)
    | StampDirectory(key: string, mtime: int)

  function Perform(codec: Codec, st: Store, fs: Fs, work: Work, now: int): Attempt {
    match work
    case MakeDirectory(key) => EnsureDirectory(fs, key, now)
    case PutLink(key, e) => RestoreLink(codec, st, fs, key, e, now)
    case PutFile(key, e) => RestoreFile(codec, st, fs, key, e, now)
    case StampDirectory(key, mtime) => FinishDirectory(fs, key, mtime)
  }

  datatype Progress = Progress(fs: Fs, downloads: nat, issues: seq<Issue>)

  function With(p: Progress, a: Attempt): Progress {
    Progress(a.fs, p.downloads + a.downloads, if a.issue.None? then p.issues else p.issues + [a.issue.value])
  }

  function PerformAll(codec: Codec, st: Store, start: Progress, works: seq<Work>, now: int): Progress
    decreases |works|
  {
    if works == [] then start
    else
      var before := PerformAll(codec, st, start, works[..|works| - 1], now);
      With(before, Perform(codec, st, before.fs, works[|works| - 1], now))
  }

  function Makes(keys: seq<string>): (ws: seq<Work>)
    ensures |ws| == |keys| && forall i :: 0 <= i < |keys| ==> ws[i] == MakeDirectory(keys[i])
  {
    seq(|keys|, i requires 0 <= i < |keys| => MakeDirectory(keys[i]))
  }

  function Links(m: Manifest, keys: seq<string>): (ws: seq<Work>)
    requires forall k :: k in keys ==> k in m.links
    ensures |ws| == |keys| && forall i :: 0 <= i < |keys| ==> ws[i] == PutLink(keys[i], m.links[keys[i]])
  {
    seq(|keys|, i requires 0 <= i < |keys| => assert keys[i] in keys; PutLink(keys[i], m.links[keys[i]]))
  }

  function Files(m: Manifest, keys: seq<string>): (ws: seq<Work>)
    requires forall k :: k in keys ==> k in m.files
    ensures |ws| == |keys| && forall i :: 0 <= i < |keys| ==> ws[i] == PutFile(keys[i], m.files[keys[i]])
  {
    seq(|keys|, i requires 0 <= i < |keys| => assert keys[i] in keys; PutFile(keys[i], m.files[keys[i]]))
  }

  function Stamps(m: Manifest, keys: seq<string>): (ws: seq<Work>)
    requires forall k :: k in keys ==> k in m.dirs
    ensures |ws| == |keys| && forall i :: 0 <= i < |keys| ==> ws[i] == StampDirectory(keys[i], m.dirs[keys[i]])
  {
    seq(|keys|, i requires 0 <= i < |keys| => assert keys[i] in keys; StampDirectory(keys[i], m.dirs[keys[i]]))
  }

  /** Everything the manifest lists is as listed. */
  predicate Verified(codec: Codec, fs: Fs, m: Manifest) {
    && (forall k :: k in m.dirs ==> Target(k).Some? && DirMatches(fs, Target(k).value, m.dirs[k]))
    && (forall k :: k in m.links ==> Target(k).Some? && LinkMatches(codec, fs, Target(k).value, m.links[k]))
    && (forall k :: k in m.files ==> Target(k).Some? && FileMatches(codec, fs, Target(k).value, m.files[k]))
  }

  /** Directories, then links, then files, then directory times. */
  function Reconciled(codec: Codec, st: Store, order: set<string> -> seq<string>, m: Manifest, fs: Fs, now: int): Progress
    requires Walks(order)
  {
    var p0 := PerformAll(codec, st, Progress(fs, 0, []), Makes(order(m.dirs.Keys)), now);
    var p1 := PerformAll(codec, st, p0, Links(m, order(m.links.Keys)), now);
    var p2 := PerformAll(codec, st, p1, Files(m, order(m.files.Keys)), now);
    PerformAll(codec, st, p2, Stamps(m, order(m.dirs.Keys)), now)
  }

  class Reconciler {
    const codec: Codec
    const store: Store
    const order: set<string> -> seq<string>
    var fs: Fs
    var downloads: nat
    var issues: seq<Issue>

    ghost function Contents(): Progress
      reads this
    {
      Progress(fs, downloads, issues)
    }

    constructor (codec: Codec, store: Store, order: set<string> -> seq<string>, fs: Fs)
      ensures this.codec == codec && this.store == store && this.order == order && Contents() == Progress(fs, 0, [])
    {
      this.codec, this.store, this.order := codec, store, order;
      this.fs, downloads, issues := fs, 0, [];
    }

    method Phase(works: seq<Work>, now: int)
      modifies this
      ensures Contents() == PerformAll(codec, store, old(Contents()), works, now)
    {
      hide Perform;
      var i := 0;
      while i < |works|
        invariant i <= |works| && Contents() == PerformAll(codec, store, old(Contents()), works[..i], now)
      {
        assert works[..i + 1][..i] == works[..i];
        var a := Perform(codec, store, fs, works[i], now);
        fs := a.fs;
        downloads := downloads + a.downloads;
        if a.issue.Some? { issues := issues + [a.issue.value]; }
        i := i + 1;
      }
      assert works[..i] == works;
    }

    method Reconcile(m: Manifest, now: int) returns (ok: bool)
      requires Walks(order) && Contents() == Progress(fs, 0, [])
      modifies this
      ensures ok <==> issues == []
      ensures var done := Reconciled(codec, store, order, m, old(fs), now);
              && fs == done.fs && downloads == done.downloads
              && (ok <==> done.issues == [] && Verified(codec, fs, m))
    {
      hide PerformAll, Verified;
      Phase(Makes(order(m.dirs.Keys)), now);
      Phase(Links(m, order(m.links.Keys)), now);
      Phase(Files(m, order(m.files.Keys)), now);
      Phase(Stamps(m, order(m.dirs.Keys)), now);
      if issues == [] && !Verified(codec, fs, m) { issues := [VerificationFailed]; }
      ok := issues == [];
    }
  }
}

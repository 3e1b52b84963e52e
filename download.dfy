/**
 * The local side of downloading: the target path of a record
 * (`os.path.join`), the decision of `downloadFile` to skip, fetch or
 * write a file, and the directory pre-pass of `downloadAllFiles`, which
 * creates the directory of every record before the downloads start.
 */
module Download {
  import opened Wrappers
  import opened Text
  import opened Listing
  import opened Seqs

  /** The local file system: the modification time of each file, and the directories. */
  datatype FileSystem = FileSystem(mtimes: map<string, real>, dirs: set<string>)

  // ---------------------------------------------------------------------------
  // os.path.join

  /** `os.path.join(a, b)` on POSIX: an absolute `b` replaces `a`, otherwise one separator is put between them. */
  function PathJoin(a: string, b: string): (p: string)
    ensures HasPrefix(b, "/") ==> p == b
    ensures !HasPrefix(b, "/") ==> HasPrefix(p, a) && |p| >= |a| + |b| && p[|p| - |b|..] == b
    ensures !HasPrefix(b, "/") && a != [] && a[|a| - 1] != '/' ==> |p| == |a| + 1 + |b| && p[|a|] == '/'
  {
    if b != [] && b[0] == '/' then b
    else if a == [] || a[|a| - 1] == '/' then a + b
    else a + "/" + b
  }

  /** A join is absolute exactly when one of its parts is. */
  lemma PathJoinLead(a: string, b: string)
    ensures HasPrefix(PathJoin(a, b), "/") <==> HasPrefix(b, "/") || HasPrefix(a, "/")
  {
    if HasPrefix(b, "/") {
    } else if a == [] || a[|a| - 1] == '/' {
      if a == [] { assert a + b == b; } else { assert (a + b)[0] == a[0]; }
    } else {
      assert (a + "/" + b)[0] == a[0];
    }
  }

  /** `os.path.join(a, b, c)` does not depend on how the three parts are grouped. */
  lemma PathJoinAssociative(a: string, b: string, c: string)
    ensures PathJoin(PathJoin(a, b), c) == PathJoin(a, PathJoin(b, c))
  {
    if HasPrefix(c, "/") {
    } else if HasPrefix(b, "/") {
      PathJoinLead(b, c);
    } else {
      PathJoinRelative(a, b, c);
    }
  }

  /** The separator a join puts after `a`: none when `a` is empty or already ends in `/`. */
  function Sep(a: string): (sep: string)
    ensures |sep| <= 1
  {
    if a == [] || a[|a| - 1] == '/' then "" else "/"
  }

  /** Joining a relative part adds the separator and the part. */
  lemma JoinRelative(a: string, x: string)
    requires !HasPrefix(x, "/")
    ensures PathJoin(a, x) == a + Sep(a) + x
  {
    if Sep(a) == "" { AppendEmpty(a); }
  }

  /** After a join, the separator is that of the last part, or none when that part is empty. */
  lemma SepOfJoin(a: string, b: string)
    ensures Sep(a + Sep(a) + b) == Sep(b)
  {
    var ab := a + Sep(a) + b;
    if b != [] {
      assert ab[|ab| - 1] == b[|b| - 1];
    } else if a == [] {
      assert ab == [];
    } else {
      assert ab[|ab| - 1] == '/';
    }
  }

  lemma PathJoinRelative(a: string, b: string, c: string)
    requires !HasPrefix(b, "/") && !HasPrefix(c, "/")
    ensures PathJoin(PathJoin(a, b), c) == PathJoin(a, PathJoin(b, c))
  {
    JoinRelative(a, b);
    JoinRelative(a + Sep(a) + b, c);
    SepOfJoin(a, b);
    JoinRelative(b, c);
    RelativeJoinRelative(b, c);
    JoinRelative(a, b + Sep(b) + c);
    ConcatFive(a, Sep(a), b, Sep(b), c);
  }

  /** A relative part joined with a relative part is relative. */
  lemma RelativeJoinRelative(b: string, c: string)
    requires !HasPrefix(b, "/") && !HasPrefix(c, "/")
    ensures !HasPrefix(b + Sep(b) + c, "/")
  {
    if b != [] {
      assert (b + Sep(b) + c)[0] == b[0];
    } else {
      assert b + Sep(b) + c == c;
    }
  }

  /** The local path of a record: `os.path.join(download_path, file['path'], file['name'])`. */
  function Target(downloadPath: string, f: FileRecord): string {
    PathJoin(PathJoin(downloadPath, f.path), f.name)
  }

  /** The directory of a record that the pre-pass creates: `os.path.join(download_path, f['path'])`. */
  function Directory(downloadPath: string, f: FileRecord): string {
    PathJoin(downloadPath, f.path)
  }

  /** A record's target lies in its directory, which the file's name extends. */
  lemma TargetInDirectory(downloadPath: string, f: FileRecord)
    requires !HasPrefix(f.name, "/")
    ensures HasPrefix(Target(downloadPath, f), Directory(downloadPath, f))
    ensures Target(downloadPath, f) == PathJoin(downloadPath, PathJoin(f.path, f.name))
  {
    PathJoinAssociative(downloadPath, f.path, f.name);
  }

  // ---------------------------------------------------------------------------
  // downloadFile

  /** How the write of a fetched file ends: `open` fails, or `copyfileobj` fails after `open` created the file. */
  datatype Write = Completed | OpenFailed | CopyFailed

  /** What `downloadFile` did: `None` is returned for the first three, the exception for a failed write. */
  datatype Outcome = Skipped | NotOk | Written | Failed(partial: bool)

  /** The skip test: the local file exists and is newer than the remote modification time (strictly). */
  predicate UpToDate(fs: FileSystem, target: string, stamp: real) {
    target in fs.mtimes && stamp < fs.mtimes[target]
  }

  /**
   * `downloadFile` for a record whose local path is `target` and whose
   * modification date has the timestamp `stamp`: the GET answers `status`,
   * the write ends as `write`, and a written file gets the time `now`.
   */
  function DownloadFile(fs: FileSystem, target: string, stamp: real, status: int, write: Write, now: real)
    : (r: (FileSystem, Outcome))
    ensures r.1 == Skipped <==> UpToDate(fs, target, stamp)
    ensures r.1 == NotOk <==> !UpToDate(fs, target, stamp) && status != 200
    ensures r.1 == Written <==> !UpToDate(fs, target, stamp) && status == 200 && write == Completed
    ensures r.1 in {Skipped, NotOk, Failed(false)} ==> r.0 == fs
    ensures r.1 in {Written, Failed(true)} ==> r.0 == FileSystem(fs.mtimes[target := now], fs.dirs)
    ensures r.0.dirs == fs.dirs && r.0.mtimes.Keys <= fs.mtimes.Keys + {target}
  {
    if UpToDate(fs, target, stamp) then (fs, Skipped)
    else if status != 200 then (fs, NotOk)
    else match write
      case Completed => (FileSystem(fs.mtimes[target := now], fs.dirs), Written)
      case OpenFailed => (fs, Failed(false))
      case CopyFailed => (FileSystem(fs.mtimes[target := now], fs.dirs), Failed(true))
  }

  /**
   * Once a file has been fetched and opened at a time later than its remote
   * timestamp, every later run skips it, whatever the server answers then.
   * This holds for a record with the fixed date 2000-01-01, whose remote
   * changes are then never fetched again, and for a file whose copy failed
   * half-way, which stays truncated.
   */
  lemma FetchedThenSkipped(fs: FileSystem, target: string, stamp: real, write: Write, now: real,
                           status2: int, write2: Write, now2: real)
    requires write != OpenFailed && stamp < now
    ensures var fs1 := DownloadFile(fs, target, stamp, 200, write, now).0;
      DownloadFile(fs1, target, stamp, status2, write2, now2) == (fs1, Skipped)
  {
    var fs1 := DownloadFile(fs, target, stamp, 200, write, now).0;
    assert target in fs1.mtimes && stamp < fs1.mtimes[target];
  }

  /** A local file at least as old as the remote one is fetched again: equal times do not count as up to date. */
  lemma EqualTimesRefetched(fs: FileSystem, target: string, now: real)
    requires target in fs.mtimes
    ensures DownloadFile(fs, target, fs.mtimes[target], 200, Completed, now).1 == Written
  {
  }

  // ---------------------------------------------------------------------------
  // The directory pre-pass of downloadAllFiles

  /** `pathlib.Path(p)`: trailing separators are dropped (except for the root itself). */
  function Normalize(p: string): (n: string)
    ensures |n| <= |p| && n == p[..|n|]
    ensures |n| > 1 ==> n[|n| - 1] != '/'
  {
    if |p| > 1 && p[|p| - 1] == '/' then Normalize(p[..|p| - 1]) else p
  }

  /** `Path(p).exists()`: the empty path is the working directory. */
  predicate Exists(fs: FileSystem, p: string) {
    var n := Normalize(p);
    n == [] || n in fs.mtimes || n in fs.dirs
  }

  /** The directories `Path(p).mkdir(parents=True)` creates: `p` and every parent, each up to a separator. */
  function Ancestors(p: string): (a: set<string>)
    ensures Normalize(p) != [] ==> Normalize(p) in a
    ensures forall d | d in a :: d != [] && HasPrefix(Normalize(p), d)
  {
    var n := Normalize(p);
    var a := set i: nat | 0 < i <= |n| && (i == |n| || n[i] == '/') :: n[..i];
    assert n != [] ==> n == n[..|n|] && n[..|n|] in a;
    a
  }

  /** One path of the pre-pass: `if not Path(p).exists(): Path(p).mkdir(parents=True, exist_ok=True)`. */
  function MkDir(fs: FileSystem, p: string): (r: FileSystem)
    ensures Exists(r, p)
    ensures r.mtimes == fs.mtimes && fs.dirs <= r.dirs <= fs.dirs + Ancestors(p)
  {
    if Exists(fs, p) then fs else FileSystem(fs.mtimes, fs.dirs + Ancestors(p))
  }

  /** The pre-pass over the list of paths, in the order the list gives them. */
  function PrePass(fs: FileSystem, paths: seq<string>): FileSystem
    decreases |paths|
  {
    if paths == [] then fs else PrePass(MkDir(fs, paths[0]), paths[1..])
  }

  /** Every directory that any of the paths would create. */
  function AllAncestors(paths: seq<string>): set<string>
    decreases |paths|
  {
    if paths == [] then {} else Ancestors(paths[0]) + AllAncestors(paths[1..])
  }

  /** The pre-pass keeps the files, keeps every directory, and keeps what exists existing. */
  lemma {:induction false} PrePassGrows(fs: FileSystem, paths: seq<string>)
    ensures PrePass(fs, paths).mtimes == fs.mtimes
    ensures fs.dirs <= PrePass(fs, paths).dirs <= fs.dirs + AllAncestors(paths)
    decreases |paths|
  {
    if paths != [] {
      PrePassGrows(MkDir(fs, paths[0]), paths[1..]);
    }
  }

  lemma {:induction false} PrePassConcat(fs: FileSystem, a: seq<string>, b: seq<string>)
    ensures PrePass(fs, a + b) == PrePass(PrePass(fs, a), b)
    decreases |a|
  {
    if a == [] {
      assert a + b == b;
    } else {
      assert (a + b)[0] == a[0] && (a + b)[1..] == a[1..] + b;
      PrePassConcat(MkDir(fs, a[0]), a[1..], b);
    }
  }

  /** After the pre-pass, each listed directory exists. */
  lemma {:induction false} PrePassCovers(fs: FileSystem, paths: seq<string>)
    ensures forall p | p in paths :: Exists(PrePass(fs, paths), p)
    decreases |paths|
  {
    if paths != [] {
      var fs1 := MkDir(fs, paths[0]);
      PrePassCovers(fs1, paths[1..]);
      PrePassGrows(fs1, paths[1..]);
      forall p | p in paths ensures Exists(PrePass(fs, paths), p) {
        if p != paths[0] {
          assert p in paths[1..];
        }
      }
    }
  }

  /** A path listed twice is created once: the list the set of paths becomes may hold each path once or more. */
  lemma PrePassDuplicate(fs: FileSystem, paths: seq<string>, p: string)
    requires p in paths
    ensures PrePass(fs, paths + [p]) == PrePass(fs, paths)
  {
    PrePassConcat(fs, paths, [p]);
    PrePassCovers(fs, paths);
    var r := PrePass(fs, paths);
    assert PrePass(r, [p]) == PrePass(MkDir(r, p), []);
  }

  /** `for p in paths: ...`: the pre-pass as the loop runs it. */
  method MakeDirs(fs: FileSystem, paths: seq<string>) returns (r: FileSystem)
    ensures r == PrePass(fs, paths)
    ensures forall p | p in paths :: Exists(r, p)
  {
    r := fs;
    var i := 0;
    while i < |paths|
      invariant 0 <= i <= |paths|
      invariant PrePass(r, paths[i..]) == PrePass(fs, paths)
    {
      assert paths[i..][0] == paths[i] && paths[i..][1..] == paths[i + 1..];
      r := MkDir(r, paths[i]);
      i := i + 1;
    }
    assert paths[i..] == [];
    PrePassCovers(fs, paths);
  }

  /** The directories of the records: `[os.path.join(download_path, f['path']) for f in self.files]`. */
  function Directories(downloadPath: string, files: seq<FileRecord>): (ds: seq<string>)
    ensures |ds| == |files|
    ensures forall k | 0 <= k < |files| :: ds[k] == Directory(downloadPath, files[k])
  {
    seq(|files|, k requires 0 <= k < |files| => Directory(downloadPath, files[k]))
  }

  /** After the pre-pass over the records' directories, the directory of every record exists. */
  lemma RecordDirectoriesExist(fs: FileSystem, downloadPath: string, files: seq<FileRecord>)
    ensures forall k | 0 <= k < |files| ::
      Exists(PrePass(fs, Directories(downloadPath, files)), Directory(downloadPath, files[k]))
  {
    var ds := Directories(downloadPath, files);
    PrePassCovers(fs, ds);
    forall k | 0 <= k < |files|
      ensures Exists(PrePass(fs, ds), Directory(downloadPath, files[k]))
    {
      assert ds[k] in ds;
    }
  }
}

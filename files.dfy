/**
  The temporary-file manager over an abstract disk.

  A path is the sequence of its components; the disk is a map from file
  paths to their bytes and a set of directory paths, the empty path being the
  root, which always exists. File names are single components: a name with a
  separator in it is not modelled.
 */
module Files {
  import opened Wrappers
  import opened Text
  import Jobs

  type Path = seq<string>
  type Bytes = seq<bv8>

  function Parent(p: Path): Path
    requires p != []
  {
    p[..|p| - 1]
  }

  /** `p` is an entry directly inside directory `d`. */
  predicate ChildOf(p: Path, d: Path) {
    p != [] && Parent(p) == d
  }

  /** The files and directories on disk. */
  datatype Disk = Disk(files: map<Path, Bytes>, dirs: set<Path>)

  predicate IsDir(d: Disk, p: Path) {
    p == [] || p in d.dirs
  }

  /** `p` and every directory above it except the root. */
  function Prefixes(p: Path): set<Path> {
    set k | 1 <= k <= |p| :: p[..k]
  }

  /** `mkdir(parents=True, exist_ok=True)`: fails, changing nothing, exactly when some prefix of `p` is a file. */
  function MadeDirs(d: Disk, p: Path): (r: (bool, Disk))
    ensures r.0 <==> forall q | q in Prefixes(p) :: q !in d.files
    ensures r.1.files == d.files
    ensures r.0 ==> IsDir(r.1, p) && forall q | q in Prefixes(p) :: IsDir(r.1, q)
    ensures r.1.dirs == if r.0 then d.dirs + Prefixes(p) else d.dirs
  {
    assert p != [] ==> p[..|p|] == p;
    if forall q | q in Prefixes(p) :: q !in d.files then (true, Disk(d.files, d.dirs + Prefixes(p)))
    else (false, d)
  }

  /** `write_bytes`: fails when the parent is not a directory or `p` is one; otherwise `p` holds exactly `data`. */
  function Written(d: Disk, p: Path, data: Bytes): (r: (bool, Disk))
    ensures r.0 <==> p != [] && IsDir(d, Parent(p)) && p !in d.dirs
    ensures r.1.dirs == d.dirs
    ensures r.1.files == if r.0 then d.files[p := data] else d.files
  {
    if p != [] && IsDir(d, Parent(p)) && p !in d.dirs then (true, Disk(d.files[p := data], d.dirs))
    else (false, d)
  }

  /** `unlink`: succeeds exactly on a file, which then is gone. */
  function Unlinked(d: Disk, p: Path): (r: (bool, Disk))
    ensures r.0 <==> p in d.files
    ensures r.1.dirs == d.dirs && r.1.files == d.files - {p}
  {
    (p in d.files, Disk(d.files - {p}, d.dirs))
  }

  /** Whether any entry of the disk is directly inside `dir`. */
  predicate HasChildren(d: Disk, dir: Path) {
    (exists q | q in d.files :: ChildOf(q, dir)) || (exists q | q in d.dirs :: ChildOf(q, dir))
  }

  /** `rmdir`: succeeds exactly on an empty directory, which then is gone. */
  function Rmdired(d: Disk, p: Path): (r: (bool, Disk))
    ensures r.0 <==> p in d.dirs && !HasChildren(d, p)
    ensures r.1.files == d.files
    ensures r.1.dirs == if r.0 then d.dirs - {p} else d.dirs
  {
    if p in d.dirs && !HasChildren(d, p) then (true, Disk(d.files, d.dirs - {p})) else (false, d)
  }

  /**
    `_remove_job_dir`: for a directory, every file directly inside it is
    deleted, and the directory itself goes when no sub-directory keeps it from
    being empty; anything else is left alone, and no error escapes.
   */
  function JobDirRemoved(d: Disk, dir: Path): (r: Disk)
    ensures r.files.Keys <= d.files.Keys && r.dirs <= d.dirs
    ensures forall p | p in d.files :: p in r.files <==> !(dir in d.dirs && ChildOf(p, dir))
    ensures forall p | p in r.files :: r.files[p] == d.files[p]
    ensures forall p | p in d.dirs :: p in r.dirs <==> !(p == dir && !(exists q | q in d.dirs :: ChildOf(q, dir)))
  {
    if dir in d.dirs then
      var files := map p | p in d.files && !ChildOf(p, dir) :: d.files[p];
      var dirs := if exists q | q in d.dirs :: ChildOf(q, dir) then d.dirs else d.dirs - {dir};
      Disk(files, dirs)
    else d
  }

  /** The disk after `_remove_job_dir` has run for each of the directories `ds`, none inside another. */
  ghost function Swept(d: Disk, ds: set<Path>): Disk {
    var gone := set x | x in ds && x in d.dirs :: x;
    Disk(map p | p in d.files && !(p != [] && Parent(p) in gone) :: d.files[p],
         d.dirs - set x | x in gone && !(exists q | q in d.dirs :: ChildOf(q, x)))
  }

  /**
    A sweep deletes only files directly inside the swept directories (all of
    those) and only swept directories, and leaves every other entry as it was.
   */
  lemma SweptLeavesOthers(d: Disk, ds: set<Path>)
    ensures var r := Swept(d, ds);
      r.files.Keys <= d.files.Keys && r.dirs <= d.dirs
      && (forall p | p in r.files :: r.files[p] == d.files[p])
      && (forall p | p in d.files && !(p != [] && Parent(p) in ds) :: p in r.files)
      && (forall p | p in d.files && p != [] && Parent(p) in ds && Parent(p) in d.dirs :: p !in r.files)
      && (forall x | x in d.dirs && x !in ds :: x in r.dirs)
  {
  }

  /** Directories of one depth: none is inside another. */
  predicate SameDepth(ds: set<Path>, n: nat) {
    forall x | x in ds :: |x| == n
  }

  /** Removing one more job directory extends a sweep of its siblings. */
  lemma SweptStep(d: Disk, ds: set<Path>, dir: Path)
    requires SameDepth(ds, |dir|) && dir !in ds
    ensures JobDirRemoved(Swept(d, ds), dir) == Swept(d, ds + {dir})
  {
    SweptKeepsSibling(d, ds, dir);
    SweptStepFiles(d, ds, dir);
    SweptStepDirs(d, ds, dir);
  }

  /** A sweep of its siblings leaves a directory, and the directories inside it, alone. */
  lemma SweptKeepsSibling(d: Disk, ds: set<Path>, dir: Path)
    requires SameDepth(ds, |dir|) && dir !in ds
    ensures dir in Swept(d, ds).dirs <==> dir in d.dirs
    ensures (exists q | q in Swept(d, ds).dirs :: ChildOf(q, dir)) <==> (exists q | q in d.dirs :: ChildOf(q, dir))
  {
    var s := Swept(d, ds);
    forall q | q in d.dirs && ChildOf(q, dir) ensures q in s.dirs {
      assert |q| == |dir| + 1;
    }
  }

  lemma SweptStepFiles(d: Disk, ds: set<Path>, dir: Path)
    requires SameDepth(ds, |dir|) && dir !in ds
    requires dir in Swept(d, ds).dirs <==> dir in d.dirs
    ensures JobDirRemoved(Swept(d, ds), dir).files == Swept(d, ds + {dir}).files
  {
  }

  lemma SweptStepDirs(d: Disk, ds: set<Path>, dir: Path)
    requires SameDepth(ds, |dir|) && dir !in ds
    requires dir in Swept(d, ds).dirs <==> dir in d.dirs
    requires (exists q | q in Swept(d, ds).dirs :: ChildOf(q, dir)) <==> (exists q | q in d.dirs :: ChildOf(q, dir))
    ensures JobDirRemoved(Swept(d, ds), dir).dirs == Swept(d, ds + {dir}).dirs
  {
  }

  /** The abstract disk, updated in place by the file-system calls the manager makes. */
  class FileSystem {
    var files: map<Path, Bytes>
    var dirs: set<Path>

    function View(): Disk
      reads this
    {
      Disk(files, dirs)
    }

    method MakeDirs(p: Path) returns (ok: bool)
      modifies this
      ensures (ok, View()) == MadeDirs(old(View()), p)
    {
      ok := forall k | 1 <= k <= |p| :: p[..k] !in files;
      if ok {
        dirs := dirs + Prefixes(p);
      }
    }

    method WriteBytes(p: Path, data: Bytes) returns (ok: bool)
      modifies this
      ensures (ok, View()) == Written(old(View()), p, data)
    {
      ok := p != [] && (Parent(p) == [] || Parent(p) in dirs) && p !in dirs;
      if ok {
        files := files[p := data];
      }
    }

    method Unlink(p: Path) returns (ok: bool)
      modifies this
      ensures (ok, View()) == Unlinked(old(View()), p)
    {
      ok := p in files;
      files := files - {p};
    }

    method Rmdir(p: Path) returns (ok: bool)
      modifies this
      ensures (ok, View()) == Rmdired(old(View()), p)
    {
      ok := p in dirs && !HasChildren(View(), p);
      if ok {
        dirs := dirs - {p};
      }
    }

    /** `iterdir` of a directory: the entries directly inside it. */
    function Children(dir: Path): (r: set<Path>)
      reads this
      ensures forall q :: q in r <==> (q in files || q in dirs) && ChildOf(q, dir)
    {
      set q | q in files.Keys + dirs && ChildOf(q, dir)
    }
  }

  /** `pathlib`'s `suffix` of a file name: from the last `.`, when that is neither its first nor its last character. */
  function Suffix(name: string): (r: string)
    ensures r == [] || (|r| >= 2 && r[0] == '.' && '.' !in r[1..] && EndsWith(name, r) && |r| < |name|)
    ensures name != [] ==> (r == [] <==> '.' !in name[1..] || name[|name| - 1] == '.')
  {
    match LastIndexOfChar(name, '.')
    case Some(i) =>
      if 0 < i < |name| - 1 then
        assert name[1..][i - 1] == '.';
        name[i..]
      else
        assert i == 0 ==> name[1..] == name[i + 1..];
        ""
    case None => ""
  }

  /**
    `pathlib`'s `stem`: the name without its suffix. `Path(".")` drops its
    only component and so has the empty name, whose stem is empty.
   */
  function Stem(name: string): (r: string)
    ensures r + Suffix(name) == if name == "." then "" else name
    ensures r == [] <==> name == [] || name == "."
  {
    if name == "." then ""
    else match LastIndexOfChar(name, '.')
    case Some(i) => if 0 < i < |name| - 1 then name[..i] else name
    case None => name
  }

  /** `with_suffix`: the stem followed by the new suffix. */
  function WithSuffix(name: string, suffix: string): (r: string)
    ensures StartsWith(r, Stem(name)) && EndsWith(r, suffix) && |r| == |Stem(name)| + |suffix|
  {
    Stem(name) + suffix
  }

  /**
    Giving a name a new extension keeps its stem and makes that extension its
    suffix. `with_suffix` raises for an empty name, which "." also has.
   */
  lemma ReplacedSuffix(name: string, ext: string)
    requires name != [] && name != "." && |ext| >= 2 && ext[0] == '.' && '.' !in ext[1..]
    ensures Stem(WithSuffix(name, ext)) == Stem(name) && Suffix(WithSuffix(name, ext)) == ext
  {
    var stem := Stem(name);
    var s := stem + ext;
    assert s[|stem| + 1..] == ext[1..];
    LastIndexOfCharIs(s, '.', |stem|);
    assert s[..|stem|] == stem && s[|stem|..] == ext;
  }

  /** A last dot strictly inside the name starts the suffix and ends the stem. */
  lemma SuffixAt(name: string, i: nat)
    requires 0 < i < |name| - 1 && name[i] == '.' && '.' !in name[i + 1..]
    ensures Suffix(name) == name[i..] && Stem(name) == name[..i]
  {
    LastIndexOfCharIs(name, '.', i);
  }

  /** `"video.mp4"` has the stem `"video"`. */
  lemma StemExample()
    ensures Stem("video.mp4") == "video" && Stem("audio.wav") == "audio"
  {
    assert "video.mp4"[6..] == "mp4" && "audio.wav"[6..] == "wav";
    LastIndexOfCharIs("video.mp4", '.', 5);
    LastIndexOfCharIs("audio.wav", '.', 5);
  }

  /** `FileManager`: paths under a base directory, and the file operations on them. */
  class FileManager {
    const baseDir: Path
    const fs: FileSystem

    constructor (baseDir: Path, fs: FileSystem)
      ensures this.baseDir == baseDir && this.fs == fs
    {
      this.baseDir := baseDir;
      this.fs := fs;
    }

    /** The directory of one job: `base/job`. */
    function JobDir(jobId: string): (r: Path)
      ensures |r| == |baseDir| + 1 && Parent(r) == baseDir && r[|r| - 1] == jobId
    {
      baseDir + [jobId]
    }

    /** `get_file_path`: `base/job/filename`. */
    function GetFilePath(jobId: string, filename: string): (r: Path)
      ensures ChildOf(r, JobDir(jobId)) && r[|r| - 1] == filename
    {
      JobDir(jobId) + [filename]
    }

    /**
      `get_output_path`: `base/job/` followed by the stem of the original name
      and `ext`. With `ext` equal to ".gif" this is the two-argument form,
      which always appends ".gif".
     */
    function GetOutputPath(jobId: string, originalName: string, ext: string): (r: Path)
      ensures ChildOf(r, JobDir(jobId)) && r[|r| - 1] == WithSuffix(originalName, ext)
    {
      JobDir(jobId) + [Stem(originalName) + ext]
    }

    /** `file_exists`: the path exists and is a regular file. */
    function FileExists(jobId: string, filename: string): (r: bool)
      reads fs
      ensures r <==> GetFilePath(jobId, filename) in fs.files
    {
      GetFilePath(jobId, filename) in fs.files
    }

    method EnsureBaseDir() returns (ok: bool)
      modifies fs
      ensures (ok, fs.View()) == MadeDirs(old(fs.View()), baseDir)
    {
      ok := fs.MakeDirs(baseDir);
    }

    /** `create_job_dir`; `ok` is false where the original raises `OSError`. */
    method CreateJobDir(jobId: string) returns (ok: bool, dir: Path)
      modifies fs
      ensures dir == JobDir(jobId)
      ensures (ok, fs.View()) == MadeDirs(old(fs.View()), dir)
    {
      dir := JobDir(jobId);
      ok := fs.MakeDirs(dir);
    }

    /** `write_input_file`; `ok` is false where the original raises `OSError`. */
    method WriteInputFile(jobId: string, filename: string, data: Bytes) returns (ok: bool, path: Path)
      modifies fs
      ensures path == GetFilePath(jobId, filename)
      ensures (ok, fs.View()) == Written(old(fs.View()), path, data)
    {
      path := GetFilePath(jobId, filename);
      ok := fs.WriteBytes(path, data);
    }

    /** `cleanup_input_file`: the file is gone afterwards; a missing path or a failed delete is not an error. */
    method CleanupInputFile(path: Path)
      modifies fs
      ensures fs.View() == Unlinked(old(fs.View()), path).1
    {
      if path in fs.files || path in fs.dirs {
        var _ := fs.Unlink(path);
      }
    }

    /** `_remove_job_dir`. */
    method RemoveJobDir(jobId: string)
      modifies fs
      ensures fs.View() == JobDirRemoved(old(fs.View()), JobDir(jobId))
    {
      var dir := JobDir(jobId);
      if dir !in fs.dirs {
        return;
      }
      var children := fs.Children(dir);
      var pending := children;
      while pending != {}
        invariant pending <= children
        invariant fs.dirs == old(fs.dirs)
        invariant fs.files == map p | p in old(fs.files) && !(ChildOf(p, dir) && p !in pending) :: old(fs.files)[p]
        decreases |pending|
      {
        var child :| child in pending;
        var _ := fs.Unlink(child);
        pending := pending - {child};
      }
      assert !(exists q | q in fs.files :: ChildOf(q, dir));
      var _ := fs.Rmdir(dir);
    }

    /** The directories of the jobs `ids`: exactly the entries of the base directory named after one of them. */
    ghost function JobDirs(ids: set<string>): (r: set<Path>)
      ensures r == DirsOf(baseDir, ids)
      ensures forall p :: p in r <==> ChildOf(p, baseDir) && p[|p| - 1] in ids
    {
      assert forall p | ChildOf(p, baseDir) :: p == JobDir(p[|p| - 1]);
      set id | id in ids :: JobDir(id)
    }

    /** One round of the sweep: the job leaves the store, then its directory is removed. */
    method RemoveJobAndDir(store: Jobs.InMemoryJobStore, id: string)
      requires store.Valid()
      modifies store, fs
      ensures store.Valid() && store.View() == Jobs.Removed(old(store.View()), id)
      ensures fs.View() == JobDirRemoved(old(fs.View()), JobDir(id))
    {
      store.RemoveJob(id);
      RemoveJobDir(id);
    }

    /**
      `cleanup_expired_jobs`: exactly the jobs `list_expired_jobs` reports
      leave the store, and exactly their directories are swept.
     */
    method CleanupExpiredJobs(store: Jobs.InMemoryJobStore, now: real, ttl: real)
      requires store.Valid()
      modifies store, fs
      ensures store.Valid()
      ensures store.jobs == old(store.jobs) - Jobs.ExpiredIds(old(store.View()), now, ttl)
      ensures store.locks == old(store.locks)
      ensures fs.View() == Swept(old(fs.View()), JobDirs(Jobs.ExpiredIds(old(store.View()), now, ttl)))
    {
      var expired := store.ListExpiredJobs(now, ttl);
      ghost var all := Jobs.ExpiredIds(store.View(), now, ttl);
      var i := 0;
      while i < |expired|
        invariant i <= |expired|
        invariant store.Valid()
        invariant store.jobs == old(store.jobs) - ElementsOf(expired[..i])
        invariant store.locks == old(store.locks)
        invariant fs.View() == SweptAll(old(fs.View()), baseDir, expired[..i])
      {
        var id := expired[i];
        RemoveJobAndDir(store, id);
        assert expired[..i + 1] == expired[..i] + [id];
        assert ElementsOf(expired[..i + 1]) == ElementsOf(expired[..i]) + {id};
        i := i + 1;
      }
      assert expired[..i] == expired;
      assert ElementsOf(expired) == all;
      SweptAllIsSwept(old(fs.View()), baseDir, expired);
    }
  }

  /** The elements of a sequence, as a set. */
  ghost function ElementsOf(s: seq<string>): set<string> {
    set x | x in s
  }

  /** The directories `base/id` of the jobs `ids`. */
  ghost function DirsOf(base: Path, ids: set<string>): (r: set<Path>)
    ensures SameDepth(r, |base| + 1)
  {
    set id | id in ids :: base + [id]
  }

  /** The disk after `_remove_job_dir` for the jobs `ids`, one after another. */
  function SweptAll(d: Disk, base: Path, ids: seq<string>): Disk
    decreases |ids|
  {
    if ids == [] then d
    else JobDirRemoved(SweptAll(d, base, ids[..|ids| - 1]), base + [ids[|ids| - 1]])
  }

  /** Sweeping distinct jobs one after another removes exactly what `Swept` says, whatever the order. */
  lemma {:induction false} SweptAllIsSwept(d: Disk, base: Path, ids: seq<string>)
    requires forall i, j | 0 <= i < j < |ids| :: ids[i] != ids[j]
    ensures SweptAll(d, base, ids) == Swept(d, DirsOf(base, ElementsOf(ids)))
    decreases |ids|
  {
    if ids == [] {
      assert Swept(d, {}).files == d.files;
    } else {
      var init, id := ids[..|ids| - 1], ids[|ids| - 1];
      SweptAllIsSwept(d, base, init);
      assert ElementsOf(ids) == ElementsOf(init) + {id} by {
        assert ids == init + [id];
      }
      assert id !in ElementsOf(init) by {
        forall k | 0 <= k < |init| ensures init[k] != id {
          assert init[k] == ids[k];
        }
      }
      assert base + [id] !in DirsOf(base, ElementsOf(init)) by {
        forall x | x in ElementsOf(init) ensures base + [x] != base + [id] {
          assert (base + [x])[|base|] == x;
        }
      }
      assert DirsOf(base, ElementsOf(ids)) == DirsOf(base, ElementsOf(init)) + {base + [id]};
      SweptStep(d, DirsOf(base, ElementsOf(init)), base + [id]);
    }
  }
}

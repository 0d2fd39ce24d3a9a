/**
 Crash-safe file replacement (sys/fs/safe_replace.go, sys/fs/safe_rename_linux.go) on a disk that keeps
 what running processes see apart from what a power loss may leave.

 A directory is a log of listings: the last is what processes see, and after a crash any listing still in
 the log may be the one found. File content that was not fsynced since its last write may come back as
 anything. Every system call may fail; each records the disk it leaves in a ghost trace, so that a crash
 between any two calls is a crash in some state of the trace.
 */
module SafeReplace {
  import opened Text

  newtype Byte = x: int | 0 <= x < 256
  type Bytes = seq<Byte>
  type Listing = map<string, nat>

  datatype Path = Path(dir: string, name: string)

  datatype Disk = Disk(
    dirs: map<string, seq<Listing>>,
    data: map<nat, Bytes>,
    dirty: set<nat>,
    next: nat)

  ghost predicate ValidListing(d: Disk, l: Listing) {
    forall n :: n in l ==> l[n] < d.next && l[n] in d.data
  }

  ghost predicate Valid(d: Disk) {
    forall dir :: dir in d.dirs ==> |d.dirs[dir]| > 0 && forall l :: l in d.dirs[dir] ==> ValidListing(d, l)
  }

  function Current(d: Disk, dir: string): Listing
    requires dir in d.dirs && |d.dirs[dir]| > 0
  {
    d.dirs[dir][|d.dirs[dir]| - 1]
  }

  // ----- what the system calls do -----

  function Log(d: Disk, dir: string, l: Listing): Disk
    requires dir in d.dirs
  {
    d.(dirs := d.dirs[dir := d.dirs[dir] + [l]])
  }

  function Created(d: Disk, p: Path): Disk
    requires p.dir in d.dirs && |d.dirs[p.dir]| > 0
  {
    Log(d, p.dir, Current(d, p.dir)[p.name := d.next]).(
      data := d.data[d.next := []], dirty := d.dirty + {d.next}, next := d.next + 1)
  }

  function Written(d: Disk, inode: nat, content: Bytes): Disk {
    d.(data := d.data[inode := content], dirty := d.dirty + {inode})
  }

  function Synced(d: Disk, inode: nat): Disk {
    d.(dirty := d.dirty - {inode})
  }

  /** rename(2) within one directory: the target's entry changes and the source's goes, in one listing. */
  function Renamed(d: Disk, dir: string, from: string, to: string): Disk
    requires dir in d.dirs && |d.dirs[dir]| > 0 && from in Current(d, dir)
  {
    var l := Current(d, dir);
    Log(d, dir, (l - {from})[to := l[from]])
  }

  function Unlinked(d: Disk, p: Path): Disk
    requires p.dir in d.dirs && |d.dirs[p.dir]| > 0
  {
    Log(d, p.dir, Current(d, p.dir) - {p.name})
  }

  /** fsync of a directory: only the current listing can be found from now on. */
  function DirSynced(d: Disk, dir: string): Disk
    requires dir in d.dirs && |d.dirs[dir]| > 0
  {
    d.(dirs := d.dirs[dir := [Current(d, dir)]])
  }

  // ----- what can be observed -----

  /** What a running process reads at `p`. */
  function Running(d: Disk, p: Path): Option<Bytes>
    requires p.dir in d.dirs && |d.dirs[p.dir]| > 0
  {
    var l := Current(d, p.dir);
    if p.name in l && l[p.name] in d.data then Some(d.data[l[p.name]]) else None
  }

  /** Listing `l` of the log, found after a crash, may show `c` under `name`. */
  ghost predicate ShowsAs(d: Disk, l: Listing, name: string, c: Option<Bytes>) {
    if name !in l then c == None
    else c.Some? && (l[name] !in d.dirty ==> l[name] in d.data && c.value == d.data[l[name]])
  }

  /** What may be found at `p` after a crash in this state. */
  ghost predicate MayRecover(d: Disk, p: Path, c: Option<Bytes>) {
    p.dir in d.dirs && exists l :: l in d.dirs[p.dir] && ShowsAs(d, l, p.name, c)
  }

  // ----- the states replacement goes through -----

  predicate AgreeAt(l0: Listing, l: Listing, name: string) {
    if name in l0 then name in l && l[name] == l0[name] else name !in l
  }

  /** Which replacement is under way: the target, the temporary name and inode, and the new content. */
  datatype Job = Job(path: Path, tmp: string, inode: nat, content: Bytes)

  /** A listing replacement may leave: only the target and the temporary name differ from `l0`, and the
      target is as it was or is the new file. */
  ghost predicate GoodListing(l0: Listing, l: Listing, job: Job) {
    && (forall n :: n != job.tmp && n != job.path.name ==> AgreeAt(l0, l, n))
    && (AgreeAt(l0, l, job.path.name) || (job.path.name in l && l[job.path.name] == job.inode))
  }

  /** Where the target names the new file, that file is complete and on disk. */
  ghost predicate CompleteIfLinked(d: Disk, l: Listing, job: Job) {
    job.path.name in l && l[job.path.name] == job.inode ==>
      job.inode !in d.dirty && job.inode in d.data && d.data[job.inode] == job.content
  }

  ghost predicate KeepsOld(d0: Disk, d: Disk) {
    && d0.next <= d.next
    && (forall i :: i in d0.data && i < d0.next ==> i in d.data && d.data[i] == d0.data[i])
    && (forall i :: i < d0.next ==> (i in d.dirty <==> i in d0.dirty))
  }

  /** The invariant of replacement, between the disk it started on and any later one. */
  ghost predicate Stage(d0: Disk, d: Disk, job: Job) {
    && Valid(d0) && Valid(d) && KeepsOld(d0, d)
    && job.inode == d0.next && job.path.dir in d0.dirs && d.dirs.Keys == d0.dirs.Keys
    && (forall dir :: dir in d0.dirs && dir != job.path.dir ==> d.dirs[dir] == d0.dirs[dir])
    && (forall l :: l in d.dirs[job.path.dir] ==> l in d0.dirs[job.path.dir] || GoodListing(Current(d0, job.path.dir), l, job))
    && (forall l :: l in d.dirs[job.path.dir] ==> CompleteIfLinked(d, l, job))
    && GoodListing(Current(d0, job.path.dir), Current(d, job.path.dir), job)
  }

  /** What the invariant means: other paths are untouched, for processes and for a crash alike; the target
      reads as its old or the new content; and a crash leaves what a crash could have left before, or the
      complete new content. */
  lemma StageMeaning(d0: Disk, d: Disk, job: Job, p: Path)
    requires Stage(d0, d, job) && p.dir in d0.dirs && p != Path(job.path.dir, job.tmp)
    ensures Running(d, p) == Running(d0, p) || (p == job.path && Running(d, p) == Some(job.content))
    ensures forall c :: MayRecover(d, p, c) ==> MayRecover(d0, p, c) || (p == job.path && c == Some(job.content))
  {
    assert Current(d0, p.dir) in d0.dirs[p.dir] && Current(d, p.dir) in d.dirs[p.dir];
    assert ValidListing(d0, Current(d0, p.dir));
    if AgreeAt(Current(d0, p.dir), Current(d, p.dir), p.name) {
      assert Running(d, p) == Running(d0, p);
    } else {
      assert p == job.path && CompleteIfLinked(d, Current(d, p.dir), job);
    }
    forall c | MayRecover(d, p, c)
      ensures MayRecover(d0, p, c) || (p == job.path && c == Some(job.content))
    {
      var l :| l in d.dirs[p.dir] && ShowsAs(d, l, p.name, c);
      if l in d0.dirs[p.dir] {
        assert ValidListing(d0, l);
        assert ShowsAs(d0, l, p.name, c);
      } else if AgreeAt(Current(d0, p.dir), l, p.name) {
        assert ShowsAs(d0, Current(d0, p.dir), p.name, c);
      }
    }
  }

  // ----- every system call keeps the invariant -----

  ghost predicate NotLinked(d: Disk, job: Job) {
    job.path.dir in d.dirs && forall l :: l in d.dirs[job.path.dir] && job.path.name in l ==> l[job.path.name] != job.inode
  }

  /** The temporary file exists and nothing else names it. */
  ghost predicate Staging(d0: Disk, d: Disk, job: Job) {
    && Stage(d0, d, job) && NotLinked(d, job) && job.tmp != job.path.name
    && d.next > job.inode && job.inode in d.data
    && job.tmp in Current(d, job.path.dir) && Current(d, job.path.dir)[job.tmp] == job.inode
  }

  lemma StageStart(d: Disk, job: Job)
    requires Valid(d) && job.path.dir in d.dirs && job.inode == d.next
    ensures Stage(d, d, job) && NotLinked(d, job)
  {
    forall l | l in d.dirs[job.path.dir]
      ensures ValidListing(d, l)
    {
    }
  }

  lemma StageCreate(d: Disk, job: Job)
    requires Valid(d) && job.path.dir in d.dirs && job.inode == d.next
    requires job.tmp != job.path.name && job.tmp !in Current(d, job.path.dir)
    ensures Staging(d, Created(d, Path(job.path.dir, job.tmp)), job)
  {
    var dir := job.path.dir;
    var d' := Created(d, Path(dir, job.tmp));
    StageStart(d, job);
    assert Current(d, dir) in d.dirs[dir];
    assert ValidListing(d, Current(d, dir));
    forall e, l | e in d'.dirs && l in d'.dirs[e]
      ensures ValidListing(d', l)
    {
      assert l == Current(d', dir) || ValidListing(d, l);
    }
  }

  lemma StageWrite(d0: Disk, d: Disk, job: Job, content: Bytes)
    requires Staging(d0, d, job)
    ensures Staging(d0, Written(d, job.inode, content), job)
  {
    var d' := Written(d, job.inode, content);
    forall e, l | e in d'.dirs && l in d'.dirs[e]
      ensures ValidListing(d', l)
    {
      assert ValidListing(d, l);
    }
  }

  lemma StageSync(d0: Disk, d: Disk, job: Job)
    requires Staging(d0, d, job)
    ensures Staging(d0, Synced(d, job.inode), job)
  {
    var d' := Synced(d, job.inode);
    forall e, l | e in d'.dirs && l in d'.dirs[e]
      ensures ValidListing(d', l)
    {
      assert ValidListing(d, l);
    }
  }

  /** Logging one more good listing keeps the invariant. */
  lemma StageLog(d0: Disk, d: Disk, job: Job, l: Listing)
    requires Stage(d0, d, job)
    requires GoodListing(Current(d0, job.path.dir), l, job) && ValidListing(d, l) && CompleteIfLinked(d, l, job)
    ensures Stage(d0, Log(d, job.path.dir, l), job)
  {
    var d' := Log(d, job.path.dir, l);
    forall e, m | e in d'.dirs && m in d'.dirs[e]
      ensures ValidListing(d', m) && (e == job.path.dir ==> CompleteIfLinked(d', m, job))
    {
      assert m == l || m in d.dirs[e];
      if m != l {
        assert ValidListing(d, m);
      }
    }
    forall m | m in d'.dirs[job.path.dir]
      ensures m in d0.dirs[job.path.dir] || GoodListing(Current(d0, job.path.dir), m, job)
    {
      assert m == l || m in d.dirs[job.path.dir];
    }
  }

  lemma StageRename(d0: Disk, d: Disk, job: Job)
    requires Staging(d0, d, job) && job.inode !in d.dirty && d.data[job.inode] == job.content
    ensures Stage(d0, Renamed(d, job.path.dir, job.tmp, job.path.name), job)
  {
    var l := Current(d, job.path.dir);
    assert l in d.dirs[job.path.dir];
    assert ValidListing(d, l);
    var l' := (l - {job.tmp})[job.path.name := l[job.tmp]];
    assert forall n :: n != job.tmp && n != job.path.name ==> AgreeAt(l, l', n);
    GoodListingKept(Current(d0, job.path.dir), l, l', job);
    StageLog(d0, d, job, l');
  }

  lemma StageUnlink(d0: Disk, d: Disk, job: Job)
    requires Stage(d0, d, job) && job.tmp != job.path.name
    ensures Stage(d0, Unlinked(d, Path(job.path.dir, job.tmp)), job)
    ensures NotLinked(d, job) ==> NotLinked(Unlinked(d, Path(job.path.dir, job.tmp)), job)
  {
    var l := Current(d, job.path.dir);
    assert l in d.dirs[job.path.dir];
    assert ValidListing(d, l);
    assert forall n :: n != job.tmp ==> AgreeAt(l, l - {job.tmp}, n);
    GoodListingKept(Current(d0, job.path.dir), l, l - {job.tmp}, job);
    StageLog(d0, d, job, l - {job.tmp});
  }

  lemma GoodListingKept(l0: Listing, l: Listing, l': Listing, job: Job)
    requires GoodListing(l0, l, job)
    requires forall n :: n != job.tmp && n != job.path.name ==> AgreeAt(l, l', n)
    requires AgreeAt(l, l', job.path.name) || (job.path.name in l' && l'[job.path.name] == job.inode)
    ensures GoodListing(l0, l', job)
  {
    forall n | n != job.tmp && n != job.path.name
      ensures AgreeAt(l0, l', n)
    {
      assert AgreeAt(l0, l, n) && AgreeAt(l, l', n);
    }
  }

  lemma StageDirSync(d0: Disk, d: Disk, job: Job)
    requires Stage(d0, d, job)
    ensures Stage(d0, DirSynced(d, job.path.dir), job)
  {
    var d' := DirSynced(d, job.path.dir);
    assert Current(d, job.path.dir) in d.dirs[job.path.dir];
    forall e, m | e in d'.dirs && m in d'.dirs[e]
      ensures ValidListing(d', m)
    {
      assert ValidListing(d, m);
    }
  }

  /** The replacement has taken effect. */
  ghost predicate Linked(d: Disk, job: Job) {
    && job.path.dir in d.dirs && |d.dirs[job.path.dir]| > 0
    && job.path.name in Current(d, job.path.dir) && Current(d, job.path.dir)[job.path.name] == job.inode
    && job.inode !in d.dirty && job.inode < d.next && job.inode in d.data && d.data[job.inode] == job.content
  }

  // ----- the code -----

  /** All states recorded since `t0` are states the replacement may be in. */
  ghost predicate Traced(t0: seq<Disk>, t: seq<Disk>, d0: Disk, job: Job) {
    && |t0| <= |t| && t[..|t0|] == t0
    && forall k :: |t0| <= k < |t| ==> Stage(d0, t[k], job)
  }

  /** Every listing a crash could bring back still may. */
  ghost predicate KeepsLog(d0: Disk, d: Disk, dir: string) {
    dir in d0.dirs && dir in d.dirs && forall l :: l in d0.dirs[dir] ==> l in d.dirs[dir]
  }

  /** The calls of one replacement. Which of them fail for a reason of the host's own is up to the host; NoReplace
      fails where the kernel does not know RENAME_NOREPLACE. */
  datatype Call =
    | CreateTempFile | Reopen | WriteTemp | Chmod | FsyncTemp | CloseTemp
    | NoReplace | StatTarget | RenameTemp | UnlinkTemp | SyncDirectory

  /** Nothing on the way to the rename fails: a directory that cannot be synced and a temporary file that cannot
      be deleted are not on it. */
  predicate GoesThrough(fails: set<Call>, removeExisting: bool) {
    && fails !! {CreateTempFile, Reopen, WriteTemp, Chmod, FsyncTemp, CloseTemp, RenameTemp}
    && (removeExisting || NoReplace !in fails || StatTarget !in fails)
  }

  function TempName(name: string, suffix: string): (tmp: string)
    ensures |tmp| > |name|
  {
    "." + name + ".tmp-" + suffix
  }

  /** The backup can be written: nothing on the way fails, its temporary name is free, and there is no backup yet
      or it may be replaced. */
  predicate CanBackUp(d: Disk, backup: Path, removeExisting: bool, suffix: string, fails: set<Call>)
    requires Valid(d) && backup.dir in d.dirs
  {
    && GoesThrough(fails, removeExisting) && TempName(backup.name, suffix) !in Current(d, backup.dir)
    && (removeExisting || Running(d, backup) == None)
  }

  class Kernel {
    var disk: Disk
    ghost var trace: seq<Disk>

    ghost predicate Ready(path: Path)
      reads this
    {
      Valid(disk) && path.dir in disk.dirs
    }

    /** os.CreateTemp: O_EXCL, so never an existing name. */
    method CreateTemp(p: Path, fails: set<Call>) returns (ok: bool)
      requires Ready(p)
      modifies this
      ensures ok <==> CreateTempFile !in fails && p.name !in Current(old(disk), p.dir)
      ensures disk == if ok then Created(old(disk), p) else old(disk)
      ensures trace == old(trace) + [disk]
    {
      ok := CreateTempFile !in fails && p.name !in Current(disk, p.dir);
      if ok {
        disk := Created(disk, p);
      }
      trace := trace + [disk];
    }

    /** A failed write may have written anything. */
    method Write(inode: nat, content: Bytes, fails: set<Call>) returns (ok: bool, ghost written: Bytes)
      modifies this
      ensures ok <==> WriteTemp !in fails
      ensures disk == Written(old(disk), inode, written) && (ok ==> written == content)
      ensures trace == old(trace) + [disk]
    {
      ok := WriteTemp !in fails;
      var partial: Bytes := *;
      if ok {
        partial := content;
      }
      written := partial;
      disk := Written(disk, inode, partial);
      trace := trace + [disk];
    }

    method Fsync(inode: nat, fails: set<Call>) returns (ok: bool)
      modifies this
      ensures ok <==> FsyncTemp !in fails
      ensures disk == (if ok then Synced(old(disk), inode) else old(disk)) && trace == old(trace) + [disk]
    {
      ok := FsyncTemp !in fails;
      if ok {
        disk := Synced(disk, inode);
      }
      trace := trace + [disk];
    }

    method Rename(dir: string, from: string, to: string, fails: set<Call>) returns (ok: bool)
      requires Ready(Path(dir, to)) && from in Current(disk, dir)
      modifies this
      ensures ok <==> RenameTemp !in fails
      ensures disk == (if ok then Renamed(old(disk), dir, from, to) else old(disk)) && trace == old(trace) + [disk]
    {
      ok := RenameTemp !in fails;
      if ok {
        disk := Renamed(disk, dir, from, to);
      }
      trace := trace + [disk];
    }

    method Unlink(p: Path, fails: set<Call>)
      requires Ready(p)
      modifies this
      ensures disk == if UnlinkTemp !in fails then Unlinked(old(disk), p) else old(disk)
      ensures trace == old(trace) + [disk]
    {
      if UnlinkTemp !in fails {
        disk := Unlinked(disk, p);
      }
      trace := trace + [disk];
    }

    method SyncDir(p: Path, fails: set<Call>)
      requires Ready(p)
      modifies this
      ensures disk == (if SyncDirectory !in fails then DirSynced(old(disk), p.dir) else old(disk))
      ensures trace == old(trace) + [disk]
    {
      if SyncDirectory !in fails {
        disk := DirSynced(disk, p.dir);
      }
      trace := trace + [disk];
    }

    /** safeRename. Without removeExisting it never replaces a file: renameat2 refuses, and so does the
        check that stands in for it on kernels without RENAME_NOREPLACE. */
    method SafeRename(dir: string, from: string, to: string, removeExisting: bool, fails: set<Call>) returns (ok: bool)
      requires Ready(Path(dir, to)) && from in Current(disk, dir)
      modifies this
      ensures disk == if ok then Renamed(old(disk), dir, from, to) else old(disk)
      ensures ok <==> && RenameTemp !in fails
                      && (removeExisting || (to !in Current(old(disk), dir) && (NoReplace !in fails || StatTarget !in fails)))
      ensures trace == old(trace) + [disk] || (disk == old(disk) && trace == old(trace))
    {
      if removeExisting {
        ok := Rename(dir, from, to, fails);
        return;
      }
      if NoReplace !in fails {
        if to in Current(disk, dir) {
          return false;
        }
        ok := Rename(dir, from, to, fails);
        return;
      }
      if to in Current(disk, dir) || StatTarget in fails {
        return false;
      }
      ok := Rename(dir, from, to, fails);
    }

    /** The middle of safeReplaceFile: reopen, write, chmod, fsync and close the temporary file. */
    method FillTemp(job: Job, fails: set<Call>, ghost d0: Disk, ghost t0: seq<Disk>) returns (ok: bool)
      requires Staging(d0, disk, job) && Traced(t0, trace, d0, job)
      modifies this
      ensures ok <==> fails !! {Reopen, WriteTemp, Chmod, FsyncTemp, CloseTemp}
      ensures Staging(d0, disk, job) && Traced(t0, trace, d0, job) && disk.dirs == old(disk).dirs
      ensures ok ==> job.inode !in disk.dirty && disk.data[job.inode] == job.content
    {
      hide Staging, Stage;
      if Reopen in fails {
        return false;
      }
      assert Stage(d0, disk, job) by { StagingIsStage(d0, disk, job); }
      ghost var written;
      ghost var d1 := disk;
      ok, written := Write(job.inode, job.content, fails);
      StageWrite(d0, d1, job, written);
      StagingIsStage(d0, disk, job);
      if !ok {
        return;
      }
      if Chmod in fails {
        return false;
      }
      ghost var d2 := disk;
      ok := Fsync(job.inode, fails);
      StageSync(d0, d2, job);
      StagingIsStage(d0, disk, job);
      if !ok {
        return;
      }
      ok := CloseTemp !in fails;
    }

    /** safeReplaceFile. `suffix` is the random part of the temporary name. */
    method SafeReplaceFile(path: Path, content: Bytes, removeExisting: bool, suffix: string, fails: set<Call>)
      returns (ok: bool, ghost job: Job)
      requires Ready(path)
      modifies this
      ensures job == Job(path, TempName(path.name, suffix), old(disk).next, content)
      ensures Stage(old(disk), disk, job) && Traced(old(trace), trace, old(disk), job)
      ensures ok ==> Linked(disk, job) && Running(disk, path) == Some(content)
      ensures ok && SyncDirectory !in fails ==> forall c :: MayRecover(disk, path, c) ==> c == Some(content)
      ensures ok && SyncDirectory in fails ==> KeepsLog(old(disk), disk, path.dir)
      ensures forall k :: |old(trace)| <= k < |trace| ==> CrashSafe(old(disk), trace[k], job)
      ensures !ok ==> NotLinked(disk, job) && Running(disk, path) == Running(old(disk), path)
      ensures ok <==> && GoesThrough(fails, removeExisting) && job.tmp !in Current(old(disk), path.dir)
                      && (removeExisting || Running(old(disk), path) == None)
      ensures ok ==> job.tmp !in Current(disk, path.dir)
      ensures job.tmp in Current(disk, path.dir) ==> UnlinkTemp in fails || job.tmp in Current(old(disk), path.dir)
      ensures job.tmp in Current(old(disk), path.dir) ==> !ok && disk == old(disk)
      ensures job.tmp in Current(old(disk), path.dir) ==> forall k :: |old(trace)| <= k < |trace| ==> trace[k] == old(disk)
    {
      hide Staging, Stage, Traced, CrashSafe;
      ghost var d0, t0 := disk, trace;
      var tmp := TempName(path.name, suffix);
      var replacement := Job(path, tmp, disk.next, content);
      job := replacement;
      StageStart(d0, job);
      TracedStart(t0, d0, job);
      ok := CreateTemp(Path(path.dir, tmp), fails);
      if !ok {
        TracedMore(t0, t0, d0, disk, job);
        TracedCrashSafe(t0, trace, d0, job);
        return;
      }
      StageCreate(d0, job);
      StagingIsStage(d0, disk, job);
      TracedMore(t0, t0, d0, disk, job);
      ok := FillTemp(replacement, fails, d0, t0);
      StagingIsStage(d0, disk, job);
      if ok {
        ok := InstallTemp(replacement, removeExisting, fails, d0, t0);
      }
      if ok {
        SyncTarget(replacement, fails, d0, t0);
      } else {
        CleanUp(replacement, fails, d0, t0);
      }
    }

    /** The temporary file goes, on every path that fails. */
    method CleanUp(job: Job, fails: set<Call>, ghost d0: Disk, ghost t0: seq<Disk>)
      requires Stage(d0, disk, job) && NotLinked(disk, job) && Traced(t0, trace, d0, job) && job.tmp != job.path.name
      modifies this
      ensures Stage(d0, disk, job) && NotLinked(disk, job) && Traced(t0, trace, d0, job)
      ensures Running(disk, job.path) == Running(d0, job.path)
      ensures forall k :: |t0| <= k < |trace| ==> CrashSafe(d0, trace[k], job)
      ensures job.tmp !in Current(disk, job.path.dir) || UnlinkTemp in fails
    {
      hide Stage, Traced, CrashSafe, NotLinked;
      ghost var d1, t1 := disk, trace;
      StageIsReady(d0, d1, job);
      Unlink(Path(job.path.dir, job.tmp), fails);
      StageUnlink(d0, d1, job);
      TracedMore(t0, t1, d0, disk, job);
      TracedCrashSafe(t0, trace, d0, job);
      ErrorChangesNothing(d0, disk, job);
      StageIsReady(d0, disk, job);
    }

    /** The sync of the directory once the new file is in place; its failure is ignored. */
    method SyncTarget(job: Job, fails: set<Call>, ghost d0: Disk, ghost t0: seq<Disk>)
      requires Stage(d0, disk, job) && Linked(disk, job) && Traced(t0, trace, d0, job)
      requires job.tmp != job.path.name && job.tmp !in Current(disk, job.path.dir)
      modifies this
      ensures Stage(d0, disk, job) && Linked(disk, job) && Traced(t0, trace, d0, job)
      ensures Running(disk, job.path) == Some(job.content) && job.tmp !in Current(disk, job.path.dir)
      ensures forall k :: |t0| <= k < |trace| ==> CrashSafe(d0, trace[k], job)
      ensures SyncDirectory !in fails ==> forall c :: MayRecover(disk, job.path, c) ==> c == Some(job.content)
      ensures SyncDirectory in fails ==> disk == old(disk)
    {
      hide Stage, Traced, CrashSafe;
      ghost var d2, t2 := disk, trace;
      StageIsReady(d0, d2, job);
      SyncDir(job.path, fails);
      StageDirSync(d0, d2, job);
      TracedMore(t0, t2, d0, disk, job);
      TracedCrashSafe(t0, trace, d0, job);
    }

    /** The rename at the end of safeReplaceFile. */
    method InstallTemp(job: Job, removeExisting: bool, fails: set<Call>, ghost d0: Disk, ghost t0: seq<Disk>) returns (ok: bool)
      requires Staging(d0, disk, job) && Traced(t0, trace, d0, job)
      requires job.inode !in disk.dirty && disk.data[job.inode] == job.content
      modifies this
      ensures Stage(d0, disk, job) && Traced(t0, trace, d0, job)
      ensures ok ==> Linked(disk, job) && job.tmp !in Current(disk, job.path.dir)
      ensures KeepsLog(old(disk), disk, job.path.dir)
      ensures !ok ==> NotLinked(disk, job)
      ensures ok <==> && RenameTemp !in fails
                      && (removeExisting || (Running(d0, job.path) == None && (NoReplace !in fails || StatTarget !in fails)))
    {
      ghost var d1, t1 := disk, trace;
      StageRename(d0, d1, job);
      TargetAsBefore(d0, d1, job);
      ok := SafeRename(job.path.dir, job.tmp, job.path.name, removeExisting, fails);
      if trace != t1 {
        TracedMore(t0, t1, d0, disk, job);
      }
    }

    /** safeBackupAndReplace: the backup is a copy, made before the replacement starts. */
    method SafeBackupAndReplace(path: Path, backup: Path, content: Bytes, removeExistingBackup: bool,
                                suffix: string, backupSuffix: string,
                                openable: bool, readable: bool, backupFails: set<Call>, fails: set<Call>)
      returns (ok: bool)
      requires Ready(path) && Ready(backup) && path != backup
      modifies this
      ensures Ready(path) && Ready(backup)
      ensures |old(trace)| <= |trace| && trace[..|old(trace)|] == old(trace)
      ensures forall k :: |old(trace)| <= k < |trace| ==> BackupSafe(old(disk), trace[k], path, backup, content)
      ensures SyncDirectory !in backupFails && Running(old(disk), path).Some? ==>
                forall k :: |old(trace)| <= k < |trace| ==> BackupFirst(old(disk), trace[k], path, backup)
      ensures !ok ==> Running(disk, path) == Running(old(disk), path)
      ensures ok ==> Running(disk, path) == Some(content)
      ensures ok && Running(old(disk), path).Some? ==> Running(disk, backup) == Running(old(disk), path)
      ensures ok && SyncDirectory !in fails ==> forall c :: MayRecover(disk, path, c) ==> c == Some(content)
      ensures ok && SyncDirectory !in backupFails && Running(old(disk), path).Some? ==>
                forall c :: MayRecover(disk, backup, c) ==> c == Running(old(disk), path)
      ensures ok <==>
              && openable && GoesThrough(fails, true) && TempName(path.name, suffix) !in Current(old(disk), path.dir)
              && (Running(old(disk), path).Some? ==>
                    && readable && CanBackUp(old(disk), backup, removeExistingBackup, backupSuffix, backupFails)
                    && Path(path.dir, TempName(path.name, suffix)) != backup)
    {
      hide Stage, Linked, NotLinked, BackupSafe, BackupFirst, MayRecover, TempName;
      ghost var d0, t0 := disk, trace;
      var current := Running(disk, path);
      if !openable {
        return false;
      }
      if current.None? {
        ghost var job;
        ok, job := SafeReplaceFile(path, content, true, suffix, fails);
        FreshFile(d0, disk, t0, trace, job, backup);
        StageIsReady(d0, disk, job);
        if !ok {
          ErrorChangesNothing(d0, disk, job);
        }
        return;
      }
      if !readable {
        return false;
      }
      ok := CopyThenReplace(path, backup, current.value, content, removeExistingBackup, suffix, backupSuffix, backupFails, fails);
    }

    /** The part of safeBackupAndReplace behind reading the current file. */
    method CopyThenReplace(path: Path, backup: Path, current: Bytes, content: Bytes, removeExistingBackup: bool,
                           suffix: string, backupSuffix: string, backupFails: set<Call>, fails: set<Call>)
      returns (ok: bool)
      requires Ready(path) && Ready(backup) && path != backup && Running(disk, path) == Some(current)
      modifies this
      ensures Ready(path) && Ready(backup)
      ensures |old(trace)| <= |trace| && trace[..|old(trace)|] == old(trace)
      ensures forall k :: |old(trace)| <= k < |trace| ==> BackupSafe(old(disk), trace[k], path, backup, content)
      ensures SyncDirectory !in backupFails ==>
                forall k :: |old(trace)| <= k < |trace| ==> BackupFirst(old(disk), trace[k], path, backup)
      ensures Running(disk, path) == if ok then Some(content) else Some(current)
      ensures ok ==> Running(disk, backup) == Some(current)
      ensures ok && SyncDirectory !in fails ==> forall c :: MayRecover(disk, path, c) ==> c == Some(content)
      ensures ok && SyncDirectory !in backupFails ==> forall c :: MayRecover(disk, backup, c) ==> c == Some(current)
      ensures ok <==>
              && CanBackUp(old(disk), backup, removeExistingBackup, backupSuffix, backupFails) && GoesThrough(fails, true)
              && TempName(path.name, suffix) !in Current(old(disk), path.dir) && Path(path.dir, TempName(path.name, suffix)) != backup
    {
      hide Stage, Linked, NotLinked, BackupSafe, BackupFirst, MayRecover, TempName;
      ghost var d0, t0 := disk, trace;
      ghost var job1;
      ok, job1 := SafeReplaceFile(backup, current, removeExistingBackup, backupSuffix, backupFails);
      ghost var d1, t1 := disk, trace;
      BackupPhase(d0, d1, t0, t1, job1, path, content);
      BackupFirstPhase(d0, t0, t1, job1, path);
      StageIsReady(d0, d1, job1);
      if !ok {
        return;
      }
      NamesAfter(d0, d1, job1, path.dir, TempName(path.name, suffix));
      ghost var job2;
      ok, job2 := SafeReplaceFile(path, content, true, suffix, fails);
      ReplacePhase(d0, d1, disk, t1, trace, job1, job2);
      if SyncDirectory !in backupFails {
        DurableBackup(d0, d1, t1, trace, job2, backup);
      }
      StageIsReady(d1, disk, job2);
      if !ok {
        ErrorChangesNothing(d1, disk, job2);
      } else {
        BackupStays(d1, disk, job2, backup);
      }
    }
  }

  /** Once a replacement is through, its target is the one name there that may be new. */
  lemma NamesAfter(d0: Disk, d: Disk, job: Job, dir: string, name: string)
    requires Stage(d0, d, job) && Linked(d, job) && dir in d0.dirs
    requires job.tmp !in Current(d0, job.path.dir) && job.tmp !in Current(d, job.path.dir)
    ensures name in Current(d, dir) <==> name in Current(d0, dir) || Path(dir, name) == job.path
  {
    hide KeepsOld, CompleteIfLinked;
    if dir == job.path.dir && name != job.path.name && name != job.tmp {
      assert AgreeAt(Current(d0, dir), Current(d, dir), name);
    }
  }

  /** Replacing the target adds nothing to what a crash may bring back at the backup. */
  lemma BackupStays(d1: Disk, d2: Disk, job: Job, backup: Path)
    requires Stage(d1, d2, job) && Valid(d1) && backup.dir in d1.dirs && backup != job.path
    requires Running(d1, backup).Some? && job.path.dir in d1.dirs && job.tmp !in Current(d1, job.path.dir)
    ensures forall c :: MayRecover(d2, backup, c) ==> MayRecover(d1, backup, c)
  {
    hide Stage, MayRecover;
    StageMeaning(d1, d2, job, backup);
  }

  lemma TargetAsBefore(d0: Disk, d: Disk, job: Job)
    requires Staging(d0, d, job)
    ensures job.path.name in Current(d, job.path.dir) <==> Running(d0, job.path).Some?
  {
    var dir := job.path.dir;
    assert Current(d0, dir) in d0.dirs[dir] && Current(d, dir) in d.dirs[dir];
    assert ValidListing(d0, Current(d0, dir));
  }

  lemma StagingIsStage(d0: Disk, d: Disk, job: Job)
    requires Staging(d0, d, job)
    ensures Stage(d0, d, job) && NotLinked(d, job) && Valid(d) && job.path.dir in d.dirs && job.inode in d.data
  {
  }

  lemma StageIsReady(d0: Disk, d: Disk, job: Job)
    requires Stage(d0, d, job)
    ensures Valid(d) && d.dirs.Keys == d0.dirs.Keys && job.path.dir in d.dirs
  {
  }

  lemma TracedStart(t: seq<Disk>, d0: Disk, job: Job)
    ensures Traced(t, t, d0, job)
  {
  }

  lemma TracedMore(t0: seq<Disk>, t: seq<Disk>, d0: Disk, d: Disk, job: Job)
    requires Traced(t0, t, d0, job) && Stage(d0, d, job)
    ensures Traced(t0, t + [d], d0, job)
  {
    hide Stage;
  }

  // ----- what callers are promised -----

  /** A state of replacement as a caller of the helper sees it: processes read the old or the new content at
      `path`, and so does whoever comes back after a crash; all other files are as they were. */
  ghost predicate CrashSafe(d0: Disk, d: Disk, job: Job) {
    && job.path.dir in d0.dirs && |d0.dirs[job.path.dir]| > 0
    && job.path.dir in d.dirs && |d.dirs[job.path.dir]| > 0
    && (Running(d, job.path) == Running(d0, job.path) || Running(d, job.path) == Some(job.content))
    && (forall c :: MayRecover(d, job.path, c) ==> MayRecover(d0, job.path, c) || c == Some(job.content))
  }

  /** Whatever may be found at `p` after a crash is what processes read there now. */
  ghost predicate Settled(d: Disk, p: Path) {
    p.dir in d.dirs && |d.dirs[p.dir]| > 0 && forall c :: MayRecover(d, p, c) ==> c == Running(d, p)
  }

  /** In every state of a replacement, and so for a crash at any point of it, a file that was safely on disk
      is found as its complete old or its complete new content: never partial, and never absent. */
  lemma NeverTorn(d0: Disk, d: Disk, job: Job, c: Option<Bytes>)
    requires Stage(d0, d, job) && job.tmp != job.path.name
    requires Settled(d0, job.path) && MayRecover(d, job.path, c)
    ensures c == Running(d0, job.path) || c == Some(job.content)
    ensures Running(d0, job.path).Some? ==> c.Some?
    ensures CrashSafe(d0, d, job)
  {
    StageMeaning(d0, d, job, job.path);
  }

  /** A replacement that reported an error has changed nothing at the target, not even for a crash to come. */
  lemma ErrorChangesNothing(d0: Disk, d: Disk, job: Job)
    requires Stage(d0, d, job) && NotLinked(d, job) && job.tmp != job.path.name
    ensures Running(d, job.path) == Running(d0, job.path)
    ensures forall c :: MayRecover(d, job.path, c) ==> MayRecover(d0, job.path, c)
  {
    var dir := job.path.dir;
    assert Current(d0, dir) in d0.dirs[dir] && Current(d, dir) in d.dirs[dir];
    assert ValidListing(d0, Current(d0, dir));
    forall c | MayRecover(d, job.path, c)
      ensures MayRecover(d0, job.path, c)
    {
      var l :| l in d.dirs[dir] && ShowsAs(d, l, job.path.name, c);
      if l in d0.dirs[dir] {
        assert ValidListing(d0, l);
        assert ShowsAs(d0, l, job.path.name, c);
      } else {
        assert ShowsAs(d0, Current(d0, dir), job.path.name, c);
      }
    }
  }

  /** A crash is certain to find the original exactly as long as the new file was not renamed over it, unless the
      two contents are the same anyway. */
  lemma OriginalUntilRenamed(d0: Disk, d: Disk, job: Job)
    requires Stage(d0, d, job) && job.tmp != job.path.name && Settled(d0, job.path)
    requires Running(d0, job.path) != Some(job.content)
    ensures (forall c :: MayRecover(d, job.path, c) ==> c == Running(d0, job.path)) <==> NotLinked(d, job)
  {
    hide Settled;
    if NotLinked(d, job) {
      ErrorChangesNothing(d0, d, job);
      assert forall c :: MayRecover(d0, job.path, c) ==> c == Running(d0, job.path) by { SettledMeans(d0, job.path); }
    } else {
      var l :| l in d.dirs[job.path.dir] && job.path.name in l && l[job.path.name] == job.inode;
      assert CompleteIfLinked(d, l, job);
      assert ShowsAs(d, l, job.path.name, Some(job.content));
      assert MayRecover(d, job.path, Some(job.content));
    }
  }

  lemma SettledMeans(d: Disk, p: Path)
    requires Settled(d, p)
    ensures forall c :: MayRecover(d, p, c) ==> c == Running(d, p)
  {
  }

  /** One file `f`, safely on disk. */
  const SETTLED := Disk(map["d" := [map["f" := 0]]], map[0 := [1]], {}, 1)

  /** A crash right after the rename of a replacement on that disk finds the new content. */
  lemma CrashAfterRename() returns (d: Disk, job: Job)
    ensures Stage(SETTLED, d, job) && Settled(SETTLED, job.path) && Running(SETTLED, job.path) == Some([1])
    ensures MayRecover(d, job.path, Some([2]))
  {
    hide Stage, Staging;
    job := Job(Path("d", "f"), ".f.tmp-1", 1, [2]);
    assert ".f.tmp-1"[0] != "f"[0];
    StageCreate(SETTLED, job);
    var d1 := Created(SETTLED, Path("d", ".f.tmp-1"));
    StageWrite(SETTLED, d1, job, [2]);
    StageSync(SETTLED, Written(d1, 1, [2]), job);
    var d2 := Synced(Written(d1, 1, [2]), 1);
    StageRename(SETTLED, d2, job);
    d := Renamed(d2, "d", ".f.tmp-1", "f");
    assert Current(d, "d") in d.dirs["d"] && ShowsAs(d, Current(d, "d"), "f", Some([2]));
  }

  lemma TracedCrashSafe(t0: seq<Disk>, t: seq<Disk>, d0: Disk, job: Job)
    requires Traced(t0, t, d0, job) && job.tmp != job.path.name
    ensures forall k :: |t0| <= k < |t| ==> CrashSafe(d0, t[k], job)
  {
    forall k | |t0| <= k < |t|
      ensures CrashSafe(d0, t[k], job)
    {
      StageMeaning(d0, t[k], job, job.path);
    }
  }

  // ----- backup, then replace -----

  /** What `l`, found after a crash, shows at `name` is exactly `c`. */
  ghost predicate ShowsOnly(d: Disk, l: Listing, name: string, c: Option<Bytes>) {
    forall c' :: ShowsAs(d, l, name, c') ==> c' == c
  }

  /** Every state of backup-and-replace: the target is as before or new; it changes only once the backup holds
      the old content; and, where both are in one directory, no crash finds the new file without the backup. */
  ghost predicate BackupSafe(d0: Disk, d: Disk, path: Path, backup: Path, content: Bytes) {
    && path.dir in d0.dirs && |d0.dirs[path.dir]| > 0
    && path.dir in d.dirs && |d.dirs[path.dir]| > 0 && backup.dir in d.dirs && |d.dirs[backup.dir]| > 0
    && (Running(d, path) == Running(d0, path) || Running(d, path) == Some(content))
    && (forall c :: MayRecover(d, path, c) ==> MayRecover(d0, path, c) || c == Some(content))
    && (Running(d0, path).Some? && Running(d, path) != Running(d0, path) ==> Running(d, backup) == Running(d0, path))
    && (Running(d0, path).Some? && path.dir == backup.dir ==>
          forall l :: l in d.dirs[path.dir] && path.name in l && l !in d0.dirs[path.dir] && !AgreeAt(Current(d0, path.dir), l, path.name) ==>
            ShowsOnly(d, l, backup.name, Running(d0, path)))
  }

  /** No crash brings back the target in a new form unless the backup is certain to come back with the old one. */
  ghost predicate BackupFirst(d0: Disk, d: Disk, path: Path, backup: Path) {
    && path.dir in d0.dirs && |d0.dirs[path.dir]| > 0
    && ((forall c :: MayRecover(d, path, c) ==> MayRecover(d0, path, c))
        || (forall c :: MayRecover(d, backup, c) ==> c == Running(d0, path)))
  }

  lemma BackupFirstPhase(d0: Disk, t0: seq<Disk>, t1: seq<Disk>, job: Job, path: Path)
    requires Traced(t0, t1, d0, job) && Valid(d0) && job.path.dir in d0.dirs
    requires path.dir in d0.dirs && path != job.path && Running(d0, path).Some?
    requires job.tmp in Current(d0, job.path.dir) ==> forall k :: |t0| <= k < |t1| ==> t1[k] == d0
    ensures forall k :: |t0| <= k < |t1| ==> BackupFirst(d0, t1[k], path, job.path)
  {
    forall k | |t0| <= k < |t1|
      ensures BackupFirst(d0, t1[k], path, job.path)
    {
      if t1[k] != d0 {
        StageMeaning(d0, t1[k], job, path);
      }
    }
  }

  /** Once the backup is durable it stays so while the target is replaced, in whatever directory it lies. */
  lemma DurableBackup(d0: Disk, d1: Disk, t1: seq<Disk>, t2: seq<Disk>, job: Job, backup: Path)
    requires Traced(t1, t2, d1, job) && Valid(d1) && backup.dir in d1.dirs && backup != job.path && job.path.dir in d1.dirs
    requires job.path.dir in d0.dirs && |d0.dirs[job.path.dir]| > 0
    requires Running(d1, backup).Some? && forall c :: MayRecover(d1, backup, c) ==> c == Running(d0, job.path)
    requires job.tmp in Current(d1, job.path.dir) ==> forall k :: |t1| <= k < |t2| ==> t2[k] == d1
    ensures forall k :: |t1| <= k < |t2| ==> BackupFirst(d0, t2[k], job.path, backup)
  {
    hide Stage, MayRecover;
    forall k | |t1| <= k < |t2|
      ensures BackupFirst(d0, t2[k], job.path, backup)
    {
      if job.tmp !in Current(d1, job.path.dir) {
        BackupStays(d1, t2[k], job, backup);
      }
    }
  }

  /** With the new target in place and the backup in another directory, no crash finds the new target without the
      old content in the backup exactly if the backup was durable before the replacement began. */
  lemma BackupElsewhere(d1: Disk, d: Disk, job: Job, backup: Path, content: Bytes)
    requires Stage(d1, d, job) && Linked(d, job) && backup.dir in d1.dirs && backup.dir != job.path.dir
    ensures (forall c, b :: MayRecover(d, job.path, c) && MayRecover(d, backup, b) && c == Some(job.content) ==> b == Some(content))
            <==> (forall b :: MayRecover(d1, backup, b) ==> b == Some(content))
  {
    var l := Current(d, job.path.dir);
    assert l in d.dirs[job.path.dir] && ShowsAs(d, l, job.path.name, Some(job.content));
    assert MayRecover(d, job.path, Some(job.content));
    forall b
      ensures MayRecover(d, backup, b) <==> MayRecover(d1, backup, b)
    {
      SameRecovery(d1, d, job, backup, b);
    }
  }

  lemma SameRecovery(d1: Disk, d: Disk, job: Job, p: Path, c: Option<Bytes>)
    requires Stage(d1, d, job) && p.dir in d1.dirs && p.dir != job.path.dir
    ensures MayRecover(d, p, c) <==> MayRecover(d1, p, c)
  {
    forall l | l in d1.dirs[p.dir]
      ensures ShowsAs(d, l, p.name, c) <==> ShowsAs(d1, l, p.name, c)
    {
      assert ValidListing(d1, l);
      SameShow(d1, d, l, p.name);
    }
  }

  /** Without the sync of the backup's directory every earlier listing of it may still come back, so the backup
      is durable only if it already was, with that very content, before it was written. */
  lemma UnsyncedBackupMayBeLost(d0: Disk, d1: Disk, job: Job)
    requires Stage(d0, d1, job) && KeepsLog(d0, d1, job.path.dir)
    requires forall b :: MayRecover(d1, job.path, b) ==> b == Some(job.content)
    ensures forall b :: MayRecover(d0, job.path, b) ==> b == Some(job.content)
  {
    forall b | MayRecover(d0, job.path, b)
      ensures b == Some(job.content)
    {
      var l :| l in d0.dirs[job.path.dir] && ShowsAs(d0, l, job.path.name, b);
      assert ValidListing(d0, l);
      SameShow(d0, d1, l, job.path.name);
      assert MayRecover(d1, job.path, b);
    }
  }

  /** Two directories: the target `f` in `d`, safely on disk, and an empty `b` for its backup. */
  const APART := Disk(map["d" := [map["f" := 0]], "b" := [map[]]], map[0 := [1]], {}, 1)

  /** The disk after a replacement of `name` in `dir` all of whose calls succeed but the sync of the directory. */
  function Unsynced(d: Disk, dir: string, name: string, tmp: string, content: Bytes): Disk
    requires dir in d.dirs && |d.dirs[dir]| > 0
  {
    Renamed(Synced(Written(Created(d, Path(dir, tmp)), d.next, content), d.next), dir, tmp, name)
  }

  lemma UnsyncedStage(d: Disk, job: Job)
    requires Valid(d) && job.path.dir in d.dirs && job.inode == d.next
    requires job.tmp != job.path.name && job.tmp !in Current(d, job.path.dir)
    ensures var d' := Unsynced(d, job.path.dir, job.path.name, job.tmp, job.content);
            && Stage(d, d', job) && KeepsLog(d, d', job.path.dir) && d'.next == d.next + 1
            && MayRecover(d', job.path, Some(job.content))
  {
    hide Stage, Staging;
    var dir := job.path.dir;
    StageCreate(d, job);
    var d1 := Created(d, Path(dir, job.tmp));
    StageWrite(d, d1, job, job.content);
    StageSync(d, Written(d1, job.inode, job.content), job);
    var d2 := Synced(Written(d1, job.inode, job.content), job.inode);
    StageRename(d, d2, job);
    var d' := Renamed(d2, dir, job.tmp, job.path.name);
    assert Current(d', dir) in d'.dirs[dir] && ShowsAs(d', Current(d', dir), job.path.name, Some(job.content));
  }

  /** The loss, wherever there was no backup before: backup and replacement succeed, the sync of the backup's
      directory does not, and a crash finds the new target and no backup at all. */
  lemma BackupLost(d0: Disk, job1: Job, job2: Job) returns (d1: Disk, d2: Disk)
    requires Valid(d0) && job1.path.dir in d0.dirs && job2.path.dir in d0.dirs && job1.path.dir != job2.path.dir
    requires job1.inode == d0.next && job1.tmp != job1.path.name && job1.tmp !in Current(d0, job1.path.dir)
    requires job2.inode == d0.next + 1 && job2.tmp != job2.path.name && job2.tmp !in Current(d0, job2.path.dir)
    requires MayRecover(d0, job1.path, None)
    ensures d1 == Unsynced(d0, job1.path.dir, job1.path.name, job1.tmp, job1.content)
    ensures job2.path.dir in d1.dirs && |d1.dirs[job2.path.dir]| > 0
    ensures d2 == Unsynced(d1, job2.path.dir, job2.path.name, job2.tmp, job2.content)
    ensures MayRecover(d2, job2.path, Some(job2.content)) && MayRecover(d2, job1.path, None)
  {
    hide Stage, Unsynced;
    d1 := Unsynced(d0, job1.path.dir, job1.path.name, job1.tmp, job1.content);
    UnsyncedStage(d0, job1);
    OtherDirectory(d0, d1, job1, job2.path.dir);
    d2 := Unsynced(d1, job2.path.dir, job2.path.name, job2.tmp, job2.content);
    UnsyncedStage(d1, job2);
    OtherDirectory(d1, d2, job2, job1.path.dir);
    var l :| l in d0.dirs[job1.path.dir] && ShowsAs(d0, l, job1.path.name, None);
    assert l in d2.dirs[job1.path.dir] && ShowsAs(d2, l, job1.path.name, None);
  }

  /** Such a disk. */
  lemma BackupLostApart() returns (d: Disk)
    ensures Running(APART, Path("d", "f")) == Some([1])
    ensures MayRecover(d, Path("d", "f"), Some([2])) && MayRecover(d, Path("b", "f.bak"), None)
  {
    hide MayRecover, Unsynced;
    assert ".f.bak.tmp-1"[0] != "f.bak"[0] && ".f.tmp-1"[0] != "f"[0] && "b"[0] != "d"[0];
    NoBackupYet();
    var d1;
    d1, d := BackupLost(APART, Job(Path("b", "f.bak"), ".f.bak.tmp-1", 1, [1]), Job(Path("d", "f"), ".f.tmp-1", 2, [2]));
  }

  lemma NoBackupYet()
    ensures MayRecover(APART, Path("b", "f.bak"), None)
  {
    assert "b"[0] != "d"[0];
    assert map[] in APART.dirs["b"] && ShowsAs(APART, map[], "f.bak", None);
  }

  lemma OtherDirectory(d0: Disk, d: Disk, job: Job, dir: string)
    requires Stage(d0, d, job) && dir in d0.dirs && dir != job.path.dir
    ensures dir in d.dirs && d.dirs[dir] == d0.dirs[dir] && Valid(d)
  {
  }

  /** With nothing at the target there is nothing to back up. */
  lemma FreshFile(d0: Disk, d1: Disk, t0: seq<Disk>, t1: seq<Disk>, job: Job, backup: Path)
    requires Traced(t0, t1, d0, job) && Stage(d0, d1, job) && job.tmp != job.path.name
    requires Running(d0, job.path) == None && backup.dir in d0.dirs
    ensures forall k :: |t0| <= k < |t1| ==> BackupSafe(d0, t1[k], job.path, backup, job.content)
  {
    forall k | |t0| <= k < |t1|
      ensures BackupSafe(d0, t1[k], job.path, backup, job.content)
    {
      StageMeaning(d0, t1[k], job, job.path);
    }
  }

  /** While the backup is being written the target does not change, for processes or for a crash. */
  lemma BackupPhase(d0: Disk, d1: Disk, t0: seq<Disk>, t1: seq<Disk>, job: Job, path: Path, content: Bytes)
    requires Traced(t0, t1, d0, job) && Stage(d0, d1, job) && job.tmp != job.path.name
    requires path.dir in d0.dirs && path != job.path && Running(d0, path).Some?
    requires job.tmp in Current(d0, job.path.dir) ==> d1 == d0
    requires job.tmp in Current(d0, job.path.dir) ==> forall k :: |t0| <= k < |t1| ==> t1[k] == d0
    ensures forall k :: |t0| <= k < |t1| ==> BackupSafe(d0, t1[k], path, job.path, content)
    ensures Running(d1, path) == Running(d0, path) && BackupSafe(d0, d1, path, job.path, content)
  {
    hide Stage;
    UntouchedIsSafe(d0, d1, job, path, content);
    forall k | |t0| <= k < |t1|
      ensures BackupSafe(d0, t1[k], path, job.path, content)
    {
      UntouchedIsSafe(d0, t1[k], job, path, content);
    }
  }

  lemma UntouchedIsSafe(d0: Disk, d: Disk, job: Job, path: Path, content: Bytes)
    requires Stage(d0, d, job) && path.dir in d0.dirs && path != job.path && Running(d0, path).Some?
    requires job.tmp in Current(d0, job.path.dir) ==> d == d0
    ensures Running(d, path) == Running(d0, path) && BackupSafe(d0, d, path, job.path, content)
  {
    if d != d0 {
      assert path != Path(job.path.dir, job.tmp);
      StageMeaning(d0, d, job, path);
    }
  }

  /** While the target is replaced the finished backup stays as it is. */
  lemma ReplacePhase(d0: Disk, d1: Disk, d2: Disk, t1: seq<Disk>, t2: seq<Disk>, job1: Job, job2: Job)
    requires Traced(t1, t2, d1, job2) && Stage(d1, d2, job2) && Stage(d0, d1, job1)
    requires Linked(d1, job1) && Running(d0, job2.path) == Some(job1.content) == Running(d1, job2.path)
    requires BackupSafe(d0, d1, job2.path, job1.path, job2.content)
    requires job1.path != job2.path && job2.tmp != job2.path.name
    requires job2.path != Path(job1.path.dir, job1.tmp)
    requires job2.tmp in Current(d1, job2.path.dir) ==> d2 == d1
    requires job2.tmp in Current(d1, job2.path.dir) ==> forall k :: |t1| <= k < |t2| ==> t2[k] == d1
    ensures forall k :: |t1| <= k < |t2| ==> BackupSafe(d0, t2[k], job2.path, job1.path, job2.content)
    ensures Running(d2, job1.path) == Some(job1.content)
  {
    hide Stage, Linked, BackupSafe;
    ReplaceIsSafe(d0, d1, d2, job1, job2);
    forall k | |t1| <= k < |t2|
      ensures BackupSafe(d0, t2[k], job2.path, job1.path, job2.content)
    {
      ReplaceIsSafe(d0, d1, t2[k], job1, job2);
    }
  }

  lemma ReplaceIsSafe(d0: Disk, d1: Disk, d: Disk, job1: Job, job2: Job)
    requires Stage(d1, d, job2) && Stage(d0, d1, job1)
    requires Linked(d1, job1) && Running(d0, job2.path) == Some(job1.content) == Running(d1, job2.path)
    requires BackupSafe(d0, d1, job2.path, job1.path, job2.content)
    requires job1.path != job2.path && job2.tmp != job2.path.name
    requires job2.tmp in Current(d1, job2.path.dir) ==> d == d1
    requires job2.path != Path(job1.path.dir, job1.tmp)
    ensures BackupSafe(d0, d, job2.path, job1.path, job2.content)
    ensures Running(d, job1.path) == Some(job1.content)
  {
    if d != d1 {
      assert job1.path != Path(job2.path.dir, job2.tmp);
      StageMeaning(d1, d, job2, job2.path);
      StageMeaning(d1, d, job2, job1.path);
      if job1.path.dir == job2.path.dir {
        CrashKeepsBackup(d0, d1, d, job1, job2);
      }
    }
  }

  /** Files that existed keep what a crash may show of them. */
  lemma SameShow(d0: Disk, d: Disk, l: Listing, name: string)
    requires KeepsOld(d0, d) && ValidListing(d0, l)
    ensures forall c :: ShowsAs(d, l, name, c) <==> ShowsAs(d0, l, name, c)
  {
  }

  lemma CrashKeepsBackup(d0: Disk, d1: Disk, d: Disk, job1: Job, job2: Job)
    requires Stage(d1, d, job2) && Linked(d1, job1) && job1.path != job2.path && job1.path.dir == job2.path.dir
    requires job2.path.dir in d0.dirs && |d0.dirs[job2.path.dir]| > 0
    requires job2.tmp !in Current(d1, job2.path.dir) && Running(d0, job2.path) == Some(job1.content)
    requires BackupSafe(d0, d1, job2.path, job1.path, job2.content)
    requires AgreeAt(Current(d0, job2.path.dir), Current(d1, job2.path.dir), job2.path.name)
    ensures forall l :: l in d.dirs[job2.path.dir] && job2.path.name in l && l !in d0.dirs[job2.path.dir]
                        && !AgreeAt(Current(d0, job2.path.dir), l, job2.path.name) ==>
              ShowsOnly(d, l, job1.path.name, Some(job1.content))
  {
    var dir := job2.path.dir;
    forall l | l in d.dirs[dir] && job2.path.name in l && l !in d0.dirs[dir] && !AgreeAt(Current(d0, dir), l, job2.path.name)
      ensures ShowsOnly(d, l, job1.path.name, Some(job1.content))
    {
      if l in d1.dirs[dir] {
        assert ValidListing(d1, l);
        assert ShowsOnly(d1, l, job1.path.name, Some(job1.content));
        SameShow(d1, d, l, job1.path.name);
      } else {
        assert AgreeAt(Current(d1, dir), l, job1.path.name);
      }
    }
  }
}

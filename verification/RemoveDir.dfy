/**
 Recursive removal anchored on directory handles (sys/fs/remove_dir_unix.go). A file system is a set of
 directories, each a listing of files, symbolic links and real subdirectories; a symbolic link may point at
 any directory. Every call may fail and the context may end at any moment. Handles are directory identities.
 */
module RemoveDir {
  import opened Text

  type DirId = nat
  datatype Entry = File | Symlink(target: DirId) | Dir(id: DirId)
  type Fs = map<DirId, map<string, Entry>>

  /** Real subdirectories exist and lie strictly lower: the directory tree has no cycle. */
  ghost predicate Ranked(fs: Fs, rank: DirId -> nat) {
    forall d, n :: d in fs && n in fs[d] && fs[d][n].Dir? ==> fs[d][n].id in fs && rank(fs[d][n].id) < rank(d)
  }

  /** Follows names through real directory entries only. */
  function Walk(fs: Fs, from: DirId, names: seq<string>): Option<DirId>
    decreases |names|
  {
    if names == [] then Some(from)
    else if from in fs && names[0] in fs[from] && fs[from][names[0]].Dir? then
      Walk(fs, fs[from][names[0]].id, names[1..])
    else None
  }

  /** Directory `d` lies in the tree rooted at `root`. */
  ghost predicate InTree(fs: Fs, root: DirId, d: DirId) {
    exists names :: Walk(fs, root, names) == Some(d)
  }

  /** `after` comes from `before` by removing entries, directories only once they are empty. */
  ghost predicate Pruned(before: Fs, after: Fs) {
    && after.Keys == before.Keys
    && (forall d, n :: d in after && n in after[d] ==> n in before[d] && after[d][n] == before[d][n])
    && (forall d, n :: d in before && n in before[d] && n !in after[d] && before[d][n].Dir? && before[d][n].id in after ==>
          after[before[d][n].id] == map[])
  }

  lemma PrunedTwice(a: Fs, b: Fs, c: Fs)
    requires Pruned(a, b) && Pruned(b, c)
    ensures Pruned(a, c)
  {
    forall d, n | d in a && n in a[d] && n !in c[d] && a[d][n].Dir? && a[d][n].id in c
      ensures c[a[d][n].id] == map[]
    {
      var e := a[d][n].id;
      if n !in b[d] {
        assert b[e] == map[];
        assert forall m :: m in c[e] ==> m in b[e];
      }
    }
  }

  lemma PrunedRanked(before: Fs, after: Fs, rank: DirId -> nat)
    requires Pruned(before, after) && Ranked(before, rank)
    ensures Ranked(after, rank)
  {
  }

  /** A way through the pruned file system is a way through the original one. */
  lemma {:induction false} WalkPruned(before: Fs, after: Fs, from: DirId, names: seq<string>)
    requires Pruned(before, after) && Walk(after, from, names).Some?
    ensures Walk(before, from, names) == Walk(after, from, names)
    decreases |names|
  {
    if names != [] {
      WalkPruned(before, after, after[from][names[0]].id, names[1..]);
    }
  }

  lemma InTreePruned(before: Fs, after: Fs, root: DirId, d: DirId)
    requires Pruned(before, after) && InTree(after, root, d)
    ensures InTree(before, root, d)
  {
    var names :| Walk(after, root, names) == Some(d);
    WalkPruned(before, after, root, names);
  }

  lemma {:induction false} WalkRank(fs: Fs, rank: DirId -> nat, from: DirId, names: seq<string>)
    requires Ranked(fs, rank) && Walk(fs, from, names).Some?
    ensures rank(Walk(fs, from, names).value) <= rank(from)
    ensures from in fs ==> Walk(fs, from, names).value in fs
    decreases |names|
  {
    if names != [] {
      WalkRank(fs, rank, fs[from][names[0]].id, names[1..]);
    }
  }

  lemma InTreeChild(fs: Fs, parent: DirId, name: string, d: DirId)
    requires parent in fs && name in fs[parent] && fs[parent][name].Dir?
    requires InTree(fs, fs[parent][name].id, d)
    ensures InTree(fs, parent, d)
  {
    var names :| Walk(fs, fs[parent][name].id, names) == Some(d);
    assert ([name] + names)[1..] == names;
    assert Walk(fs, parent, [name] + names) == Some(d);
  }

  /** The entry `name` of `dir` is a real directory with `d` in its tree. */
  ghost predicate UnderEntry(fs: Fs, dir: DirId, name: string, d: DirId) {
    dir in fs && name in fs[dir] && fs[dir][name].Dir? && InTree(fs, fs[dir][name].id, d)
  }

  /** Nothing outside the tree of that entry has changed, except that the entry itself may be gone. */
  ghost predicate OnlyUnder(before: Fs, after: Fs, dir: DirId, name: string) {
    && Pruned(before, after) && dir in before
    && (forall d :: d in before && d != dir && !UnderEntry(before, dir, name, d) ==> after[d] == before[d])
    && (forall n :: n in before[dir] && n != name ==> n in after[dir])
  }

  /** What may fail for a reason of the host's own: anything done to an entry of a directory, the check of the
      context in front of it included; reading a directory's names; and opening the root or a component of the
      way to the target. */
  datatype Call = Touch(dir: DirId, name: string) | ListNames(dir: DirId) | OpenRoot | OpenOnWay(position: nat)

  predicate IsAt(call: Call, dir: DirId) {
    (call.Touch? || call.ListNames?) && call.dir == dir
  }

  /** Something fails in the tree of `root`. */
  ghost predicate TroubleIn(fs: Fs, fails: set<Call>, root: DirId) {
    exists call, d :: call in fails && IsAt(call, d) && InTree(fs, root, d)
  }

  /** Something fails on the entry or in its tree. */
  ghost predicate TroubleAt(fs: Fs, fails: set<Call>, dir: DirId, name: string) {
    || Touch(dir, name) in fails
    || (dir in fs && name in fs[dir] && fs[dir][name].Dir? && TroubleIn(fs, fails, fs[dir][name].id))
  }

  /** Trouble with a child is trouble in the directory's own tree, as it was before other children went. */
  lemma ChildTrouble(before: Fs, here: Fs, fails: set<Call>, dir: DirId, child: string)
    requires Pruned(before, here) && TroubleAt(here, fails, dir, child)
    ensures TroubleIn(before, fails, dir)
  {
    if Touch(dir, child) in fails {
      InTreeSelf(before, dir);
      assert IsAt(Touch(dir, child), dir);
    } else {
      var call, d :| call in fails && IsAt(call, d) && InTree(here, here[dir][child].id, d);
      InTreeChild(here, dir, child, d);
      InTreePruned(before, here, dir, d);
    }
  }

  /** The root and every component on the way can be opened, as far as the host goes. */
  predicate CanOpen(comps: seq<string>, fails: set<Call>) {
    OpenRoot !in fails && forall i :: 0 <= i < |comps| ==> OpenOnWay(i) !in fails
  }

  class FileSystem {
    var fs: Fs

    /** removeAtRecursive. Terminates because subdirectories rank lower. */
    method RemoveAtRecursive(dirfd: DirId, name: string, fails: set<Call>, ghost rank: DirId -> nat) returns (ok: bool)
      requires Ranked(fs, rank) && dirfd in fs
      modifies this
      ensures OnlyUnder(old(fs), fs, dirfd, name)
      ensures ok ==> name in old(fs)[dirfd] && name !in fs[dirfd]
      ensures !ok ==> TroubleAt(old(fs), fails, dirfd, name) || name !in old(fs)[dirfd]
      decreases rank(dirfd), 1
    {
      OnlyUnderSelf(fs, dirfd, name);
      // Whichever call on the entry fails: the context, fstatat, unlinkat, openat.
      var live, statable, unlinkable, openable, removable := *, *, *, *, *;
      if Touch(dirfd, name) !in fails {
        live, statable, unlinkable, openable, removable := true, true, true, true, true;
      }
      if !live || !statable || name !in fs[dirfd] {
        return false;
      }
      var entry := fs[dirfd][name];
      if !entry.Dir? {
        if !unlinkable {
          return false;
        }
        ghost var before: Fs := fs;
        fs := fs[dirfd := fs[dirfd] - {name}];
        RemovedEntry(before, fs, dirfd, name);
        return true;
      }
      if !openable {
        return false;
      }
      ghost var before: Fs := fs;
      ok := RemoveChildren(entry.id, fails, rank);
      ChildrenUnder(before, fs, dirfd, name, rank);
      if !ok {
        return;
      }
      if !removable || fs[entry.id] != map[] {
        return false;
      }
      ghost var emptied: Fs := fs;
      fs := fs[dirfd := fs[dirfd] - {name}];
      RemovedEntry(emptied, fs, dirfd, name);
      UnderThenEntry(before, emptied, fs, dirfd, name);
    }

    /** The loop over the names Readdirnames returned, in whatever order. */
    method RemoveChildren(cfd: DirId, fails: set<Call>, ghost rank: DirId -> nat) returns (ok: bool)
      requires Ranked(fs, rank) && cfd in fs
      modifies this
      ensures Pruned(old(fs), fs)
      ensures forall d :: d in old(fs) && !InTree(old(fs), cfd, d) ==> fs[d] == old(fs)[d]
      ensures ok ==> fs[cfd] == map[]
      ensures !ok ==> TroubleIn(old(fs), fails, cfd)
      decreases rank(cfd), 2
    {
      ghost var before: Fs := fs;
      var todo := fs[cfd].Keys;
      InTreeSelf(before, cfd);
      ok := ListNames(cfd) !in fails;
      if !ok {
        assert IsAt(ListNames(cfd), cfd);
        return;
      }
      while todo != {}
        invariant Pruned(before, fs)
        invariant forall d :: d in before && !InTree(before, cfd, d) ==> fs[d] == before[d]
        invariant fs[cfd].Keys == todo
        decreases |todo|
      {
        var child :| child in todo;
        ghost var here: Fs := fs;
        PrunedRanked(before, here, rank);
        ok := RemoveAtRecursive(cfd, child, fails, rank);
        PrunedTwice(before, here, fs);
        ChildInside(before, here, fs, cfd, child);
        if !ok {
          ChildTrouble(before, here, fails, cfd, child);
          return;
        }
        assert fs[cfd].Keys == here[cfd].Keys - {child};
        todo := todo - {child};
      }
      assert fs[cfd].Keys == {};
    }

    /** openNoFollowChain: every component has to be a real directory. */
    method OpenNoFollowChain(root: DirId, comps: seq<string>, fails: set<Call>) returns (fd: Option<DirId>)
      ensures fd.Some? <==> CanOpen(comps, fails) && Walk(fs, root, comps).Some?
      ensures fd.Some? ==> Walk(fs, root, comps) == fd
    {
      if OpenRoot in fails {
        return None;
      }
      var at := root;
      for i := 0 to |comps|
        invariant Walk(fs, at, comps[i..]) == Walk(fs, root, comps)
        invariant forall j :: 0 <= j < i ==> OpenOnWay(j) !in fails
      {
        assert comps[i..][1..] == comps[i + 1..];
        if OpenOnWay(i) in fails || at !in fs || comps[i] !in fs[at] || !fs[at][comps[i]].Dir? {
          return None;
        }
        at := fs[at][comps[i]].id;
      }
      return Some(at);
    }

    /** removeDirSecure: the leaf has to be a real directory. */
    method RemoveDirSecure(root: DirId, parent: seq<string>, base: string, fails: set<Call>, ghost rank: DirId -> nat)
      returns (ok: bool)
      requires Ranked(fs, rank) && root in fs
      modifies this
      ensures Pruned(old(fs), fs)
      ensures forall d :: d in old(fs) && fs[d] != old(fs)[d] ==>
                d == Target(old(fs), root, parent, base).0 ||
                InTree(old(fs), Target(old(fs), root, parent, base).1, d)
      ensures IsRealDirectory(old(fs), root, parent, base) ==>
                var p := Target(old(fs), root, parent, base).0;
                forall n :: n in old(fs)[p] && n != base ==> n in fs[p] && fs[p][n] == old(fs)[p][n]
      ensures fs != old(fs) ==> IsRealDirectory(old(fs), root, parent, base)
      ensures ok ==> IsRealDirectory(old(fs), root, parent, base) && !IsRealDirectory(fs, root, parent, base)
      ensures !ok && IsRealDirectory(old(fs), root, parent, base) ==>
                !CanOpen(parent, fails) || TroubleAt(old(fs), fails, Target(old(fs), root, parent, base).0, base)
      ensures ok ==> forall d :: InTree(old(fs), Target(old(fs), root, parent, base).1, d) ==> d in fs && fs[d] == map[]
    {
      var pfd := OpenNoFollowChain(root, parent, fails);
      if pfd.None? {
        return false;
      }
      WalkRank(fs, rank, root, parent);
      var dirfd := pfd.value;
      var statable := *;
      if Touch(dirfd, base) !in fails {
        statable := true;
      }
      if !statable || base !in fs[dirfd] || !fs[dirfd][base].Dir? {
        return false;
      }
      ghost var before: Fs := fs;
      ok := RemoveAtRecursive(dirfd, base, fails, rank);
      if ok {
        ghost var target := before[dirfd][base].id;
        TreeEmptied(before, fs, target, rank);
        if Walk(fs, root, parent).Some? {
          WalkPruned(before, fs, root, parent);
        }
      }
    }
  }

  /** The parent directory and the directory that the path names, where it names a real one. */
  function Target(fs: Fs, root: DirId, parent: seq<string>, base: string): (DirId, DirId) {
    var p := Walk(fs, root, parent);
    if p.Some? && p.value in fs && base in fs[p.value] && fs[p.value][base].Dir? then (p.value, fs[p.value][base].id)
    else (0, 0)
  }

  predicate IsRealDirectory(fs: Fs, root: DirId, parent: seq<string>, base: string) {
    var p := Walk(fs, root, parent);
    p.Some? && p.value in fs && base in fs[p.value] && fs[p.value][base].Dir?
  }

  lemma InTreeSelf(fs: Fs, d: DirId)
    ensures InTree(fs, d, d)
  {
    assert Walk(fs, d, []) == Some(d);
  }

  lemma OnlyUnderSelf(fs: Fs, dir: DirId, name: string)
    requires dir in fs
    ensures OnlyUnder(fs, fs, dir, name)
  {
  }

  lemma RemovedEntry(before: Fs, after: Fs, dir: DirId, name: string)
    requires dir in before && name in before[dir] && after == before[dir := before[dir] - {name}]
    requires before[dir][name].Dir? ==> before[dir][name].id in before && before[before[dir][name].id] == map[] && before[dir][name].id != dir
    ensures OnlyUnder(before, after, dir, name)
  {
  }

  /** Removing the children of the entry's directory stays under the entry. */
  lemma ChildrenUnder(before: Fs, after: Fs, dir: DirId, name: string, rank: DirId -> nat)
    requires Ranked(before, rank) && Pruned(before, after)
    requires dir in before && name in before[dir] && before[dir][name].Dir?
    requires forall d :: d in before && !InTree(before, before[dir][name].id, d) ==> after[d] == before[d]
    ensures OnlyUnder(before, after, dir, name) && after[dir] == before[dir]
  {
    var c := before[dir][name].id;
    if InTree(before, c, dir) {
      var names :| Walk(before, c, names) == Some(dir);
      WalkRank(before, rank, c, names);
    }
  }

  lemma UnderThenEntry(before: Fs, middle: Fs, after: Fs, dir: DirId, name: string)
    requires OnlyUnder(before, middle, dir, name) && OnlyUnder(middle, after, dir, name)
    requires forall d :: d in middle && d != dir ==> after[d] == middle[d]
    ensures OnlyUnder(before, after, dir, name)
  {
    PrunedTwice(before, middle, after);
  }

  /** What changed under one child is inside the directory's own tree. */
  lemma ChildInside(before: Fs, here: Fs, after: Fs, dir: DirId, child: string)
    requires Pruned(before, here) && OnlyUnder(here, after, dir, child)
    requires forall d :: d in before && !InTree(before, dir, d) ==> here[d] == before[d]
    requires InTree(before, dir, dir)
    ensures forall d :: d in before && !InTree(before, dir, d) ==> after[d] == before[d]
  {
    forall d | d in before && !InTree(before, dir, d)
      ensures after[d] == before[d]
    {
      if UnderEntry(here, dir, child, d) {
        InTreeChild(here, dir, child, d);
        InTreePruned(before, here, dir, d);
      }
    }
  }

  /** Once a directory is empty, so is every directory that was in its tree. */
  lemma TreeEmptied(before: Fs, after: Fs, root: DirId, rank: DirId -> nat)
    requires Pruned(before, after) && Ranked(before, rank) && root in after && after[root] == map[]
    ensures forall d :: InTree(before, root, d) ==> d in after && after[d] == map[]
  {
    forall d | InTree(before, root, d)
      ensures d in after && after[d] == map[]
    {
      var names :| Walk(before, root, names) == Some(d);
      WalkEmptied(before, after, root, names, rank);
    }
  }

  lemma {:induction false} WalkEmptied(before: Fs, after: Fs, root: DirId, names: seq<string>, rank: DirId -> nat)
    requires Pruned(before, after) && Ranked(before, rank) && root in after && after[root] == map[]
    requires Walk(before, root, names).Some?
    ensures var d := Walk(before, root, names).value; d in after && after[d] == map[]
    decreases |names|
  {
    if names != [] {
      var child := before[root][names[0]].id;
      assert names[0] !in after[root] && child in after;
      WalkEmptied(before, after, child, names[1..], rank);
    }
  }
}

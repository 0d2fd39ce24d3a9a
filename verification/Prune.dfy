/**
 Pruning a tree to a set of files (sys/remote/prune.go): collect in one walk, delete the files that are not
 kept, then remove directories in order of falling path length, tolerating those that are not empty. Paths
 are the component lists below the destination, which itself is never touched. Any deletion may fail.
 */
module Prune {

  type Path = seq<string>
  datatype Kind = Directory | Leaf   // a leaf is anything that is not a directory
  type Tree = map<Path, Kind>

  /** Every entry but the destination's own children has a directory above it, and names are not empty. */
  ghost predicate IsTree(t: Tree) {
    forall p :: p in t ==>
      && p != []
      && (forall i :: 0 <= i < |p| ==> p[i] != "")
      && (|p| > 1 ==> p[..|p| - 1] in t && t[p[..|p| - 1]] == Directory)
  }

  /** The length of the path string below the destination, separators included. */
  function Length(p: Path): nat {
    if p == [] then 0 else Length(p[..|p| - 1]) + 1 + |p[|p| - 1]|
  }

  /** `d` is an ancestor directory of `p`. */
  predicate Above(d: Path, p: Path) {
    |d| < |p| && p[..|d|] == d
  }

  /** A kept file lies somewhere below `d`. */
  ghost predicate HasSurvivor(t: Tree, keep: set<Path>, d: Path) {
    exists p :: p in t && t[p] == Leaf && p in keep && Above(d, p)
  }

  predicate NonEmpty(t: Tree, d: Path) {
    exists p :: p in t && Above(d, p)
  }

  // ----- the order in which directories go -----

  predicate Falling(ds: seq<Path>) {
    forall i, j :: 0 <= i < j < |ds| ==> Length(ds[i]) >= Length(ds[j])
  }

  function Insert(d: Path, ds: seq<Path>): seq<Path> {
    if ds == [] || Length(d) >= Length(ds[0]) then [d] + ds else [ds[0]] + Insert(d, ds[1..])
  }

  /** sort.Slice by falling path length. */
  function Sorted(ds: seq<Path>): seq<Path> {
    if ds == [] then [] else Insert(ds[0], Sorted(ds[1..]))
  }

  lemma {:induction false} InsertElements(d: Path, ds: seq<Path>)
    ensures multiset(Insert(d, ds)) == multiset{d} + multiset(ds)
  {
    hide Length;
    if ds != [] && Length(d) < Length(ds[0]) {
      InsertElements(d, ds[1..]);
      assert ds == [ds[0]] + ds[1..];
    }
  }

  lemma {:induction false} InsertMembers(d: Path, ds: seq<Path>)
    ensures forall x :: x in Insert(d, ds) ==> x == d || x in ds
  {
    hide Length;
    if ds != [] && Length(d) < Length(ds[0]) {
      InsertMembers(d, ds[1..]);
    }
  }

  /** Something at least as long in front. */
  lemma FallsFrom(d: Path, ds: seq<Path>)
    requires Falling(ds) && forall x :: x in ds ==> Length(d) >= Length(x)
    ensures Falling([d] + ds)
  {
    hide Length;
    var all := [d] + ds;
    forall i, j | 0 <= i < j < |all|
      ensures Length(all[i]) >= Length(all[j])
    {
      assert all[j] == ds[j - 1] && all[j] in ds;
      if i > 0 {
        assert all[i] == ds[i - 1];
      }
    }
  }

  /** The first is the longest. */
  lemma FirstIsLongest(ds: seq<Path>)
    requires Falling(ds) && ds != []
    ensures Falling(ds[1..]) && forall x :: x in ds ==> Length(ds[0]) >= Length(x)
  {
    hide Length;
    forall x | x in ds
      ensures Length(ds[0]) >= Length(x)
    {
      var i :| 0 <= i < |ds| && ds[i] == x;
      assert i > 0 ==> Length(ds[0]) >= Length(ds[i]);
    }
  }

  lemma {:induction false} InsertFalls(d: Path, ds: seq<Path>)
    requires Falling(ds)
    ensures Falling(Insert(d, ds))
  {
    hide Length, Falling;
    if ds == [] {
      FallingOne(d);
    } else {
      FirstIsLongest(ds);
      if Length(d) >= Length(ds[0]) {
        FallsFrom(d, ds);
      } else {
        InsertFalls(d, ds[1..]);
        InsertMembers(d, ds[1..]);
        FallsFrom(ds[0], Insert(d, ds[1..]));
      }
    }
  }

  lemma FallingOne(d: Path)
    ensures Falling(Insert(d, []))
  {
  }

  lemma {:induction false} SortedFalls(ds: seq<Path>)
    ensures Falling(Sorted(ds)) && multiset(Sorted(ds)) == multiset(ds)
  {
    hide Insert;
    if ds != [] {
      SortedFalls(ds[1..]);
      InsertFalls(ds[0], Sorted(ds[1..]));
      InsertElements(ds[0], Sorted(ds[1..]));
      assert ds == [ds[0]] + ds[1..];
    }
  }

  lemma SameElements(a: seq<Path>, b: seq<Path>)
    requires multiset(a) == multiset(b)
    ensures forall i :: 0 <= i < |a| ==> a[i] in b
    ensures forall p :: p in b ==> p in a
  {
    forall i | 0 <= i < |a|
      ensures a[i] in b
    {
      assert a[i] in multiset(a);
    }
    forall p | p in b
      ensures p in a
    {
      assert p in multiset(b);
    }
  }

  lemma {:induction false} LengthGrows(d: Path, p: Path)
    requires Above(d, p)
    ensures Length(d) < Length(p)
    decreases |p|
  {
    var parent := p[..|p| - 1];
    if |d| < |parent| {
      assert parent[..|d|] == p[..|d|];
      LengthGrows(d, parent);
    } else {
      assert parent == d;
    }
  }

  // ----- what pruning leaves -----

  /** In the files phase or later: no entry is new or changed kind, kept files and the directories above them
      are there. */
  ghost predicate Shrinking(t0: Tree, t: Tree, keep: set<Path>) {
    && (forall p :: p in t ==> p in t0 && t[p] == t0[p])
    && (forall p :: p in t0 && t0[p] == Leaf && p in keep ==> p in t)
    && (forall d :: d in t0 && t0[d] == Directory && HasSurvivor(t0, keep, d) ==> d in t)
  }

  ghost predicate KeepsDirectories(t0: Tree, t: Tree) {
    forall d :: d in t0 && t0[d] == Directory ==> d in t
  }

  ghost predicate OnlyKept(t: Tree, keep: set<Path>) {
    forall p :: p in t && t[p] == Leaf ==> p in keep
  }

  /** The first `n` directories of the list are settled: they are there exactly if they hold a survivor. */
  ghost predicate Settled(t0: Tree, t: Tree, keep: set<Path>, ds: seq<Path>, n: nat) {
    n <= |ds| && forall i :: 0 <= i < n ==> (ds[i] in t <==> HasSurvivor(t0, keep, ds[i]))
  }

  predicate AllDirectories(t0: Tree, ds: seq<Path>) {
    && (forall i :: 0 <= i < |ds| ==> ds[i] in t0 && t0[ds[i]] == Directory)
    && (forall d :: d in t0 && t0[d] == Directory ==> d in ds)
  }

  lemma SurvivorAbove(t0: Tree, keep: set<Path>, d: Path, p: Path)
    requires Above(d, p) && HasSurvivor(t0, keep, p)
    ensures HasSurvivor(t0, keep, d)
  {
    var q :| q in t0 && t0[q] == Leaf && q in keep && Above(p, q);
    assert q[..|d|] == q[..|p|][..|d|];
  }

  /** When its turn comes, a directory has something in it exactly if it holds a survivor: everything below it
      is longer and has been dealt with. */
  lemma TurnComes(t0: Tree, t: Tree, keep: set<Path>, ds: seq<Path>, n: nat)
    requires Shrinking(t0, t, keep) && OnlyKept(t, keep)
    requires AllDirectories(t0, ds) && Falling(ds) && n < |ds| && Settled(t0, t, keep, ds, n)
    ensures NonEmpty(t, ds[n]) <==> HasSurvivor(t0, keep, ds[n])
  {
    var d := ds[n];
    if HasSurvivor(t0, keep, d) {
      var p :| p in t0 && t0[p] == Leaf && p in keep && Above(d, p);
      assert p in t;
    } else if NonEmpty(t, d) {
      var p :| p in t && Above(d, p);
      LengthGrows(d, p);
      if t[p] == Directory {
        DealtWith(t0, t, keep, ds, n, p);
        SurvivorAbove(t0, keep, d, p);
      }
      assert false;
    }
  }

  /** A longer directory has had its turn. */
  lemma DealtWith(t0: Tree, t: Tree, keep: set<Path>, ds: seq<Path>, n: nat, p: Path)
    requires AllDirectories(t0, ds) && Falling(ds) && n < |ds| && Settled(t0, t, keep, ds, n)
    requires p in t0 && t0[p] == Directory && p in t && Length(p) > Length(ds[n])
    ensures HasSurvivor(t0, keep, p)
  {
    hide HasSurvivor, Length;
    var i :| 0 <= i < |ds| && ds[i] == p;
    assert i < n;
  }

  lemma {:induction false} AncestorInTree(t: Tree, p: Path, n: nat)
    requires IsTree(t) && p in t && 0 < n < |p|
    ensures p[..n] in t && t[p[..n]] == Directory
    decreases |p|
  {
    var parent := p[..|p| - 1];
    if n < |parent| {
      AncestorInTree(t, parent, n);
      assert parent[..n] == p[..n];
    } else {
      assert parent == p[..n];
    }
  }

  lemma LeafHoldsNothing(t0: Tree, t: Tree, v: Path)
    requires IsTree(t0) && v in t0 && t0[v] == Leaf && forall p :: p in t ==> p in t0
    ensures !NonEmpty(t, v)
  {
    forall p | p in t
      ensures !Above(v, p)
    {
      assert v != [];
      if |v| < |p| {
        AncestorInTree(t0, p, |v|);
      }
    }
  }

  lemma UntouchedShrinks(t: Tree, keep: set<Path>)
    ensures Shrinking(t, t, keep)
  {
  }

  /** A file that is not kept holds nothing and may go. */
  lemma VictimAllowed(t0: Tree, t: Tree, keep: set<Path>, v: Path)
    requires IsTree(t0) && Shrinking(t0, t, keep) && KeepsDirectories(t0, t)
    requires v in t0 && t0[v] == Leaf && v !in keep
    ensures !NonEmpty(t, v)
    ensures Shrinking(t0, t - {v}, keep) && KeepsDirectories(t0, t - {v})
  {
    hide IsTree, HasSurvivor, NonEmpty;
    LeafHoldsNothing(t0, t, v);
  }

  lemma VictimsGone(t0: Tree, t: Tree, keep: set<Path>, victims: seq<Path>)
    requires Shrinking(t0, t, keep) && forall j :: 0 <= j < |victims| ==> victims[j] !in t
    requires forall p :: p in victims <==> p in t0 && t0[p] == Leaf && p !in keep
    ensures OnlyKept(t, keep)
  {
    hide HasSurvivor;
  }

  lemma LeavesKept(t0: Tree, t: Tree, keep: set<Path>)
    requires Shrinking(t0, t, keep) && OnlyKept(t, keep)
    ensures forall p :: p in t0 && t0[p] == Leaf ==> (p in t <==> p in keep)
  {
  }

  lemma StaysForSurvivor(t0: Tree, t: Tree, keep: set<Path>, d: Path)
    requires Shrinking(t0, t, keep) && d in t0 && t0[d] == Directory
    ensures d in t ==> t[d] == Directory
    ensures HasSurvivor(t0, keep, d) ==> d in t
  {
  }

  /** Removing an entry that holds nothing and is no kept file takes nothing away that has to stay. */
  lemma RemovalAllowed(t0: Tree, t: Tree, keep: set<Path>, d: Path)
    requires Shrinking(t0, t, keep) && OnlyKept(t, keep) && d in t && t[d] == Directory && !HasSurvivor(t0, keep, d)
    ensures Shrinking(t0, t - {d}, keep) && OnlyKept(t - {d}, keep)
  {
    hide HasSurvivor;
  }

  /** What may fail for a reason of the host's own: looking at the destination, looking at an entry, deleting one. */
  datatype Call = Look | Visit(p: Path) | Delete(p: Path)

  /** Everything the walk looks at can be looked at. */
  ghost predicate CanLook(t: Tree, fails: set<Call>) {
    Look !in fails && forall p :: p in t ==> Visit(p) !in fails
  }

  /** What pruning tries to delete: the files that are not kept, and every directory. */
  predicate Tried(t: Tree, keep: set<Path>, p: Path) {
    p in t && (t[p] == Directory || p !in keep)
  }

  class Destination {
    var tree: Tree

    /** os.Remove. An entry that is gone reports ErrNotExist, a directory with entries ENOTEMPTY, and anything may
        report some other error. */
    method Remove(p: Path, fails: set<Call>) returns (ok: bool, notExist: bool, notEmpty: bool)
      modifies this
      ensures tree == if ok then old(tree) - {p} else old(tree)
      ensures notExist <==> Delete(p) !in fails && p !in old(tree)
      ensures notEmpty <==> Delete(p) !in fails && p in old(tree) && NonEmpty(old(tree), p)
      ensures ok <==> Delete(p) !in fails && p in old(tree) && !NonEmpty(old(tree), p)
    {
      if Delete(p) in fails {
        return false, false, false;
      }
      notExist := p !in tree;
      notEmpty := p in tree && NonEmpty(tree, p);
      ok := !notExist && !notEmpty;
      if ok {
        tree := tree - {p};
      }
    }

    /** pruneTo. `walk` is what WalkDir visits, in its order. */
    method PruneTo(walk: seq<Path>, keep: set<Path>, fails: set<Call>) returns (ok: bool)
      requires IsTree(tree)
      requires forall p :: p in walk <==> p in tree
      modifies this
      ensures Shrinking(old(tree), tree, keep)
      ensures ok <==> CanLook(old(tree), fails) && forall p :: Tried(old(tree), keep, p) ==> Delete(p) !in fails
      ensures !CanLook(old(tree), fails) ==> tree == old(tree)
      ensures ok ==> forall p :: p in old(tree) && old(tree)[p] == Leaf ==> (p in tree <==> p in keep)
      ensures ok ==> forall d :: d in old(tree) && old(tree)[d] == Directory ==>
                (d in tree <==> HasSurvivor(old(tree), keep, d))
    {
      hide Shrinking, OnlyKept, HasSurvivor, IsTree, Falling, Sorted;
      ghost var t0 := tree;
      var victims, dirs;
      ok, victims, dirs := Collect(walk, keep, fails);
      UntouchedShrinks(tree, keep);
      if !ok {
        return;
      }
      ok := RemoveVictims(victims, keep, fails);
      if !ok {
        return;
      }
      SortedFalls(dirs);
      SameElements(Sorted(dirs), dirs);
      ok := RemoveDirectories(Sorted(dirs), keep, t0, fails);
      LeavesKept(t0, tree, keep);
    }

    /** The walk: files to delete, and every directory. Looking at the destination or at any entry may fail. */
    method Collect(walk: seq<Path>, keep: set<Path>, fails: set<Call>) returns (ok: bool, victims: seq<Path>, dirs: seq<Path>)
      requires forall p :: p in walk <==> p in tree
      ensures ok <==> CanLook(tree, fails)
      ensures ok ==> forall p :: p in victims <==> p in tree && tree[p] == Leaf && p !in keep
      ensures ok ==> forall p :: p in dirs <==> p in tree && tree[p] == Directory
    {
      victims, dirs := [], [];
      ok := Look !in fails;
      if !ok {
        return;
      }
      for i := 0 to |walk|
        invariant forall p :: p in victims <==> p in walk[..i] && p in tree && tree[p] == Leaf && p !in keep
        invariant forall p :: p in dirs <==> p in walk[..i] && p in tree && tree[p] == Directory
        invariant ok && forall p :: p in walk[..i] ==> Visit(p) !in fails
      {
        assert walk[i] in walk;
        ok := Visit(walk[i]) !in fails;
        if !ok {
          return;
        }
        assert walk[..i + 1] == walk[..i] + [walk[i]];
        if tree[walk[i]] == Directory {
          dirs := dirs + [walk[i]];
        } else if walk[i] !in keep {
          victims := victims + [walk[i]];
        }
      }
      assert walk[..|walk|] == walk;
    }

    method RemoveVictims(victims: seq<Path>, keep: set<Path>, fails: set<Call>) returns (ok: bool)
      requires IsTree(tree)
      requires forall p :: p in victims <==> p in tree && tree[p] == Leaf && p !in keep
      modifies this
      ensures Shrinking(old(tree), tree, keep)
      ensures KeepsDirectories(old(tree), tree)
      ensures ok ==> OnlyKept(tree, keep)
      ensures ok <==> forall p :: p in victims ==> Delete(p) !in fails
    {
      hide IsTree, NonEmpty, Shrinking, OnlyKept;
      ghost var t0 := tree;
      UntouchedShrinks(t0, keep);
      for i := 0 to |victims|
        invariant Shrinking(t0, tree, keep) && KeepsDirectories(t0, tree)
        invariant forall j :: 0 <= j < i ==> victims[j] !in tree && Delete(victims[j]) !in fails
      {
        assert victims[i] in victims;
        VictimAllowed(t0, tree, keep, victims[i]);
        var removed, notExist, notEmpty := Remove(victims[i], fails);
        if !removed && !notExist {
          return false;
        }
      }
      VictimsGone(t0, tree, keep, victims);
      return true;
    }

    method RemoveDirectories(dirs: seq<Path>, ghost keep: set<Path>, ghost t0: Tree, fails: set<Call>) returns (ok: bool)
      requires IsTree(t0) && Shrinking(t0, tree, keep) && OnlyKept(tree, keep)
      requires AllDirectories(t0, dirs) && Falling(dirs)
      requires KeepsDirectories(t0, tree)
      modifies this
      ensures Shrinking(t0, tree, keep) && OnlyKept(tree, keep)
      ensures ok ==> forall d :: d in t0 && t0[d] == Directory ==> (d in tree <==> HasSurvivor(t0, keep, d))
      ensures ok <==> forall p :: p in dirs ==> Delete(p) !in fails
    {
      hide Shrinking, OnlyKept, HasSurvivor, IsTree, Falling, NonEmpty;
      for i := 0 to |dirs|
        invariant Shrinking(t0, tree, keep) && OnlyKept(tree, keep)
        invariant Settled(t0, tree, keep, dirs, i)
        invariant forall j :: 0 <= j < i ==> Delete(dirs[j]) !in fails
      {
        TurnComes(t0, tree, keep, dirs, i);
        StaysForSurvivor(t0, tree, keep, dirs[i]);
        if dirs[i] in tree && !HasSurvivor(t0, keep, dirs[i]) {
          RemovalAllowed(t0, tree, keep, dirs[i]);
        }
        var removed, notExist, notEmpty := Remove(dirs[i], fails);
        if !removed && !notExist && !notEmpty {
          return false;
        }
      }
      return true;
    }
  }
}

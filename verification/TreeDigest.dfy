/**
 The canonical form a tree digest hashes (sys/remote/digest.go): the regular files below a root, sorted by
 relative path, each as path length, path, permission bits, size and body. The hash itself is left
 uninterpreted; what is proved is that its input stands for the tree.
 */
module TreeDigest {

  newtype Byte = x: int | 0 <= x < 256
  type Bytes = seq<Byte>

  /** A regular file: its slash-separated relative path, permission bits and content. */
  datatype File = File(path: Bytes, mode: nat, body: Bytes)

  /** One visit of the walk; only regular files are hashed. The tree does not change under the walk, so the
      size stat reports is the body's length. */
  datatype Visit = Visit(regular: bool, file: File)

  // ----- numbers on the wire -----

  /** The low `k` bytes of `n`, most significant first: AppendUint32 and AppendUint64 after conversion. */
  function BigEndian(n: nat, k: nat): (b: Bytes)
    ensures |b| == k
  {
    if k == 0 then [] else BigEndian(n / 256, k - 1) + [(n % 256) as Byte]
  }

  function Value(b: Bytes): nat {
    if b == [] then 0 else 256 * Value(b[..|b| - 1]) + b[|b| - 1] as int
  }

  function Range(k: nat): nat {
    if k == 0 then 1 else 256 * Range(k - 1)
  }

  lemma {:induction false} BigEndianValue(n: nat, k: nat)
    requires n < Range(k)
    ensures Value(BigEndian(n, k)) == n
  {
    if k > 0 {
      BigEndianValue(n / 256, k - 1);
      var b := BigEndian(n, k);
      assert b[..k - 1] == BigEndian(n / 256, k - 1);
    }
  }

  lemma BigEndianInjective(n: nat, m: nat, k: nat)
    requires n < Range(k) && m < Range(k) && BigEndian(n, k) == BigEndian(m, k)
    ensures n == m
  {
    hide BigEndian;
    BigEndianValue(n, k);
    BigEndianValue(m, k);
  }

  // ----- the canonical form -----

  function Frame(f: File): Bytes {
    BigEndian(|f.path|, 4) + f.path + BigEndian(f.mode, 4) + BigEndian(|f.body|, 8) + f.body
  }

  function Feed(files: seq<File>): Bytes {
    if files == [] then [] else Feed(files[..|files| - 1]) + Frame(files[|files| - 1])
  }

  /** strings.Compare(a, b) < 0. */
  predicate Less(a: Bytes, b: Bytes) {
    b != [] && (a == [] || a[0] < b[0] || (a[0] == b[0] && Less(a[1..], b[1..])))
  }

  function Insert(f: File, files: seq<File>): seq<File> {
    if files == [] || Less(f.path, files[0].path) then [f] + files else [files[0]] + Insert(f, files[1..])
  }

  /** sort.Slice by path. */
  function Sorted(files: seq<File>): seq<File> {
    if files == [] then [] else Insert(files[0], Sorted(files[1..]))
  }

  function Regular(visits: seq<Visit>): seq<File> {
    if visits == [] then []
    else Regular(visits[..|visits| - 1]) + if visits[|visits| - 1].regular then [visits[|visits| - 1].file] else []
  }

  function Canonical(visits: seq<Visit>): Bytes {
    Feed(Sorted(Regular(visits)))
  }

  /** sha256Tree up to the hash: collect, sort, feed. */
  method HashInput(visits: seq<Visit>) returns (fed: Bytes)
    ensures fed == Canonical(visits)
  {
    var files: seq<File> := [];
    for i := 0 to |visits|
      invariant files == Regular(visits[..i])
    {
      assert visits[..i + 1][..i] == visits[..i];
      if visits[i].regular {
        files := files + [visits[i].file];
      }
    }
    assert visits[..|visits|] == visits;
    files := Sorted(files);
    fed := [];
    for i := 0 to |files|
      invariant fed == Feed(files[..i])
    {
      assert files[..i + 1][..i] == files[..i];
      ghost var before := fed;
      var f := files[i];
      fed := fed + BigEndian(|f.path|, 4);
      fed := fed + f.path;
      fed := fed + (BigEndian(f.mode, 4) + BigEndian(|f.body|, 8));
      if |f.body| > 0 {
        fed := fed + f.body;
      }
      FrameInPieces(before, f);
    }
    assert files[..|files|] == files;
  }

  lemma FrameInPieces(before: Bytes, f: File)
    ensures before + BigEndian(|f.path|, 4) + f.path + (BigEndian(f.mode, 4) + BigEndian(|f.body|, 8)) + f.body == before + Frame(f)
    ensures |f.body| == 0 ==>
              before + BigEndian(|f.path|, 4) + f.path + (BigEndian(f.mode, 4) + BigEndian(|f.body|, 8)) == before + Frame(f)
  {
    hide BigEndian;
  }

  // ----- order -----

  /** The two agree up to `n`, where `a` ends or has the smaller byte. */
  predicate BeforeAt(a: Bytes, b: Bytes, n: nat) {
    n <= |a| && n < |b| && a[..n] == b[..n] && (n == |a| || a[n] < b[n])
  }

  /** Path order is the order of bytes: at the first position where the two differ the smaller byte comes first,
      and a path comes before every longer one that starts with it. */
  lemma {:induction false} LessMeaning(a: Bytes, b: Bytes)
    ensures Less(a, b) <==> exists n: nat :: BeforeAt(a, b, n)
  {
    if b == [] {
    } else if a == [] || a[0] < b[0] {
      assert BeforeAt(a, b, 0);
    } else {
      if a[0] == b[0] {
        LessMeaning(a[1..], b[1..]);
      }
      forall n: nat | BeforeAt(a, b, n)
        ensures a[0] == b[0] && n > 0 && BeforeAt(a[1..], b[1..], n - 1)
      {
        assert n > 0 ==> a[..n][0] == b[..n][0];
        assert a[1..][..n - 1] == a[..n][1..] && b[1..][..n - 1] == b[..n][1..];
      }
      forall n: nat | a[0] == b[0] && BeforeAt(a[1..], b[1..], n)
        ensures BeforeAt(a, b, n + 1)
      {
        assert a[..n + 1] == [a[0]] + a[1..][..n] && b[..n + 1] == [b[0]] + b[1..][..n];
      }
    }
  }

  lemma {:induction false} LessTransitive(a: Bytes, b: Bytes, c: Bytes)
    requires Less(a, b) && Less(b, c)
    ensures Less(a, c)
  {
    if a != [] && a[0] == b[0] && b[0] == c[0] {
      LessTransitive(a[1..], b[1..], c[1..]);
    }
  }

  lemma {:induction false} LessTotal(a: Bytes, b: Bytes)
    ensures a == b || Less(a, b) || Less(b, a)
    ensures !(Less(a, b) && Less(b, a)) && !Less(a, a)
  {
    if a != [] && b != [] {
      LessTotal(a[1..], b[1..]);
      LessTotal(a[1..], a[1..]);
      if a[0] == b[0] && a[1..] == b[1..] {
        assert a == [a[0]] + a[1..] && b == [b[0]] + b[1..];
      }
    } else if a != [] {
      LessTotal(a[1..], a[1..]);
    }
  }

  predicate Rising(files: seq<File>) {
    forall i, j :: 0 <= i < j < |files| ==> Less(files[i].path, files[j].path)
  }

  /** A walk visits each path once. */
  predicate DistinctPaths(files: seq<File>) {
    forall i, j :: 0 <= i < j < |files| ==> files[i].path != files[j].path
  }

  lemma {:induction false} InsertElements(f: File, files: seq<File>)
    ensures forall g :: g in Insert(f, files) <==> g == f || g in files
  {
    hide Less;
    if files != [] && !Less(f.path, files[0].path) {
      InsertElements(f, files[1..]);
      assert files == [files[0]] + files[1..];
    }
  }

  lemma {:induction false} InsertRises(f: File, files: seq<File>)
    requires Rising(files) && forall g :: g in files ==> g.path != f.path
    ensures Rising(Insert(f, files))
  {
    hide Less;
    if files == [] {
    } else if Less(f.path, files[0].path) {
      forall j | 0 <= j < |files|
        ensures Less(f.path, files[j].path)
      {
        if j > 0 {
          LessTransitive(f.path, files[0].path, files[j].path);
        }
      }
    } else {
      var rest := Insert(f, files[1..]);
      assert files[0] in files;
      LessTotal(f.path, files[0].path);
      InsertRises(f, files[1..]);
      InsertElements(f, files[1..]);
      forall j | 0 <= j < |rest|
        ensures Less(files[0].path, rest[j].path)
      {
        assert rest[j] in rest;
      }
    }
  }

  lemma {:induction false} SortedRises(files: seq<File>)
    requires DistinctPaths(files)
    ensures Rising(Sorted(files))
    ensures forall g :: g in Sorted(files) <==> g in files
  {
    hide Less, Insert;
    if files != [] {
      SortedRises(files[1..]);
      assert files == [files[0]] + files[1..];
      InsertRises(files[0], Sorted(files[1..]));
      InsertElements(files[0], Sorted(files[1..]));
    }
  }

  /** Two rising lists of the same files are one list. */
  lemma {:induction false} RisingUnique(a: seq<File>, b: seq<File>)
    requires Rising(a) && Rising(b) && forall g :: g in a <==> g in b
    ensures a == b
  {
    hide Less;
    assert a != [] ==> a[0] in a;
    assert b != [] ==> b[0] in b;
    if a != [] {
      SameFirst(a, b);
      forall g
        ensures g in a[1..] <==> g in b[1..]
      {
        TailElements(a, g);
        TailElements(b, g);
      }
      RisingUnique(a[1..], b[1..]);
      assert a == [a[0]] + a[1..] && b == [b[0]] + b[1..];
    }
  }

  lemma SameFirst(a: seq<File>, b: seq<File>)
    requires Rising(a) && Rising(b) && a != [] && b != [] && a[0] in b && b[0] in a
    ensures a[0] == b[0]
  {
    hide Less;
    var i :| 0 <= i < |b| && b[i] == a[0];
    var j :| 0 <= j < |a| && a[j] == b[0];
    LessTotal(a[0].path, b[0].path);
  }

  lemma TailElements(a: seq<File>, g: File)
    requires Rising(a) && a != []
    ensures g in a[1..] <==> g in a && g != a[0]
  {
    hide Less;
    assert a == [a[0]] + a[1..];
    if g in a[1..] {
      var i :| 0 <= i < |a[1..]| && a[1..][i] == g;
      assert Less(a[0].path, a[i + 1].path);
      LessTotal(a[0].path, a[0].path);
    }
  }

  // ----- reading the input back -----

  /** Lengths and bits fit the fields they are written in. */
  predicate Fits(f: File) {
    |f.path| < Range(4) && f.mode < Range(4) && |f.body| < Range(8)
  }

  lemma SplitEqual(a: Bytes, r: Bytes, b: Bytes, s: Bytes)
    requires a + r == b + s && |a| == |b|
    ensures a == b && r == s
  {
    assert (a + r)[..|a|] == a && (b + s)[..|b|] == b;
    assert (a + r)[|a|..] == r && (b + s)[|b|..] == s;
  }

  /** No frame is ambiguous: what follows it starts at one place only. */
  lemma FrameUnique(f: File, r: Bytes, g: File, s: Bytes)
    requires Fits(f) && Fits(g) && Frame(f) + r == Frame(g) + s
    ensures f == g && r == s
  {
    hide BigEndian, Range;
    var fBody := f.body + r;
    var gBody := g.body + s;
    var fSize := BigEndian(|f.body|, 8) + fBody;
    var gSize := BigEndian(|g.body|, 8) + gBody;
    var fMode := BigEndian(f.mode, 4) + fSize;
    var gMode := BigEndian(g.mode, 4) + gSize;
    assert Frame(f) + r == BigEndian(|f.path|, 4) + (f.path + fMode);
    assert Frame(g) + s == BigEndian(|g.path|, 4) + (g.path + gMode);
    SplitEqual(BigEndian(|f.path|, 4), f.path + fMode, BigEndian(|g.path|, 4), g.path + gMode);
    BigEndianInjective(|f.path|, |g.path|, 4);
    SplitEqual(f.path, fMode, g.path, gMode);
    SplitEqual(BigEndian(f.mode, 4), fSize, BigEndian(g.mode, 4), gSize);
    BigEndianInjective(f.mode, g.mode, 4);
    SplitEqual(BigEndian(|f.body|, 8), fBody, BigEndian(|g.body|, 8), gBody);
    BigEndianInjective(|f.body|, |g.body|, 8);
    SplitEqual(f.body, r, g.body, s);
  }

  lemma {:induction false} FeedFront(files: seq<File>)
    requires files != []
    ensures Feed(files) == Frame(files[0]) + Feed(files[1..])
  {
    hide Frame;
    var init := files[..|files| - 1];
    if |files| == 1 {
      assert init == [] && files[1..] == [];
    } else {
      FeedFront(init);
      assert files[1..][..|files| - 2] == init[1..];
    }
  }

  lemma {:induction false} FeedInjective(a: seq<File>, b: seq<File>)
    requires forall i :: 0 <= i < |a| ==> Fits(a[i])
    requires forall i :: 0 <= i < |b| ==> Fits(b[i])
    requires Feed(a) == Feed(b)
    ensures a == b
  {
    hide Frame, Fits;
    if a != [] && b != [] {
      FeedFront(a);
      FeedFront(b);
      FrameUnique(a[0], Feed(a[1..]), b[0], Feed(b[1..]));
      FeedInjective(a[1..], b[1..]);
      assert a == [a[0]] + a[1..] && b == [b[0]] + b[1..];
    } else if a != [] {
      FeedFront(a);
      FrameNotEmpty(a[0]);
    } else if b != [] {
      FeedFront(b);
      FrameNotEmpty(b[0]);
    }
  }

  lemma FrameNotEmpty(f: File)
    ensures Frame(f) != []
  {
    assert |Frame(f)| >= 4;
  }

  /** Two walks feed the hash the same bytes exactly if they saw the same set of files, whatever the order:
      same paths, same permission bits, same bodies. */
  lemma DigestInputIsTheTree(v: seq<Visit>, w: seq<Visit>)
    requires DistinctPaths(Regular(v)) && DistinctPaths(Regular(w))
    requires forall i :: 0 <= i < |Regular(v)| ==> Fits(Regular(v)[i])
    requires forall i :: 0 <= i < |Regular(w)| ==> Fits(Regular(w)[i])
    ensures Canonical(v) == Canonical(w) <==> forall f :: f in Regular(v) <==> f in Regular(w)
  {
    hide Fits, Feed, Less, Sorted;
    var a, b := Sorted(Regular(v)), Sorted(Regular(w));
    SortedRises(Regular(v));
    SortedRises(Regular(w));
    if Canonical(v) == Canonical(w) {
      forall i | 0 <= i < |a| ensures Fits(a[i]) { assert a[i] in a; }
      forall i | 0 <= i < |b| ensures Fits(b[i]) { assert b[i] in b; }
      FeedInjective(a, b);
      assert forall f :: f in Regular(v) <==> f in a;
    }
    if forall f :: f in Regular(v) <==> f in Regular(w) {
      RisingUnique(a, b);
    }
  }
}

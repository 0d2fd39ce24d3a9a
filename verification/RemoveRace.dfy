/**
 Recursive removal while other processes change the tree (sys/fs/remove_dir_unix.go). A step is one system call of
 the removal, or any change whatever to the file system by someone else. What the handles are for: every entry the
 removal unlinks lies in a directory it reached by opening real directory entries, one below the other, from the
 root along the given path, each of them real at the moment it was opened.
 */
module RemoveRace {
  import opened RemoveDir

  /** A directory handle `child` opened as entry `name` of the handle `parent`, without following links. */
  datatype Open = Open(parent: DirId, name: string, child: DirId)

  datatype Todo =
    | Stat                                   // about to fstatat the entry
    | OpenDir                                // seen as a directory, about to openat it
    | UnlinkFile                             // seen as something else, about to unlinkat it
    | ReadNames(cfd: DirId)                  // opened, about to list it
    | Children(cfd: DirId, left: seq<string>)
    | UnlinkDir                              // children done, about to rmdir it

  /** One activation of removeAtRecursive: entry `name` of the handle `fd`, which was reached by the names `at`. */
  datatype Frame = Frame(fd: DirId, at: seq<string>, name: string, todo: Todo)

  datatype Mode =
    | Chain(fd: DirId, at: seq<string>, left: seq<string>)   // openNoFollowChain
    | Leaf(fd: DirId)                                        // removeDirSecure, about to fstatat the target
    | Removing(stack: seq<Frame>)                            // innermost activation last
    | Done(ok: bool)

  /** The path is `parent` below the root, then `base`. `opens` is the history of handles. */
  datatype State = State(root: DirId, parent: seq<string>, base: string, fs: Fs, mode: Mode, opens: set<Open>)

  datatype Step =
    | Interfere(fs: Fs)                      // other processes
    | OpenNext
    | ChainEnds
    | StatLeaf
    | StatEntry
    | OpenEntry
    | Unlink
    | List(names: seq<string>)               // whatever the directory read returned
    | NextChild
    | ChildrenEnd
    | Rmdir
    | Fail                                   // a call fails, or the context has ended

  function Initial(root: DirId, parent: seq<string>, base: string, fs: Fs): State {
    State(root, parent, base, fs, Chain(root, [], parent), {})
  }

  predicate Exists(fs: Fs, d: DirId, name: string) {
    d in fs && name in fs[d]
  }

  predicate IsDir(fs: Fs, d: DirId, name: string) {
    Exists(fs, d, name) && fs[d][name].Dir?
  }

  predicate Active(s: State) {
    s.mode.Removing? && s.mode.stack != []
  }

  function Top(s: State): Frame
    requires Active(s)
  {
    s.mode.stack[|s.mode.stack| - 1]
  }

  predicate Enabled(s: State, step: Step) {
    match step
    case Interfere(_) => true
    case Fail => !s.mode.Done?
    case OpenNext => s.mode.Chain? && s.mode.left != [] && IsDir(s.fs, s.mode.fd, s.mode.left[0])
    case ChainEnds => s.mode.Chain? && s.mode.left == []
    case StatLeaf => s.mode.Leaf? && IsDir(s.fs, s.mode.fd, s.base)
    case StatEntry => Active(s) && Top(s).todo.Stat? && Exists(s.fs, Top(s).fd, Top(s).name)
    case OpenEntry => Active(s) && Top(s).todo.OpenDir? && IsDir(s.fs, Top(s).fd, Top(s).name)
    case Unlink =>
      Active(s) && Top(s).todo.UnlinkFile? && Exists(s.fs, Top(s).fd, Top(s).name) && !IsDir(s.fs, Top(s).fd, Top(s).name)
    case List(_) => Active(s) && Top(s).todo.ReadNames?
    case NextChild => Active(s) && Top(s).todo.Children? && Top(s).todo.left != []
    case ChildrenEnd => Active(s) && Top(s).todo.Children? && Top(s).todo.left == []
    case Rmdir =>
      && Active(s) && Top(s).todo.UnlinkDir? && IsDir(s.fs, Top(s).fd, Top(s).name)
      && s.fs[Top(s).fd][Top(s).name].id in s.fs && s.fs[s.fs[Top(s).fd][Top(s).name].id] == map[]
  }

  /** The innermost activation goes on to `todo`. */
  function Go(s: State, todo: Todo): State
    requires Active(s)
  {
    s.(mode := Removing(s.mode.stack[|s.mode.stack| - 1 := Top(s).(todo := todo)]))
  }

  /** The entry of the innermost activation is removed, and the activation returns. */
  function Removed(s: State): State
    requires Active(s) && Exists(s.fs, Top(s).fd, Top(s).name)
  {
    var (d, name) := (Top(s).fd, Top(s).name);
    var stack := s.mode.stack[..|s.mode.stack| - 1];
    s.(fs := s.fs[d := s.fs[d] - {name}], mode := if stack == [] then Done(true) else Removing(stack))
  }

  function Opened(s: State, d: DirId, name: string): State
    requires IsDir(s.fs, d, name)
  {
    s.(opens := s.opens + {Open(d, name, s.fs[d][name].id)})
  }

  function Next(s: State, step: Step): State
    requires Enabled(s, step)
  {
    match step
    case Interfere(fs) => s.(fs := fs)
    case Fail => s.(mode := Done(false))
    case OpenNext =>
      var (d, name) := (s.mode.fd, s.mode.left[0]);
      Opened(s, d, name).(mode := Chain(s.fs[d][name].id, s.mode.at + [name], s.mode.left[1..]))
    case ChainEnds => s.(mode := Leaf(s.mode.fd))
    case StatLeaf => s.(mode := Removing([Frame(s.mode.fd, s.parent, s.base, Stat)]))
    case StatEntry => Go(s, if IsDir(s.fs, Top(s).fd, Top(s).name) then OpenDir else UnlinkFile)
    case OpenEntry => Opened(Go(s, ReadNames(s.fs[Top(s).fd][Top(s).name].id)), Top(s).fd, Top(s).name)
    case Unlink => Removed(s)
    case List(names) => Go(s, Children(Top(s).todo.cfd, names))
    case NextChild =>
      var (cfd, child) := (Top(s).todo.cfd, Top(s).todo.left[0]);
      var rest := Go(s, Children(cfd, Top(s).todo.left[1..]));
      if child == "." || child == ".." then rest
      else rest.(mode := Removing(rest.mode.stack + [Frame(cfd, Top(s).at + [Top(s).name], child, Stat)]))
    case ChildrenEnd => Go(s, UnlinkDir)
    case Rmdir => Removed(s)
  }

  ghost predicate IsRun(states: seq<State>, steps: seq<Step>) {
    && |states| == |steps| + 1
    && states[0] == Initial(states[0].root, states[0].parent, states[0].base, states[0].fs)
    && forall i :: 0 <= i < |steps| ==> Enabled(states[i], steps[i]) && states[i + 1] == Next(states[i], steps[i])
  }

  // ----- ways -----

  function Last(names: seq<string>): string
    requires names != []
  {
    names[|names| - 1]
  }

  function Front(names: seq<string>): seq<string>
    requires names != []
  {
    names[..|names| - 1]
  }

  predicate Hop(opens: set<Open>, p: DirId, name: string, d: DirId) {
    Open(p, name, d) in opens
  }

  /** Handle `d` was reached from `root` by opening the names one below the other. */
  ghost predicate Way(opens: set<Open>, root: DirId, names: seq<string>, d: DirId)
    decreases |names|
  {
    if names == [] then d == root
    else exists p :: Hop(opens, p, Last(names), d) && Way(opens, root, Front(names), p)
  }

  lemma {:induction false} WayGrows(opens: set<Open>, more: set<Open>, root: DirId, names: seq<string>, d: DirId)
    requires Way(opens, root, names, d) && opens <= more
    ensures Way(more, root, names, d)
    decreases |names|
  {
    if names != [] {
      var p :| Hop(opens, p, Last(names), d) && Way(opens, root, Front(names), p);
      assert Hop(more, p, Last(names), d);
      WayGrows(opens, more, root, Front(names), p);
    }
  }

  lemma WayOn(opens: set<Open>, root: DirId, names: seq<string>, d: DirId, name: string, child: DirId)
    requires Way(opens, root, names, d)
    ensures Way(opens + {Open(d, name, child)}, root, names + [name], child)
  {
    var more := opens + {Open(d, name, child)};
    WayGrows(opens, more, root, names, d);
    assert Front(names + [name]) == names && Last(names + [name]) == name;
    assert Hop(more, d, name, child);
  }

  // ----- every step keeps the ways -----

  /** The place is the target itself or lies below it. */
  predicate InScope(s: State, at: seq<string>, name: string) {
    (at == s.parent && name == s.base) || s.parent + [s.base] <= at
  }

  ghost predicate FrameOk(s: State, f: Frame) {
    && Way(s.opens, s.root, f.at, f.fd)
    && InScope(s, f.at, f.name)
    && (f.todo.ReadNames? || f.todo.Children? ==> Way(s.opens, s.root, f.at + [f.name], f.todo.cfd))
  }

  ghost predicate Inv(s: State) {
    match s.mode
    case Chain(fd, at, left) => Way(s.opens, s.root, at, fd) && s.parent == at + left
    case Leaf(fd) => Way(s.opens, s.root, s.parent, fd)
    case Removing(stack) => forall i :: 0 <= i < |stack| ==> FrameOk(s, stack[i])
    case Done(_) => true
  }

  lemma FrameKept(s: State, s': State, f: Frame)
    requires FrameOk(s, f) && s.opens <= s'.opens && s'.root == s.root && s'.parent == s.parent && s'.base == s.base
    ensures FrameOk(s', f)
  {
    WayGrows(s.opens, s'.opens, s.root, f.at, f.fd);
    if f.todo.ReadNames? || f.todo.Children? {
      WayGrows(s.opens, s'.opens, s.root, f.at + [f.name], f.todo.cfd);
    }
  }

  /** The innermost activation goes on; the others stay as they are. */
  lemma GoKeeps(s: State, s': State)
    requires Inv(s) && Active(s) && Active(s') && s.opens <= s'.opens
    requires s'.root == s.root && s'.parent == s.parent && s'.base == s.base
    requires |s'.mode.stack| == |s.mode.stack| && s'.mode.stack[..|s.mode.stack| - 1] == s.mode.stack[..|s.mode.stack| - 1]
    requires FrameOk(s', Top(s'))
    ensures Inv(s')
  {
    hide FrameOk;
    forall i | 0 <= i < |s'.mode.stack|
      ensures FrameOk(s', s'.mode.stack[i])
    {
      if i < |s.mode.stack| - 1 {
        assert s'.mode.stack[i] == s'.mode.stack[..|s.mode.stack| - 1][i] == s.mode.stack[i];
        FrameKept(s, s', s.mode.stack[i]);
      }
    }
  }

  lemma ChainStep(s: State, step: Step)
    requires Inv(s) && Enabled(s, step) && (step.OpenNext? || step.ChainEnds? || step.StatLeaf?)
    ensures Inv(Next(s, step))
  {
    hide Way;
    match step
    case OpenNext =>
      var (d, name) := (s.mode.fd, s.mode.left[0]);
      WayOn(s.opens, s.root, s.mode.at, d, name, s.fs[d][name].id);
      assert s.mode.at + s.mode.left == s.mode.at + [name] + s.mode.left[1..];
    case ChainEnds => assert s.mode.at + s.mode.left == s.mode.at;
    case StatLeaf =>
  }

  lemma GoStep(s: State, step: Step)
    requires Inv(s) && Enabled(s, step) && (step.StatEntry? || step.List? || step.ChildrenEnd?)
    ensures Inv(Next(s, step))
  {
    hide Way, InScope;
    assert FrameOk(s, Top(s));
    ScopeKept(s, Next(s, step), Top(s));
    GoKeeps(s, Next(s, step));
  }

  lemma OpenStep(s: State)
    requires Inv(s) && Enabled(s, OpenEntry)
    ensures Inv(Next(s, OpenEntry))
  {
    hide Way, InScope;
    var f, s' := Top(s), Next(s, OpenEntry);
    assert FrameOk(s, f);
    WayOn(s.opens, s.root, f.at, f.fd, f.name, s.fs[f.fd][f.name].id);
    WayGrows(s.opens, s'.opens, s.root, f.at, f.fd);
    assert FrameOk(s', Top(s')) by {
      ScopeKept(s, s', f);
    }
    GoKeeps(s, s');
  }

  lemma ScopeKept(s: State, s': State, f: Frame)
    requires InScope(s, f.at, f.name) && s'.parent == s.parent && s'.base == s.base
    ensures InScope(s', f.at, f.name)
  {
  }

  lemma ChildInScope(s: State, f: Frame, child: string)
    requires InScope(s, f.at, f.name)
    ensures InScope(s, f.at + [f.name], child)
  {
    if s.parent + [s.base] <= f.at {
      assert (f.at + [f.name])[..|s.parent| + 1] == f.at[..|s.parent| + 1];
    }
  }

  lemma ChildStep(s: State)
    requires Inv(s) && Enabled(s, NextChild)
    ensures Inv(Next(s, NextChild))
  {
    hide Way, InScope;
    var f := Top(s);
    var child := f.todo.left[0];
    var rest := Go(s, Children(f.todo.cfd, f.todo.left[1..]));
    assert FrameOk(s, f);
    ScopeKept(s, rest, f);
    GoKeeps(s, rest);
    if child != "." && child != ".." {
      var s' := Next(s, NextChild);
      ChildInScope(s, f, child);
      ScopeKept(s, s', Frame(f.todo.cfd, f.at + [f.name], child, Stat));
      PushKeeps(rest, s', Frame(f.todo.cfd, f.at + [f.name], child, Stat));
    }
  }

  lemma PushKeeps(s: State, s': State, f: Frame)
    requires Inv(s) && s.mode.Removing? && s' == s.(mode := Removing(s.mode.stack + [f])) && FrameOk(s', f)
    ensures Inv(s')
  {
    hide FrameOk;
    forall i | 0 <= i < |s.mode.stack|
      ensures FrameOk(s', s.mode.stack[i])
    {
      FrameKept(s, s', s.mode.stack[i]);
    }
  }

  lemma PopStep(s: State)
    requires Inv(s) && Active(s) && Exists(s.fs, Top(s).fd, Top(s).name)
    ensures Inv(Removed(s))
  {
    hide FrameOk;
    var s' := Removed(s);
    forall i | 0 <= i < |s.mode.stack| - 1
      ensures FrameOk(s', s.mode.stack[i])
    {
      FrameKept(s, s', s.mode.stack[i]);
    }
  }

  lemma InterfereStep(s: State, fs: Fs)
    requires Inv(s)
    ensures Inv(s.(fs := fs))
  {
    hide FrameOk, Way;
    var s' := s.(fs := fs);
    if s.mode.Removing? {
      forall i | 0 <= i < |s.mode.stack|
        ensures FrameOk(s', s.mode.stack[i])
      {
        FrameKept(s, s', s.mode.stack[i]);
      }
    }
  }

  lemma InvStep(s: State, step: Step)
    requires Inv(s) && Enabled(s, step)
    ensures Inv(Next(s, step))
  {
    hide FrameOk, Way;
    match step
    case Interfere(fs) => InterfereStep(s, fs);
    case Fail =>
    case OpenEntry => OpenStep(s);
    case NextChild => ChildStep(s);
    case Unlink => PopStep(s);
    case Rmdir => PopStep(s);
    case StatEntry => GoStep(s, step);
    case List(_) => GoStep(s, step);
    case ChildrenEnd => GoStep(s, step);
    case _ => ChainStep(s, step);
  }

  lemma {:induction false} RunKeepsInv(states: seq<State>, steps: seq<Step>, n: nat)
    requires IsRun(states, steps) && n < |states|
    ensures Inv(states[n]) && states[n].root == states[0].root
    ensures states[n].parent == states[0].parent && states[n].base == states[0].base
  {
    hide Inv, Enabled, Next;
    if n == 0 {
      StartInv(states[0]);
    } else {
      RunKeepsInv(states, steps, n - 1);
      InvStep(states[n - 1], steps[n - 1]);
      SamePath(states[n - 1], steps[n - 1]);
    }
  }

  lemma StartInv(s: State)
    requires s == Initial(s.root, s.parent, s.base, s.fs)
    ensures Inv(s)
  {
  }

  lemma SamePath(s: State, step: Step)
    requires Enabled(s, step)
    ensures var s' := Next(s, step); s'.root == s.root && s'.parent == s.parent && s'.base == s.base
  {
  }

  // ----- handles were real entries when opened -----

  ghost predicate OpenedBefore(states: seq<State>, n: nat, o: Open) {
    exists k :: 0 <= k < n && k < |states| && IsDir(states[k].fs, o.parent, o.name) && states[k].fs[o.parent][o.name].id == o.child
  }

  lemma OpensGrow(s: State, step: Step, o: Open)
    requires Enabled(s, step)
    ensures o in Next(s, step).opens && o !in s.opens ==> IsDir(s.fs, o.parent, o.name) && s.fs[o.parent][o.name].id == o.child
  {
  }

  lemma {:induction false} OpensWereReal(states: seq<State>, steps: seq<Step>, n: nat, o: Open)
    requires IsRun(states, steps) && n < |states| && o in states[n].opens
    ensures OpenedBefore(states, n, o)
  {
    hide Enabled, Next;
    if n > 0 {
      if o in states[n - 1].opens {
        OpensWereReal(states, steps, n - 1, o);
        var k :| 0 <= k < n - 1 && k < |states| && IsDir(states[k].fs, o.parent, o.name) && states[k].fs[o.parent][o.name].id == o.child;
      } else {
        OpensGrow(states[n - 1], steps[n - 1], o);
      }
    }
  }

  // ----- what the removal itself changes -----

  /** One entry goes: a file, a link itself, or an empty directory. */
  predicate RemovesOne(fs: Fs, fs': Fs, d: DirId, name: string) {
    && Exists(fs, d, name) && fs' == fs[d := fs[d] - {name}]
    && (fs[d][name].Dir? ==> fs[d][name].id in fs && fs[fs[d][name].id] == map[])
  }

  /** The handle `d` was opened along the path, and the entry is the target or lies below it. */
  ghost predicate Anchored(s: State, at: seq<string>, d: DirId, name: string) {
    Way(s.opens, s.root, at, d) && InScope(s, at, name)
  }

  lemma OnlyRemovalsChange(s: State, step: Step)
    requires Enabled(s, step) && !step.Interfere?
    ensures Next(s, step).fs != s.fs ==> Active(s) && RemovesOne(s.fs, Next(s, step).fs, Top(s).fd, Top(s).name)
  {
  }

  /** In every run, whatever other processes do between any two calls: a step of the removal that changes the
      file system removes one entry, from a directory whose handle was reached from the root by the path's own
      names, the entry being the target or below it; and every handle on that way was a real directory entry of
      the one before, not a link, at the moment it was opened. */
  lemma RemovalsAreAnchored(states: seq<State>, steps: seq<Step>, n: nat)
    requires IsRun(states, steps) && n < |steps| && !steps[n].Interfere? && states[n + 1].fs != states[n].fs
    ensures exists at, d, name :: RemovesOne(states[n].fs, states[n + 1].fs, d, name) && Anchored(states[n], at, d, name)
    ensures forall o :: o in states[n].opens ==> OpenedBefore(states, n, o)
  {
    hide Next, Way, InScope;
    RunKeepsInv(states, steps, n);
    OnlyRemovalsChange(states[n], steps[n]);
    var f := Top(states[n]);
    assert FrameOk(states[n], f);
    assert Anchored(states[n], f.at, f.fd, f.name);
    forall o | o in states[n].opens
      ensures OpenedBefore(states, n, o)
    {
      OpensWereReal(states, steps, n, o);
    }
  }

  // ----- what success means -----

  /** The outermost activation is about the target. */
  predicate BottomOk(s: State) {
    s.mode.Removing? ==> s.mode.stack != [] && s.mode.stack[0].at == s.parent && s.mode.stack[0].name == s.base
  }

  lemma BottomStep(s: State, step: Step)
    requires BottomOk(s) && Enabled(s, step)
    ensures BottomOk(Next(s, step))
  {
  }

  lemma {:induction false} RunKeepsBottom(states: seq<State>, steps: seq<Step>, n: nat)
    requires IsRun(states, steps) && n < |states|
    ensures BottomOk(states[n])
  {
    hide Enabled, Next;
    if n > 0 {
      RunKeepsBottom(states, steps, n - 1);
      BottomStep(states[n - 1], steps[n - 1]);
    }
  }

  /** The step removes the target's entry from a directory reached by the path's own names. */
  ghost predicate RemovesTarget(s: State, step: Step, s': State) {
    !step.Interfere? && exists d :: Way(s.opens, s.root, s.parent, d) && RemovesOne(s.fs, s'.fs, d, s.base)
  }

  lemma SuccessStep(s: State, step: Step)
    requires Inv(s) && BottomOk(s) && Enabled(s, step) && s.mode != Done(true) && Next(s, step).mode == Done(true)
    ensures RemovesTarget(s, step, Next(s, step))
  {
    hide Way;
    assert step.Unlink? || step.Rmdir?;
    assert |s.mode.stack| == 1 && FrameOk(s, s.mode.stack[0]);
    assert RemovesOne(s.fs, Next(s, step).fs, Top(s).fd, s.base);
  }

  /** In every run, whatever other processes do: success is reported only after the removal itself has removed the
      target's entry from a directory reached from the root by the path's own names. */
  lemma {:induction false} SuccessMeansRemoved(states: seq<State>, steps: seq<Step>, n: nat)
    requires IsRun(states, steps) && n <= |steps| && states[n].mode == Done(true)
    ensures exists k :: 0 <= k < n && RemovesTarget(states[k], steps[k], states[k + 1])
  {
    hide Enabled, Next, RemovesTarget;
    if n > 0 {
      if states[n - 1].mode == Done(true) {
        SuccessMeansRemoved(states, steps, n - 1);
        var k :| 0 <= k < n - 1 && RemovesTarget(states[k], steps[k], states[k + 1]);
      } else {
        RunKeepsInv(states, steps, n - 1);
        RunKeepsBottom(states, steps, n - 1);
        hide Inv;
        SuccessStep(states[n - 1], steps[n - 1]);
      }
    }
  }

  // ----- a run -----

  lemma Extend(states: seq<State>, steps: seq<Step>, step: Step) returns (states': seq<State>, steps': seq<Step>)
    requires IsRun(states, steps) && |states| == |steps| + 1 && Enabled(states[|steps|], step)
    ensures IsRun(states', steps') && |states'| == |steps'| + 1
    ensures states'[|steps'|] == Next(states[|steps|], step)
  {
    hide Enabled, Next;
    states', steps' := states + [Next(states[|steps|], step)], steps + [step];
  }

  /** A target with a link in it, and a directory elsewhere that the link points to. */
  const LINKED: Fs := map[0 := map["t" := Dir(1)], 1 := map["l" := Symlink(2)], 2 := map["keep" := File]]

  predicate At(s: State, fs: Fs, stack: seq<Frame>) {
    s.mode.Removing? && s.mode.stack == stack && s.fs == fs
  }

  lemma ToTarget() returns (states: seq<State>, steps: seq<Step>)
    ensures IsRun(states, steps) && |states| == |steps| + 1
    ensures At(states[|steps|], LINKED, [Frame(0, [], "t", Stat)])
  {
    states, steps := [Initial(0, [], "t", LINKED)], [];
    hide IsRun;
    states, steps := Extend(states, steps, ChainEnds);
    states, steps := Extend(states, steps, StatLeaf);
  }

  lemma ToListing() returns (states: seq<State>, steps: seq<Step>)
    ensures IsRun(states, steps) && |states| == |steps| + 1
    ensures At(states[|steps|], LINKED, [Frame(0, [], "t", Children(1, ["l"]))])
  {
    hide IsRun;
    states, steps := ToTarget();
    states, steps := Extend(states, steps, StatEntry);
    assert At(states[|steps|], LINKED, [Frame(0, [], "t", OpenDir)]);
    states, steps := Extend(states, steps, OpenEntry);
    assert At(states[|steps|], LINKED, [Frame(0, [], "t", ReadNames(1))]);
    states, steps := Extend(states, steps, List(["l"]));
  }

  lemma ToLinkGone() returns (states: seq<State>, steps: seq<Step>)
    ensures IsRun(states, steps) && |states| == |steps| + 1
    ensures At(states[|steps|], LINKED[1 := map[]], [Frame(0, [], "t", Children(1, []))])
  {
    hide IsRun;
    var outer := Frame(0, [], "t", Children(1, []));
    states, steps := ToListing();
    assert ["l"][1..] == [] && "l"[0] != "."[0];
    states, steps := Extend(states, steps, NextChild);
    assert At(states[|steps|], LINKED, [outer, Frame(1, [] + ["t"], "l", Stat)]);
    states, steps := Extend(states, steps, StatEntry);
    assert At(states[|steps|], LINKED, [outer, Frame(1, [] + ["t"], "l", UnlinkFile)]);
    states, steps := Extend(states, steps, Unlink);
    assert LINKED[1] - {"l"} == map[];
    assert [outer, Frame(1, [] + ["t"], "l", UnlinkFile)][..1] == [outer];
  }

  /** An undisturbed run removes the target and the link in it, and leaves what the link points to. */
  lemma RemovesTheLinkOnly() returns (states: seq<State>, steps: seq<Step>)
    ensures IsRun(states, steps) && |states| == |steps| + 1
    ensures states[|steps|].mode == Done(true)
    ensures states[|steps|].fs == map[0 := map[], 1 := map[], 2 := map["keep" := File]]
  {
    hide IsRun;
    states, steps := ToLinkGone();
    states, steps := Extend(states, steps, ChildrenEnd);
    assert At(states[|steps|], LINKED[1 := map[]], [Frame(0, [], "t", UnlinkDir)]);
    states, steps := Extend(states, steps, Rmdir);
    assert LINKED[0] - {"t"} == map[];
  }
}

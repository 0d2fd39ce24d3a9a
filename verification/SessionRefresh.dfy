/**
 Authenticated calls of the CLI (cmd/powermanage/main.go): any number of processes share one session file and
 refresh it under a file lock. A step is one atomic action of one process: reading the file, taking the lock,
 one refresh RPC, replacing the file by rename, releasing the lock. Control rotates refresh tokens: a
 successful refresh consumes the token presented and issues one never seen before.
 */
module SessionRefresh {
  import opened Text

  type Pid = nat
  type Token = nat

  const SKEW := 30   // seconds

  datatype Session = Session(access: Token, refresh: Token, expires: int)

  datatype Phase =
    | Starting                           // callAuthenticated entered
    | WantLock(force: bool)              // refreshSession, before flock
    | Locked(force: bool)                // lock held, session not yet read again
    | Calling(session: Session, force: bool)   // lock held, about to present the refresh token
    | Writing(session: Session, force: bool)   // lock held, new tokens in hand, file not yet replaced
    | Unlocking(session: Session, retried: bool)
    | UnlockingFailed
    | Using(session: Session, retried: bool)
    | Finished

  /** One refresh RPC: the token presented and whether control accepted it. */
  datatype Rpc = Rpc(token: Token, accepted: bool)

  datatype State = State(
    file: Session,
    lock: Option<Pid>,
    procs: map<Pid, Phase>,
    rpcs: seq<Rpc>,                      // history of refresh RPCs
    tokens: set<Token>,                  // history of refresh tokens issued
    dropAt: Option<nat>,                 // history: how many RPCs there were when granted tokens were first lost
    now: int)

  predicate Fresh(session: Session, now: int) {
    session.expires > now + SKEW
  }

  datatype Action =
    | Enter
    | ReadOutside                        // currentSession, not forced
    | TakeLock
    | ReadInside                         // refreshSession, under the lock
    | Refuse                             // the RPC fails and consumes nothing
    | Grant(access: Token, refresh: Token, expires: int)
    | GrantIncomplete                    // accepted, but the response is unusable
    | Write
    | WriteFails
    | Unlock
    | CallDone                           // the command's own RPC: any answer but "token expired"
    | CallExpired
    | Killed                             // the kernel releases the lock

  datatype Step = By(p: Pid, action: Action) | Tick(seconds: nat)

  predicate ActionEnabled(s: State, p: Pid, a: Action) {
    if a.Enter? then p !in s.procs
    else
      p in s.procs &&
      var phase := s.procs[p];
      match a
      case ReadOutside => phase.Starting?
      case TakeLock => phase.WantLock? && s.lock.None?
      case ReadInside => phase.Locked?
      case Refuse => phase.Calling?
      case Grant(_, refresh, _) => phase.Calling? && refresh !in s.tokens
      case GrantIncomplete => phase.Calling?
      case Write => phase.Writing?
      case WriteFails => phase.Writing?
      case Unlock => phase.Unlocking? || phase.UnlockingFailed?
      case CallDone => phase.Using?
      case CallExpired => phase.Using?
      case _ => true
  }

  function Go(s: State, p: Pid, phase: Phase): State {
    s.(procs := s.procs[p := phase])
  }

  /** Granted tokens are lost, after `count` RPCs. */
  function Drop(s: State, count: nat): Option<nat> {
    if s.dropAt.None? then Some(count) else s.dropAt
  }

  function ActionNext(s: State, p: Pid, a: Action): State
    requires ActionEnabled(s, p, a)
  {
    match a
    case Enter => Go(s, p, Starting)
    case ReadOutside => Go(s, p, if Fresh(s.file, s.now) then Using(s.file, false) else WantLock(false))
    case TakeLock => Go(s, p, Locked(s.procs[p].force)).(lock := Some(p))
    case ReadInside =>
      var force := s.procs[p].force;
      Go(s, p, if !force && Fresh(s.file, s.now) then Unlocking(s.file, false) else Calling(s.file, force))
    case Refuse => Go(s, p, UnlockingFailed).(rpcs := s.rpcs + [Rpc(s.procs[p].session.refresh, false)])
    case Grant(access, refresh, expires) =>
      Go(s, p, Writing(Session(access, refresh, expires), s.procs[p].force)).(
        rpcs := s.rpcs + [Rpc(s.procs[p].session.refresh, true)], tokens := s.tokens + {refresh})
    case GrantIncomplete =>
      Go(s, p, UnlockingFailed).(
        rpcs := s.rpcs + [Rpc(s.procs[p].session.refresh, true)], dropAt := Drop(s, |s.rpcs| + 1))
    case Write => Go(s, p, Unlocking(s.procs[p].session, s.procs[p].force)).(file := s.procs[p].session)
    case WriteFails => Go(s, p, UnlockingFailed).(dropAt := Drop(s, |s.rpcs|))
    case Unlock =>
      Go(s, p, if s.procs[p].Unlocking? then Using(s.procs[p].session, s.procs[p].retried) else Finished).(lock := None)
    case CallDone => Go(s, p, Finished)
    case CallExpired => Go(s, p, if s.procs[p].retried then Finished else WantLock(true))
    case Killed =>
      Go(s, p, Finished).(
        lock := if s.lock == Some(p) then None else s.lock,
        dropAt := if s.procs[p].Writing? then Drop(s, |s.rpcs|) else s.dropAt)
  }

  predicate Enabled(s: State, step: Step) {
    step.Tick? || ActionEnabled(s, step.p, step.action)
  }

  function Next(s: State, step: Step): State
    requires Enabled(s, step)
  {
    match step
    case Tick(seconds) => s.(now := s.now + seconds)
    case By(p, action) => ActionNext(s, p, action)
  }

  function Initial(file: Session, now: int): State {
    State(file, None, map[], [], {file.refresh}, None, now)
  }

  ghost predicate IsRun(file: Session, now: int, states: seq<State>, steps: seq<Step>) {
    && |states| == |steps| + 1 && states[0] == Initial(file, now)
    && forall i :: 0 <= i < |steps| ==> Enabled(states[i], steps[i]) && states[i + 1] == Next(states[i], steps[i])
  }

  // ----- the lock -----

  predicate Holds(phase: Phase) {
    phase.Locked? || phase.Calling? || phase.Writing? || phase.Unlocking? || phase.UnlockingFailed?
  }

  ghost predicate LockOk(lock: Option<Pid>, procs: map<Pid, Phase>) {
    && (forall p :: p in procs && Holds(procs[p]) ==> lock == Some(p))
    && (lock.Some? ==> lock.value in procs && Holds(procs[lock.value]))
  }

  /** A process moves on: its new phase holds the lock exactly if the lock says so. */
  lemma LockMove(lock: Option<Pid>, procs: map<Pid, Phase>, p: Pid, phase: Phase, lock': Option<Pid>)
    requires LockOk(lock, procs)
    requires Holds(phase) <==> lock' == Some(p)
    requires lock' == lock || (lock'.None? && lock == Some(p)) || (lock.None? && lock' == Some(p))
    ensures LockOk(lock', procs[p := phase])
  {
  }

  lemma LockStep(s: State, step: Step)
    requires LockOk(s.lock, s.procs) && Enabled(s, step)
    ensures LockOk(Next(s, step).lock, Next(s, step).procs)
  {
    if step.By? {
      HolderKnown(s, step.p);
      var s' := Next(s, step);
      hide LockOk;
      LockMove(s.lock, s.procs, step.p, s'.procs[step.p], s'.lock);
    }
  }

  lemma HolderKnown(s: State, p: Pid)
    requires LockOk(s.lock, s.procs)
    ensures p in s.procs && Holds(s.procs[p]) <==> s.lock == Some(p)
  {
  }

  // ----- refresh tokens -----

  ghost predicate Used(rpcs: seq<Rpc>, token: Token) {
    Rpc(token, true) in rpcs
  }

  /** No token is presented again once control has accepted it. */
  ghost predicate NoReuse(rpcs: seq<Rpc>) {
    forall i, j :: 0 <= i < j < |rpcs| && rpcs[i].accepted ==> rpcs[j].token != rpcs[i].token
  }

  /** What the holder of the lock knows about the file's token, as long as no granted tokens were lost. */
  ghost predicate HolderOk(s: State, phase: Phase) {
    if phase.Writing? then
      !Used(s.rpcs, phase.session.refresh) && Used(s.rpcs, s.file.refresh)
    else
      !Used(s.rpcs, s.file.refresh)
  }

  ghost predicate TokensOk(s: State) {
    && s.file.refresh in s.tokens
    && (forall r :: r in s.rpcs ==> r.token in s.tokens)
    && (forall p :: p in s.procs && s.procs[p].Calling? ==> s.procs[p].session == s.file)
    && (forall p :: p in s.procs && s.procs[p].Writing? ==>
          s.procs[p].session.refresh in s.tokens && (s.dropAt.Some? ==> s.dropAt.value < |s.rpcs|))
    && (if s.dropAt.None? then UndroppedOk(s) else DroppedOk(s.rpcs, s.dropAt.value, s.file.refresh))
  }

  ghost predicate UndroppedOk(s: State) {
    && NoReuse(s.rpcs)
    && (s.lock.None? ==> !Used(s.rpcs, s.file.refresh))
    && (s.lock.Some? && s.lock.value in s.procs ==> HolderOk(s, s.procs[s.lock.value]))
  }

  /** After a loss the file still holds the token that was accepted, until an RPC presents it again. */
  ghost predicate DroppedOk(rpcs: seq<Rpc>, at: nat, token: Token) {
    && at <= |rpcs|
    && (|rpcs| == at ==> NoReuse(rpcs) && Used(rpcs, token))
    && (|rpcs| > at ==> !NoReuse(rpcs))
  }

  lemma NoReuseGrows(rpcs: seq<Rpc>, r: Rpc)
    requires NoReuse(rpcs) && !Used(rpcs, r.token)
    ensures NoReuse(rpcs + [r])
  {
    var rpcs' := rpcs + [r];
    forall i, j | 0 <= i < j < |rpcs'| && rpcs'[i].accepted
      ensures rpcs'[j].token != rpcs'[i].token
    {
      if j == |rpcs| {
        assert rpcs'[i] in rpcs;
      }
    }
  }

  lemma ReuseStays(rpcs: seq<Rpc>, r: Rpc)
    requires !NoReuse(rpcs) || Used(rpcs, r.token)
    ensures !NoReuse(rpcs + [r])
  {
    var rpcs' := rpcs + [r];
    if !NoReuse(rpcs) {
      var i, j :| 0 <= i < j < |rpcs| && rpcs[i].accepted && rpcs[j].token == rpcs[i].token;
      assert rpcs'[i] == rpcs[i] && rpcs'[j] == rpcs[j];
    } else {
      var i :| 0 <= i < |rpcs| && rpcs[i] == Rpc(r.token, true);
      assert rpcs'[i] == rpcs[i] && rpcs'[|rpcs|] == r;
    }
  }

  lemma TokensRpc(s: State, p: Pid, a: Action)
    requires LockOk(s.lock, s.procs) && TokensOk(s) && ActionEnabled(s, p, a) && (a.Refuse? || a.Grant? || a.GrantIncomplete?)
    ensures TokensOk(ActionNext(s, p, a))
  {
    hide NoReuse;
    assert s.lock == Some(p);
    var r := Rpc(s.file.refresh, !a.Refuse?);
    if s.dropAt.None? {
      NoReuseGrows(s.rpcs, r);
    } else {
      ReuseStays(s.rpcs, r);
    }
  }

  lemma TokensQuiet(s: State, p: Pid, a: Action)
    requires LockOk(s.lock, s.procs) && TokensOk(s) && ActionEnabled(s, p, a) && !a.Refuse? && !a.Grant? && !a.GrantIncomplete?
    ensures TokensOk(ActionNext(s, p, a))
  {
    hide NoReuse, Used;
  }

  ghost predicate Inv(s: State) {
    LockOk(s.lock, s.procs) && TokensOk(s)
  }

  lemma InvStep(s: State, step: Step)
    requires Inv(s) && Enabled(s, step)
    ensures Inv(Next(s, step))
  {
    hide LockOk, TokensOk, ActionNext, ActionEnabled;
    LockStep(s, step);
    match step
    case Tick(_) => TokensTick(s, step.seconds);
    case By(p, a) =>
      if a.Refuse? || a.Grant? || a.GrantIncomplete? {
        TokensRpc(s, p, a);
      } else {
        TokensQuiet(s, p, a);
      }
  }

  lemma TokensTick(s: State, seconds: nat)
    requires TokensOk(s)
    ensures TokensOk(s.(now := s.now + seconds))
  {
    hide NoReuse, Used;
  }

  lemma {:induction false} RunKeepsInv(file: Session, now: int, states: seq<State>, steps: seq<Step>, n: nat)
    requires IsRun(file, now, states, steps) && n < |states|
    ensures Inv(states[n])
  {
    hide Enabled, Next;
    if n > 0 {
      RunKeepsInv(file, now, states, steps, n - 1);
      InvStep(states[n - 1], steps[n - 1]);
    }
  }

  /** In every run of any number of processes, forced refreshes included, a refresh token is presented again
      after control accepted it exactly if some refresh RPC is made after granted tokens were lost (the write
      failed, the response was unusable, or the process died between the two); and at most one process at a
      time is refreshing. */
  lemma TokensNeverReplayed(file: Session, now: int, states: seq<State>, steps: seq<Step>, n: nat)
    requires IsRun(file, now, states, steps) && n < |states|
    ensures var s := states[n];
            && (NoReuse(s.rpcs) <==> s.dropAt.None? || |s.rpcs| == s.dropAt.value)
            && (forall p, q :: p in s.procs && q in s.procs && Holds(s.procs[p]) && Holds(s.procs[q]) ==> p == q)
  {
    hide Enabled, Next, NoReuse, Used;
    RunKeepsInv(file, now, states, steps, n);
  }

  // ----- one refresh for everyone -----

  /** Steps of a run in which the clock stands still, control's answers are usable and last beyond the skew,
      writes succeed, no process dies and no call is told that its token expired. */
  predicate CalmStep(step: Step, now: int) {
    step.By? &&
    !step.action.GrantIncomplete? && !step.action.WriteFails? && !step.action.CallExpired? && !step.action.Killed?
    && (step.action.Grant? ==> step.action.expires > now + SKEW)
  }

  function Accepted(rpcs: seq<Rpc>): nat {
    if rpcs == [] then 0 else Accepted(rpcs[..|rpcs| - 1]) + if rpcs[|rpcs| - 1].accepted then 1 else 0
  }

  /** Either nothing was granted and the file is the stale one, or one refresh was granted and its session is in
      the file or about to be. */
  ghost predicate CalmOk(s: State, file: Session, now: int) {
    && s.now == now
    && (forall p :: p in s.procs ==> CalmPhase(s, s.procs[p]))
    && ((Accepted(s.rpcs) == 0 && s.file == file)
        || (Accepted(s.rpcs) == 1 && (Fresh(s.file, now) || (s.lock.Some? && s.lock.value in s.procs && s.procs[s.lock.value].Writing?))))
  }

  ghost predicate CalmPhase(s: State, phase: Phase) {
    && (phase.WantLock? || phase.Locked? || phase.Calling? || phase.Writing? ==> !phase.force)
    && (phase.Calling? ==> Accepted(s.rpcs) == 0)
    && (phase.Writing? || phase.Unlocking? || phase.Using? ==> Fresh(phase.session, s.now) && Accepted(s.rpcs) == 1)
  }

  lemma CalmStart(s: State, file: Session, now: int, p: Pid, a: Action)
    requires CalmOk(s, file, now) && LockOk(s.lock, s.procs) && !Fresh(file, now)
    requires ActionEnabled(s, p, a) && CalmStep(By(p, a), now) && !a.Refuse? && !a.Grant? && !a.Write? && !a.Unlock?
    ensures CalmOk(ActionNext(s, p, a), file, now)
  {
    hide Accepted;
  }

  lemma CalmEnd(s: State, file: Session, now: int, p: Pid, a: Action)
    requires CalmOk(s, file, now) && LockOk(s.lock, s.procs) && !Fresh(file, now)
    requires ActionEnabled(s, p, a) && (a.Write? || a.Unlock?)
    ensures CalmOk(ActionNext(s, p, a), file, now)
  {
    hide Accepted;
    assert s.lock == Some(p);
  }

  lemma CalmRpc(s: State, file: Session, now: int, p: Pid, a: Action)
    requires CalmOk(s, file, now) && LockOk(s.lock, s.procs) && !Fresh(file, now)
    requires ActionEnabled(s, p, a) && CalmStep(By(p, a), now) && (a.Refuse? || a.Grant?)
    ensures CalmOk(ActionNext(s, p, a), file, now)
  {
    assert s.lock == Some(p);
    var s' := ActionNext(s, p, a);
    assert s'.rpcs[..|s.rpcs|] == s.rpcs;
  }

  /** Any number of ordinary callers that find one expired session make exactly one successful refresh between
      them: none is granted before anyone gets a session, one is when someone has, never a second, and every
      session a caller works with outlives the skew. */
  lemma {:induction false} OneRefreshForAll(file: Session, now: int, states: seq<State>, steps: seq<Step>, n: nat)
    requires IsRun(file, now, states, steps) && n < |states| && !Fresh(file, now)
    requires forall i :: 0 <= i < |steps| ==> CalmStep(steps[i], now)
    ensures CalmOk(states[n], file, now)
    ensures Accepted(states[n].rpcs) <= 1
    ensures forall p :: p in states[n].procs && states[n].procs[p].Using? ==>
              Accepted(states[n].rpcs) == 1 && Fresh(states[n].procs[p].session, now)
  {
    hide Enabled, Next, CalmStep, CalmPhase;
    if n == 0 {
    } else {
      OneRefreshForAll(file, now, states, steps, n - 1);
      RunKeepsInv(file, now, states, steps, n - 1);
      CalmOne(states[n - 1], file, now, steps[n - 1]);
    }
    CalmMeaning(states[n], file, now);
  }

  lemma CalmMeaning(s: State, file: Session, now: int)
    requires CalmOk(s, file, now)
    ensures Accepted(s.rpcs) <= 1
    ensures forall p :: p in s.procs && s.procs[p].Using? ==> Accepted(s.rpcs) == 1 && Fresh(s.procs[p].session, now)
  {
    hide Accepted;
  }

  lemma CalmOne(s: State, file: Session, now: int, step: Step)
    requires CalmOk(s, file, now) && LockOk(s.lock, s.procs) && !Fresh(file, now)
    requires Enabled(s, step) && CalmStep(step, now)
    ensures CalmOk(Next(s, step), file, now)
  {
    hide CalmOk, LockOk, ActionNext, ActionEnabled;
    var p, a := step.p, step.action;
    if a.Refuse? || a.Grant? {
      CalmRpc(s, file, now, p, a);
    } else if a.Write? || a.Unlock? {
      CalmEnd(s, file, now, p, a);
    } else {
      CalmStart(s, file, now, p, a);
    }
  }

  // ----- concrete continuations -----

  lemma Extend(file: Session, now: int, states: seq<State>, steps: seq<Step>, step: Step)
    returns (states': seq<State>, steps': seq<Step>)
    requires IsRun(file, now, states, steps) && Enabled(states[|steps|], step)
    ensures |steps'| == |steps| + 1 && IsRun(file, now, states', steps')
    ensures |states| == |steps| + 1 && states' == states + [Next(states[|steps|], step)]
  {
    hide Enabled, Next;
    states', steps' := states + [Next(states[|steps|], step)], steps + [step];
  }

  /** A new process that finds the file stale and the lock free, up to the point where it presents the token. */
  lemma Approach(file: Session, now: int, states: seq<State>, steps: seq<Step>, p: Pid)
    returns (states': seq<State>, steps': seq<Step>)
    requires IsRun(file, now, states, steps) && |states| == |steps| + 1
    requires var s := states[|steps|]; !Fresh(s.file, s.now) && s.lock.None? && p !in s.procs
    ensures IsRun(file, now, states', steps') && |states'| == |steps'| + 1
    ensures var s := states[|steps|];
            states'[|steps'|] == s.(lock := Some(p), procs := s.procs[p := Calling(s.file, false)])
  {
    hide IsRun;
    var s := states[|steps|];
    states', steps' := Extend(file, now, states, steps, By(p, Enter));
    states', steps' := Extend(file, now, states', steps', By(p, ReadOutside));
    assert states'[|steps'|] == s.(procs := s.procs[p := WantLock(false)]);
    states', steps' := Extend(file, now, states', steps', By(p, TakeLock));
    states', steps' := Extend(file, now, states', steps', By(p, ReadInside));
  }

  /** The holder of the lock, once it has read the file: control grants a session, which is written and used. */
  lemma GrantedAndUsed(file: Session, now: int, states: seq<State>, steps: seq<Step>, p: Pid, granted: Session)
    returns (states': seq<State>, steps': seq<Step>)
    requires IsRun(file, now, states, steps) && |states| == |steps| + 1
    requires var s := states[|steps|]; p in s.procs && s.procs[p].Calling? && granted.refresh !in s.tokens
    ensures IsRun(file, now, states', steps') && |states'| == |steps'| + 1
    ensures var s := states[|steps|];
            states'[|steps'|] == s.(file := granted, lock := None, procs := s.procs[p := Using(granted, s.procs[p].force)],
                                    rpcs := s.rpcs + [Rpc(s.procs[p].session.refresh, true)], tokens := s.tokens + {granted.refresh})
  {
    hide IsRun;
    states', steps' := Extend(file, now, states, steps, By(p, Grant(granted.access, granted.refresh, granted.expires)));
    states', steps' := Extend(file, now, states', steps', By(p, Write));
    states', steps' := Extend(file, now, states', steps', By(p, Unlock));
  }

  /** Wherever a run has got to, a process that finds the file stale and the lock free can refresh: it ends up
      using the session control granted, which is also what the file then holds, with the lock free again. */
  lemma RefreshGoesThrough(file: Session, now: int, states: seq<State>, steps: seq<Step>, p: Pid, granted: Session)
    returns (states': seq<State>, steps': seq<Step>)
    requires IsRun(file, now, states, steps) && |states| == |steps| + 1
    requires var s := states[|steps|]; !Fresh(s.file, s.now) && s.lock.None? && p !in s.procs && granted.refresh !in s.tokens
    ensures IsRun(file, now, states', steps') && |states'| == |steps'| + 1
    ensures var s := states[|steps|];
            states'[|steps'|] == s.(file := granted, procs := s.procs[p := Using(granted, false)],
                                    rpcs := s.rpcs + [Rpc(s.file.refresh, true)], tokens := s.tokens + {granted.refresh})
  {
    hide IsRun;
    states', steps' := Approach(file, now, states, steps, p);
    states', steps' := GrantedAndUsed(file, now, states', steps', p, granted);
  }

  /** One process that refreshes and fails to write. */
  lemma Attempt(file: Session, now: int, states: seq<State>, steps: seq<Step>, p: Pid, granted: Token)
    returns (states': seq<State>, steps': seq<Step>)
    requires IsRun(file, now, states, steps) && |states| == |steps| + 1
    requires var s := states[|steps|]; !Fresh(s.file, s.now) && s.lock.None? && p !in s.procs && granted !in s.tokens
    ensures IsRun(file, now, states', steps')
    ensures var s, s' := states[|steps|], states'[|steps'|];
            && s'.rpcs == s.rpcs + [Rpc(s.file.refresh, true)] && s'.file == s.file && s'.now == s.now && s'.lock.None?
            && s'.procs.Keys == s.procs.Keys + {p} && s'.tokens == s.tokens + {granted}
  {
    states', steps' := Approach(file, now, states, steps, p);
    states', steps' := Extend(file, now, states', steps', By(p, Grant(0, granted, now)));
    states', steps' := Extend(file, now, states', steps', By(p, WriteFails));
    states', steps' := Extend(file, now, states', steps', By(p, Unlock));
  }

  /** A replay does happen: writing the new session fails, and the next refresh presents the used token. */
  lemma DroppedTokensAreReplayed() returns (states: seq<State>, steps: seq<Step>)
    ensures IsRun(Session(1, 2, 0), 100, states, steps)
    ensures !NoReuse(states[|steps|].rpcs)
  {
    var file, now := Session(1, 2, 0), 100;
    states, steps := [Initial(file, now)], [];
    states, steps := Attempt(file, now, states, steps, 0, 3);
    states, steps := Attempt(file, now, states, steps, 1, 4);
    var rpcs := states[|steps|].rpcs;
    assert rpcs[0].accepted && rpcs[1].token == rpcs[0].token;
  }
}

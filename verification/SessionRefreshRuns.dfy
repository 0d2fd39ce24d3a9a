/**
 Where the session a command works with comes from, how often a command is tried, and that a forced refresh
 goes through (cmd/powermanage/main.go).
 */
module SessionRefreshRuns {
  import opened Text
  import opened SessionRefresh

  // ----- where a session comes from -----

  /** One of the first `n` steps is a call of `p` told that its token expired. */
  ghost predicate Expired(steps: seq<Step>, n: nat, p: Pid)
    requires n <= |steps|
  {
    exists j :: 0 <= j < n && steps[j] == By(p, CallExpired)
  }

  predicate Grants(step: Step, p: Pid, session: Session) {
    step == By(p, Grant(session.access, session.refresh, session.expires))
  }

  /** One of the first `n` steps is control granting exactly this session to `p`. */
  ghost predicate Granted(steps: seq<Step>, n: nat, p: Pid, session: Session)
    requires n <= |steps|
  {
    exists k :: 0 <= k < n && Grants(steps[k], p, session)
  }

  /** The same, and the grant comes after a call of `p` was told that its token expired. */
  ghost predicate GrantedAgain(steps: seq<Step>, n: nat, p: Pid, session: Session)
    requires n <= |steps|
  {
    exists k :: 0 <= k < n && Grants(steps[k], p, session) && Expired(steps, k, p)
  }

  /** One of the first `n` steps is `p` writing the file, after a grant of this session to it. */
  ghost predicate Saved(steps: seq<Step>, n: nat, p: Pid, session: Session)
    requires n <= |steps|
  {
    exists k :: 0 <= k < n && steps[k] == By(p, Write) && Granted(steps, k, p, session)
  }

  /** At one of the first `n` steps `p` read this session from the file, more than the skew before its end. */
  ghost predicate ReadFresh(states: seq<State>, steps: seq<Step>, n: nat, p: Pid, session: Session)
    requires n <= |steps| < |states|
  {
    exists k :: 0 <= k < n && (steps[k] == By(p, ReadOutside) || steps[k] == By(p, ReadInside))
      && states[k].file == session && Fresh(session, states[k].now)
  }

  ghost predicate Origin(states: seq<State>, steps: seq<Step>, n: nat, p: Pid, phase: Phase)
    requires n <= |steps| < |states|
  {
    match phase
    case WantLock(force) => force ==> Expired(steps, n, p)
    case Locked(force) => force ==> Expired(steps, n, p)
    case Calling(_, force) => force ==> Expired(steps, n, p)
    case Writing(session, force) => Granted(steps, n, p, session) && (force ==> GrantedAgain(steps, n, p, session))
    case Unlocking(session, retried) => Obtained(states, steps, n, p, session, retried)
    case Using(session, retried) => Obtained(states, steps, n, p, session, retried)
    case _ => true
  }

  ghost predicate Obtained(states: seq<State>, steps: seq<Step>, n: nat, p: Pid, session: Session, retried: bool)
    requires n <= |steps| < |states|
  {
    if retried then GrantedAgain(steps, n, p, session) && Saved(steps, n, p, session)
    else Saved(steps, n, p, session) || ReadFresh(states, steps, n, p, session)
  }

  lemma OriginStays(states: seq<State>, steps: seq<Step>, n: nat, p: Pid, phase: Phase)
    requires n < |steps| < |states| && Origin(states, steps, n, p, phase)
    ensures Origin(states, steps, n + 1, p, phase)
  {
  }

  lemma OriginMoves(states: seq<State>, steps: seq<Step>, n: nat, p: Pid, a: Action)
    requires n < |steps| < |states| && steps[n] == By(p, a) && ActionEnabled(states[n], p, a)
    requires !a.Enter? ==> Origin(states, steps, n, p, states[n].procs[p])
    ensures Origin(states, steps, n + 1, p, ActionNext(states[n], p, a).procs[p])
  {
    if a.Grant? {
      assert Grants(steps[n], p, ActionNext(states[n], p, a).procs[p].session);
    } else if !a.Enter? {
      OriginStays(states, steps, n, p, states[n].procs[p]);
    }
  }

  lemma StepMovesOne(s: State, p: Pid, a: Action, q: Pid)
    requires ActionEnabled(s, p, a)
    ensures var procs := ActionNext(s, p, a).procs;
            p in procs && (q != p ==> (q in procs <==> q in s.procs) && (q in procs ==> procs[q] == s.procs[q]))
  {
  }

  /** In every run, whatever session a process works with was obtained as it should be. One it works with after
      its call was told that the token expired was granted to that process by control after that answer: the
      file is not believed, however fresh it looks. Any other was granted to the process, or read by it from
      the file more than the skew before its end. No granted session is used before the process has written it
      to the file. */
  lemma {:induction false} SessionsAreObtained(file: Session, now: int, states: seq<State>, steps: seq<Step>, n: nat, p: Pid)
    requires IsRun(file, now, states, steps) && n < |states| && p in states[n].procs
    ensures Origin(states, steps, n, p, states[n].procs[p])
    ensures states[n].procs[p].Using? ==>
              var phase := states[n].procs[p];
              if phase.retried then GrantedAgain(steps, n, p, phase.session) && Saved(steps, n, p, phase.session)
              else Saved(steps, n, p, phase.session) || ReadFresh(states, steps, n, p, phase.session)
  {
    hide ActionNext, ActionEnabled, Expired, Granted, GrantedAgain, Saved, ReadFresh;
    if n > 0 {
      var s, step := states[n - 1], steps[n - 1];
      if step.By? {
        StepMovesOne(s, step.p, step.action, p);
      }
      if step.By? && step.p == p {
        assert !step.action.Enter? ==> p in s.procs by { EnabledHasProcess(s, p, step.action); }
        if p in s.procs {
          SessionsAreObtained(file, now, states, steps, n - 1, p);
        }
        OriginMoves(states, steps, n - 1, p, step.action);
      } else {
        SessionsAreObtained(file, now, states, steps, n - 1, p);
        OriginStays(states, steps, n - 1, p, s.procs[p]);
      }
    }
  }

  lemma EnabledHasProcess(s: State, p: Pid, a: Action)
    requires ActionEnabled(s, p, a)
    ensures a.Enter? <==> p !in s.procs
  {
  }

  // ----- how often a command is tried -----

  predicate IsTry(step: Step, p: Pid) {
    step == By(p, CallDone) || step == By(p, CallExpired)
  }

  /** How often `p` made the command's own call in the first `n` steps. */
  function Tries(steps: seq<Step>, n: nat, p: Pid): nat
    requires n <= |steps|
  {
    if n == 0 then 0 else Tries(steps, n - 1, p) + if IsTry(steps[n - 1], p) then 1 else 0
  }

  /** How often a process in this phase has made its call; a finished one may have made it less often. */
  predicate TriesOk(tries: nat, phase: Phase) {
    match phase
    case Starting => tries == 0
    case WantLock(force) => tries == if force then 1 else 0
    case Locked(force) => tries == if force then 1 else 0
    case Calling(_, force) => tries == if force then 1 else 0
    case Writing(_, force) => tries == if force then 1 else 0
    case Unlocking(_, retried) => tries == if retried then 1 else 0
    case Using(_, retried) => tries == if retried then 1 else 0
    case UnlockingFailed => tries <= 1
    case Finished => tries <= 2
  }

  lemma TriesMove(s: State, p: Pid, a: Action, tries: nat)
    requires ActionEnabled(s, p, a) && if a.Enter? then tries == 0 else TriesOk(tries, s.procs[p])
    ensures TriesOk(tries + if IsTry(By(p, a), p) then 1 else 0, ActionNext(s, p, a).procs[p])
  {
  }

  /** In every run a command is tried at most twice, and a second time only after the first was told that its
      token expired and a new one was granted. */
  lemma {:induction false} TriedAtMostTwice(file: Session, now: int, states: seq<State>, steps: seq<Step>, n: nat, p: Pid)
    requires IsRun(file, now, states, steps) && n < |states|
    ensures Tries(steps, n, p) <= 2
    ensures if p in states[n].procs then TriesOk(Tries(steps, n, p), states[n].procs[p]) else Tries(steps, n, p) == 0
    ensures p in states[n].procs && states[n].procs[p].Using? && Tries(steps, n, p) == 1 ==>
              GrantedAgain(steps, n, p, states[n].procs[p].session)
  {
    hide ActionNext, ActionEnabled, GrantedAgain, Origin, Granted, Saved, ReadFresh;
    if p in states[n].procs {
      SessionsAreObtained(file, now, states, steps, n, p);
    }
    if n > 0 {
      var s, step := states[n - 1], steps[n - 1];
      TriedAtMostTwice(file, now, states, steps, n - 1, p);
      if step.By? {
        StepMovesOne(s, step.p, step.action, p);
        EnabledHasProcess(s, step.p, step.action);
        if step.p == p {
          TriesMove(s, p, step.action, Tries(steps, n - 1, p));
        }
      }
    }
  }

  // ----- when the file is believed -----

  /** Outside the lock and inside it, unless forced, a session in the file is used as it is exactly if more than
      thirty seconds are left of it. */
  lemma ThirtySecondsLeft(s: State, p: Pid)
    ensures ActionEnabled(s, p, ReadOutside) ==>
              ActionNext(s, p, ReadOutside) == Go(s, p, if s.file.expires - s.now > 30 then Using(s.file, false) else WantLock(false))
    ensures ActionEnabled(s, p, ReadInside) ==>
              var force := s.procs[p].force;
              ActionNext(s, p, ReadInside) ==
              Go(s, p, if !force && s.file.expires - s.now > 30 then Unlocking(s.file, false) else Calling(s.file, force))
  {
  }

  // ----- a forced refresh goes through -----

  /** From the forced wait for the lock on, with the lock free and whatever the file holds. */
  lemma ForcedFromWait(file: Session, now: int, states: seq<State>, steps: seq<Step>, p: Pid, granted: Session)
    returns (states': seq<State>, steps': seq<Step>)
    requires IsRun(file, now, states, steps) && |states| == |steps| + 1
    requires var s := states[|steps|];
             p in s.procs && s.procs[p] == WantLock(true) && s.lock.None? && granted.refresh !in s.tokens
    ensures IsRun(file, now, states', steps') && |states'| == |steps'| + 1
    ensures var s := states[|steps|];
            states'[|steps'|] == s.(file := granted, procs := s.procs[p := Using(granted, true)],
                                    rpcs := s.rpcs + [Rpc(s.file.refresh, true)], tokens := s.tokens + {granted.refresh})
  {
    hide IsRun;
    var s := states[|steps|];
    states', steps' := Extend(file, now, states, steps, By(p, TakeLock));
    states', steps' := Extend(file, now, states', steps', By(p, ReadInside));
    assert states'[|steps'|] == s.(lock := Some(p), procs := s.procs[p := Calling(s.file, true)]);
    states', steps' := GrantedAndUsed(file, now, states', steps', p, granted);
  }

  /** Wherever a run has got to with the lock free, a process whose first call is told that its token expired
      can refresh, even while the file still looks fresh: it ends up retrying with the session control granted
      for the file's refresh token, which is also what the file then holds, with the lock free again. */
  lemma ForcedRefreshGoesThrough(file: Session, now: int, states: seq<State>, steps: seq<Step>, p: Pid, granted: Session)
    returns (states': seq<State>, steps': seq<Step>)
    requires IsRun(file, now, states, steps) && |states| == |steps| + 1
    requires var s := states[|steps|];
             p in s.procs && s.procs[p].Using? && !s.procs[p].retried && s.lock.None? && granted.refresh !in s.tokens
    ensures IsRun(file, now, states', steps') && |states'| == |steps'| + 1
    ensures var s := states[|steps|];
            states'[|steps'|] == s.(file := granted, procs := s.procs[p := Using(granted, true)],
                                    rpcs := s.rpcs + [Rpc(s.file.refresh, true)], tokens := s.tokens + {granted.refresh})
  {
    hide IsRun;
    states', steps' := Extend(file, now, states, steps, By(p, CallExpired));
    states', steps' := ForcedFromWait(file, now, states', steps', p, granted);
  }
}

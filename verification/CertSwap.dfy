/**
 The staged swap of an EAP-TLS certificate directory (sys/network/networkmanager.go, sys/network/certs.go):
 new files go to `<dir>.tmp`, nmcli is pointed at the final paths, then live moves to `.old`, `.tmp` moves to
 live, and `.old` is deleted, with a rollback rename if the install fails. Any call may fail. Every call
 records the state it leaves, so a claim about the trace is a claim about every intermediate state.
 */
module CertSwap {
  import opened Text

  type Certs = map<string, string>

  /** The three sibling directories; `None` is a directory that does not exist. */
  datatype Store = Store(live: Option<Certs>, tmp: Option<Certs>, previous: Option<Certs>)

  datatype Profile = Profile(caCert: string, clientCert: string, clientKey: string)

  const CA := "ca.pem"
  const CLIENT := "client.pem"
  const KEY := "client-key.pem"

  /** The files writeCerts goes through, in order. */
  function Files(p: Profile): seq<(string, string)> {
    [(CA, p.caCert), (CLIENT, p.clientCert), (KEY, p.clientKey)]
  }

  /** What a directory holds after the first `n` files were written into it: empty contents are skipped. */
  function Overlay(base: Certs, files: seq<(string, string)>, n: nat): Certs
    requires n <= |files|
  {
    if n == 0 then base
    else
      var (name, content) := files[n - 1];
      var before := Overlay(base, files, n - 1);
      if content == "" then before else before[name := content]
  }

  /** The complete new certificates of a profile. */
  function NewCerts(p: Profile): Certs {
    Overlay(map[], Files(p), 3)
  }

  /** What writeCerts leaves in a directory that held `stale`. */
  function Staged(stale: Option<Certs>, p: Profile): Certs {
    Overlay(if stale.Some? then stale.value else map[], Files(p), 3)
  }

  /** No moment without a usable set: the certificates that were live are complete in live or in `.old`, or
      the staged ones are complete in live. */
  predicate NeverWithout(s0: Store, s: Store, p: Profile) {
    || (s0.live.Some? && (s.live == s0.live || s.previous == s0.live))
    || s.live == Some(Staged(s0.tmp, p))
    || (s0.live.None? && s.live.None?)
  }

  /** A `.old` directory left behind by an earlier run keeps live from being moved there. */
  predicate StaleBackup(s: Store) {
    s.live.Some? && s.previous.Some? && s.previous.value != map[]
  }

  /** The staging directory can be made and every certificate of the profile written to it. */
  predicate CanStage(p: Profile, fails: set<Syscall>) {
    Mkdir !in fails && forall i :: 0 <= i < |Files(p)| && Files(p)[i].1 != "" ==> Write(Files(p)[i].0) !in fails
  }

  /** The calls of a swap. Which of them fail for a reason of the host's own is up to the host. */
  datatype Syscall =
    | Mkdir | Write(name: string) | Nmcli | Stat
    | BackupRename | InstallRename | RollbackRename | RemoveTmp | RemoveOld

  class Directories {
    var st: Store
    ghost var trace: seq<Store>

    method MkdirAllTmp(fails: set<Syscall>) returns (ok: bool)
      modifies this
      ensures st == old(st) || (old(st).tmp.None? && st == old(st).(tmp := Some(map[])))
      ensures ok <==> Mkdir !in fails
      ensures ok ==> st.tmp.Some?
      ensures trace == old(trace) + [st]
    {
      ok := Mkdir !in fails;
      var made := *;
      if (ok || made) && st.tmp.None? {
        st := st.(tmp := Some(map[]));
      }
      trace := trace + [st];
    }

    /** os.WriteFile truncates first: a failure may leave the file with any content, or not touched at all. */
    method WriteTmp(name: string, content: string, fails: set<Syscall>) returns (ok: bool)
      requires st.tmp.Some?
      modifies this
      ensures st.tmp.Some? && st == old(st).(tmp := st.tmp)
      ensures ok <==> Write(name) !in fails
      ensures ok ==> st.tmp.value == old(st).tmp.value[name := content]
      ensures trace == old(trace) + [st]
    {
      ok := Write(name) !in fails;
      var touched := *;
      var partial: string := *;
      if ok {
        st := st.(tmp := Some(st.tmp.value[name := content]));
      } else if touched {
        st := st.(tmp := Some(st.tmp.value[name := partial]));
      }
      trace := trace + [st];
    }

    /** rename(2) of a directory: the target must be absent or empty. */
    method RenameLiveToOld(fails: set<Syscall>) returns (ok: bool)
      modifies this
      ensures ok <==> BackupRename !in fails && old(st).live.Some? && (old(st).previous.None? || old(st).previous.value == map[])
      ensures st == if ok then old(st).(previous := old(st).live, live := None) else old(st)
      ensures trace == old(trace) + [st]
    {
      ok := BackupRename !in fails && st.live.Some? && (st.previous.None? || st.previous.value == map[]);
      if ok {
        st := st.(previous := st.live, live := None);
      }
      trace := trace + [st];
    }

    method RenameTmpToLive(fails: set<Syscall>) returns (ok: bool)
      modifies this
      ensures ok <==> InstallRename !in fails && old(st).tmp.Some? && (old(st).live.None? || old(st).live.value == map[])
      ensures st == if ok then old(st).(live := old(st).tmp, tmp := None) else old(st)
      ensures trace == old(trace) + [st]
    {
      ok := InstallRename !in fails && st.tmp.Some? && (st.live.None? || st.live.value == map[]);
      if ok {
        st := st.(live := st.tmp, tmp := None);
      }
      trace := trace + [st];
    }

    method RenameOldToLive(fails: set<Syscall>) returns (ok: bool)
      modifies this
      ensures ok <==> RollbackRename !in fails && old(st).previous.Some? && (old(st).live.None? || old(st).live.value == map[])
      ensures st == if ok then old(st).(live := old(st).previous, previous := None) else old(st)
      ensures trace == old(trace) + [st]
    {
      ok := RollbackRename !in fails && st.previous.Some? && (st.live.None? || st.live.value == map[]);
      if ok {
        st := st.(live := st.previous, previous := None);
      }
      trace := trace + [st];
    }

    /** os.RemoveAll: a failure may leave anything behind. */
    method RemoveAllTmp(fails: set<Syscall>)
      modifies this
      ensures st == old(st).(tmp := st.tmp) && trace == old(trace) + [st]
      ensures RemoveTmp !in fails ==> st.tmp.None?
      ensures old(st).tmp.None? ==> st.tmp.None?
    {
      var left: Option<Certs> := *;
      st := st.(tmp := if RemoveTmp !in fails || st.tmp.None? then None else left);
      trace := trace + [st];
    }

    method RemoveAllOld(fails: set<Syscall>) returns (ok: bool)
      modifies this
      ensures st == old(st).(previous := st.previous) && trace == old(trace) + [st]
      ensures ok <==> RemoveOld !in fails
      ensures ok ==> st.previous == None
    {
      ok := RemoveOld !in fails;
      var left: Option<Certs> := *;
      st := st.(previous := if ok then None else left);
      trace := trace + [st];
    }

    /** writeCerts, on the staging directory. */
    method WriteCerts(p: Profile, fails: set<Syscall>) returns (ok: bool)
      modifies this
      ensures st.live == old(st).live && st.previous == old(st).previous
      ensures ok <==> CanStage(p, fails)
      ensures ok ==> st.tmp == Some(Staged(old(st).tmp, p))
      ensures |old(trace)| <= |trace| && trace[..|old(trace)|] == old(trace)
      ensures forall k :: |old(trace)| <= k < |trace| ==> trace[k].live == old(st).live && trace[k].previous == old(st).previous
    {
      ghost var s0, t0 := st, trace;
      ok := MkdirAllTmp(fails);
      if !ok {
        return;
      }
      ghost var base := if s0.tmp.Some? then s0.tmp.value else map[];
      var files := Files(p);
      for i := 0 to |files|
        invariant st.live == s0.live && st.previous == s0.previous
        invariant st.tmp == Some(Overlay(base, files, i))
        invariant forall j :: 0 <= j < i && files[j].1 != "" ==> Write(files[j].0) !in fails
        invariant |t0| <= |trace| && trace[..|t0|] == t0
        invariant forall k :: |t0| <= k < |trace| ==> trace[k].live == s0.live && trace[k].previous == s0.previous
      {
        if files[i].1 != "" {
          ok := WriteTmp(files[i].0, files[i].1, fails);
          if !ok {
            return;
          }
        }
      }
      ok := true;
    }

    /** stagedModify. */
    method StagedModify(p: Profile, fails: set<Syscall>) returns (changed: bool, ok: bool)
      modifies this
      ensures |old(trace)| <= |trace| && trace[..|old(trace)|] == old(trace)
      ensures forall k :: |old(trace)| <= k < |trace| ==> NeverWithout(old(st), trace[k], p)
      ensures NeverWithout(old(st), st, p)
      ensures changed <==> CanStage(p, fails) && Nmcli !in fails
      ensures ok ==> changed && st.live == Some(Staged(old(st).tmp, p)) && st.tmp == None
      ensures ok && old(st).live.Some? ==> st.previous == None || st.previous == old(st).previous
      ensures !changed ==> !ok && st.live == old(st).live && st.previous == old(st).previous
      ensures old(st).live.Some? && st.live.None? ==>
                InstallRename in fails && RollbackRename in fails && st.previous == old(st).live
      ensures old(st).live.Some? && st.live.Some? && !ok && RemoveOld !in fails ==> st.live == old(st).live
      ensures changed && fails !! {Stat, BackupRename, InstallRename, RemoveOld} ==> (ok <==> !StaleBackup(old(st)))
      ensures changed && old(st).live.Some? && !StaleBackup(old(st)) && fails !! {Stat, BackupRename} ==>
                (st.live.None? <==> InstallRename in fails && RollbackRename in fails)
      ensures Stat in fails && old(st).live.Some? && old(st).live.value != map[] ==>
                !ok && st.live == old(st).live && st.previous == old(st).previous
      ensures StaleBackup(old(st)) && old(st).live.value != map[] ==> !ok && st.live == old(st).live && st.previous == old(st).previous
      ensures RemoveTmp !in fails ==> st.tmp.None?
    {
      ghost var s0, t0 := st, trace;
      ok := WriteCerts(p, fails);
      changed := false;
      if ok {
        ok := Nmcli !in fails;
        if ok {
          changed, ok := Swap(s0, t0, p, fails);
        }
      }
      RemoveAllTmp(fails);
    }

    /** One swap after another. Once a swap has left both a live and a backup directory with files in them, as
        it does when only the last deletion fails, the next one cannot succeed and leaves both as they are. */
    method SwapAgain(p: Profile, fails: set<Syscall>, q: Profile, fails': set<Syscall>)
      returns (ok: bool, again: bool, ghost between: Store)
      modifies this
      ensures ok ==> between.live == Some(Staged(old(st).tmp, p))
      ensures StaleBackup(between) && between.live.value != map[] ==>
                !again && st.live == between.live && st.previous == between.previous
    {
      var changed;
      changed, ok := StagedModify(p, fails);
      between := st;
      changed, again := StagedModify(q, fails');
    }

    /** The renames at the end of stagedModify, once nmcli has succeeded. */
    method Swap(ghost s0: Store, ghost t0: seq<Store>, ghost p: Profile, fails: set<Syscall>) returns (changed: bool, ok: bool)
      requires st == s0.(tmp := Some(Staged(s0.tmp, p)))
      requires |t0| <= |trace| && trace[..|t0|] == t0
      requires forall k :: |t0| <= k < |trace| ==> NeverWithout(s0, trace[k], p)
      modifies this
      ensures |t0| <= |trace| && trace[..|t0|] == t0
      ensures forall k :: |t0| <= k < |trace| ==> NeverWithout(s0, trace[k], p)
      ensures NeverWithout(s0, st, p) && changed
      ensures ok ==> st.live == Some(Staged(s0.tmp, p)) && st.tmp == None
      ensures ok && s0.live.Some? ==> st.previous == None || st.previous == s0.previous
      ensures s0.live.Some? && st.live.None? ==>
                InstallRename in fails && RollbackRename in fails && st.previous == s0.live
      ensures s0.live.Some? && st.live.Some? && !ok && RemoveOld !in fails ==> st.live == s0.live
      ensures fails !! {Stat, BackupRename, InstallRename, RemoveOld} ==> (ok <==> !StaleBackup(s0))
      ensures s0.live.Some? && !StaleBackup(s0) && fails !! {Stat, BackupRename} ==>
                (st.live.None? <==> InstallRename in fails && RollbackRename in fails)
      ensures Stat in fails && s0.live.Some? && s0.live.value != map[] ==>
                !ok && st.live == s0.live && st.previous == s0.previous
      ensures StaleBackup(s0) && s0.live.value != map[] ==> !ok && st.live == s0.live && st.previous == s0.previous
    {
      changed := true;
      // A stat that fails looks like an absent directory.
      var liveExists := st.live.Some? && Stat !in fails;
      if liveExists {
        ok := RenameLiveToOld(fails);
        if !ok {
          return;
        }
      }
      ok := RenameTmpToLive(fails);
      if !ok {
        if liveExists {
          var restored := RenameOldToLive(fails);
        }
        return;
      }
      if liveExists {
        ok := RemoveAllOld(fails);
      }
    }
  }

  // ----- a failed cleanup -----

  /** The calls of a swap all succeed but the last: deleting the backup fails before it has removed anything. */
  function CleanupFails(s: Store, p: Profile): Store {
    var written := s.(tmp := Some(Staged(s.tmp, p)));
    var backedUp := written.(previous := written.live, live := None);
    backedUp.(live := backedUp.tmp, tmp := None)
  }

  /** Such a swap installs the new certificates and, unless one of the two sets is empty, blocks the next. */
  lemma FailedCleanupBlocks(s: Store, p: Profile)
    requires s.live.Some? && s.live.value != map[] && !StaleBackup(s) && p != Profile("", "", "")
    ensures var s' := CleanupFails(s, p);
            && s' == Store(Some(Staged(s.tmp, p)), None, s.live)
            && StaleBackup(s') && s'.live.value != map[]
  {
    NewCertsAreTheProfile(p);
    OverlayKeys(if s.tmp.Some? then s.tmp.value else map[], Files(p), 3);
    var c := NewCerts(p);
    assert CA in c || CLIENT in c || KEY in c;
    assert c.Keys <= Staged(s.tmp, p).Keys;
  }

  // ----- what was staged is what was asked for -----

  lemma {:induction false} OverlayKeys(base: Certs, files: seq<(string, string)>, n: nat)
    requires n <= |files|
    ensures Overlay(base, files, n) == base + Overlay(map[], files, n)
  {
    if n > 0 {
      OverlayKeys(base, files, n - 1);
    }
  }

  /** The swap installs exactly the profile's certificates if and only if every file a stale staging directory
      still held is one the profile overwrites. */
  lemma InstallsExactlyTheProfile(stale: Option<Certs>, p: Profile)
    ensures Staged(stale, p) == NewCerts(p) <==> stale.None? || stale.value.Keys <= NewCerts(p).Keys
    ensures stale.None? ==> Staged(stale, p) == NewCerts(p)
  {
    hide Overlay;
    if stale.Some? {
      OverlayKeys(stale.value, Files(p), 3);
      if Staged(stale, p) == NewCerts(p) {
        assert stale.value.Keys <= (stale.value + NewCerts(p)).Keys;
      }
    }
  }

  /** Each non-empty certificate of the profile is installed whole under its own name, and nothing else is. */
  lemma NewCertsAreTheProfile(p: Profile)
    ensures var c := NewCerts(p);
            && (CA in c <==> p.caCert != "") && (CA in c ==> c[CA] == p.caCert)
            && (CLIENT in c <==> p.clientCert != "") && (CLIENT in c ==> c[CLIENT] == p.clientCert)
            && (KEY in c <==> p.clientKey != "") && (KEY in c ==> c[KEY] == p.clientKey)
            && c.Keys <= {CA, CLIENT, KEY}
  {
    var files := Files(p);
    assert |CA| == 6 && |CLIENT| == 10 && |KEY| == 14;
    var c0 := Overlay(map[], files, 0);
    var c1 := Overlay(map[], files, 1);
    var c2 := Overlay(map[], files, 2);
    assert c1 == if p.caCert == "" then c0 else c0[CA := p.caCert];
    assert c2 == if p.clientCert == "" then c1 else c1[CLIENT := p.clientCert];
    assert Overlay(map[], files, 3) == if p.clientKey == "" then c2 else c2[KEY := p.clientKey];
  }
}

/** Diagnostic commands to the connections of a process
    (service_manager/sm_diag.cpp forEachPidConn, sendDiagWatchStopToPid), and what
    a cascade owes to the processes that its dead were watching.
  */
module Commands {
  import opened Base
  import opened Outboxes
  import opened ControlPlane
  import opened Invariants
  import opened Closing

  const MSG_DIAG_WATCH_START: PlainType := 0x0044
  const MSG_DIAG_WATCH_STOP: PlainType := 0x0046

  /** A live connection of the process, other than the requester. */
  ghost predicate Addressed(s: Sm, pid: Pid, except: Fd, f: Fd) {
    PidFd(pid, f) in s.tabs.pids && f != except && f in s.clients
  }

  /** The connection was sent the command. */
  ghost predicate GotCommand(s: Sm, t: Sm, f: Fd, mtype: u16, body: Bytes) {
    && f in s.clients && f in t.clients
    && exists i :: |s.clients[f].out.frames| <= i < |t.clients[f].out.frames|
         && IsCommand(t.clients[f].out.frames[i], mtype, body)
  }

  predicate IsCommand(m: Msg, mtype: u16, body: Bytes) {
    m.Plain? && m.mtype == mtype && m.body == body
  }

  /** Every connection of the process that lives on was sent the command. */
  ghost predicate Commanded(s: Sm, t: Sm, pid: Pid, except: Fd, mtype: u16, body: Bytes) {
    forall f :: Addressed(s, pid, except, f) && f in t.clients ==> GotCommand(s, t, f, mtype, body)
  }

  lemma CommandsKept(s: Sm, t: Sm, u: Sm, mtype: u16, body: Bytes)
    requires Shrinks(t, u, {})
    ensures forall f :: GotCommand(s, t, f, mtype, body) && f in u.clients ==> GotCommand(s, u, f, mtype, body)
  {
    hide Purge;
    hide PurgeSessions;
    hide Extra;
    forall f | GotCommand(s, t, f, mtype, body) && f in u.clients
      ensures GotCommand(s, u, f, mtype, body)
    {
      var i :| |s.clients[f].out.frames| <= i < |t.clients[f].out.frames|
        && IsCommand(t.clients[f].out.frames[i], mtype, body);
      assert u.clients[f].out.frames[i] == t.clients[f].out.frames[i];
    }
  }

  lemma CommandSent(s: Sm, t: Sm, u: Sm, f: Fd, m: Msg)
    requires Shrinks(s, t, {}) && Sent(t, u, f, m) && m.Plain?
    ensures GotCommand(s, u, f, m.mtype, m.body)
  {
    hide Purge;
    hide PurgeSessions;
    hide Extra;
    var frames := u.clients[f].out.frames;
    assert IsCommand(frames[|frames| - 1], m.mtype, m.body);
  }

  // ---- Processes that nobody watches any more ---------------------------------------------

  /** A process that lost its last watcher on the way from `s` to `t`: each of its
      connections that lives on was told to stop. */
  ghost predicate Halted(s: Sm, t: Sm) {
    forall pid, f :: HasPid(s.tabs.pw, pid) && !HasPid(t.tabs.pw, pid) && PidFd(pid, f) in s.tabs.pids
                     && f in s.clients && f in t.clients ==>
      GotCommand(s, t, f, MSG_DIAG_WATCH_STOP, [])
  }

  /** Who lives on is still listed under its process, and was only sent messages. */
  ghost predicate Carries(s: Sm, t: Sm) {
    && t.clients.Keys <= s.clients.Keys
    && (forall x: PidFd :: x in s.tabs.pids && x.fd in t.clients ==> x in t.tabs.pids)
    && (forall f :: f in t.clients ==> s.clients[f].out.frames <= t.clients[f].out.frames)
  }

  lemma ShrinksCarries(s: Sm, t: Sm, a: set<Says>)
    requires Shrinks(s, t, a)
    ensures Carries(s, t)
  {
    hide Extra;
    hide PurgeSessions;
    hide Vanishes;
  }

  lemma GotCommandLater(s: Sm, t: Sm, u: Sm, f: Fd, mtype: u16, body: Bytes)
    requires Carries(s, t) && Carries(t, u) && f in u.clients
    ensures GotCommand(s, t, f, mtype, body) || GotCommand(t, u, f, mtype, body) ==> GotCommand(s, u, f, mtype, body)
  {
    var x, y, z := s.clients[f].out.frames, t.clients[f].out.frames, u.clients[f].out.frames;
    if GotCommand(s, t, f, mtype, body) {
      var i :| |x| <= i < |y| && IsCommand(y[i], mtype, body);
      assert z[i] == y[i];
    } else if GotCommand(t, u, f, mtype, body) {
      var i :| |y| <= i < |z| && IsCommand(z[i], mtype, body);
      assert |x| <= i;
    }
  }

  /** Whichever of two cascades took the last watcher, the process was told. */
  lemma HaltedTwice(s: Sm, t: Sm, u: Sm)
    requires Halted(s, t) && Halted(t, u) && Carries(s, t) && Carries(t, u)
    ensures Halted(s, u) && Carries(s, u)
  {
    hide GotCommand;
    hide HasPid;
    forall pid, f | HasPid(s.tabs.pw, pid) && !HasPid(u.tabs.pw, pid) && PidFd(pid, f) in s.tabs.pids
                    && f in s.clients && f in u.clients
      ensures GotCommand(s, u, f, MSG_DIAG_WATCH_STOP, [])
    {
      assert PidFd(pid, f).fd in t.clients && PidFd(pid, f) in t.tabs.pids;
      GotCommandLater(s, t, u, f, MSG_DIAG_WATCH_STOP, []);
      if HasPid(t.tabs.pw, pid) {
        assert GotCommand(t, u, f, MSG_DIAG_WATCH_STOP, []);
      } else {
        assert GotCommand(s, t, f, MSG_DIAG_WATCH_STOP, []);
      }
    }
  }

  lemma HaltedAfter(s: Sm, t: Sm, u: Sm, a: set<Says>, b: set<Says>)
    requires Halted(s, t) && Halted(t, u) && Shrinks(s, t, a) && Shrinks(t, u, b)
    ensures Halted(s, u)
  {
    ShrinksCarries(s, t, a);
    ShrinksCarries(t, u, b);
    hide *;
    HaltedTwice(s, t, u);
  }

  /** While nobody's watches change, nobody is owed a command. */
  lemma HaltedSame(s: Sm, t: Sm)
    requires t.tabs.pw == s.tabs.pw
    ensures Halted(s, t)
  {
  }

  lemma ErasedCarries(s: Sm, f: Fd)
    requires f in s.clients
    ensures Carries(s, Erased(s, f)) && Halted(s, Erased(s, f))
  {
    HaltedSame(s, Erased(s, f));
  }

  /** One pair less, and the command if it was the last. */
  lemma UnpairHalts(s: Sm, t: Sm, x: PidFd)
    requires x.fd !in s.clients && Shrinks(Unpair(s, x), t, {}) && Halted(Unpair(s, x), t)
    requires if HasPid(s.tabs.pw - {x}, x.pid) then t == Unpair(s, x)
             else Commanded(s, t, x.pid, x.fd, MSG_DIAG_WATCH_STOP, [])
    ensures Halted(s, t) && Carries(s, t)
  {
    ShrinksCarries(Unpair(s, x), t, {});
    hide Shrinks;
    hide GotCommand;
    forall pid, f | HasPid(s.tabs.pw, pid) && !HasPid(t.tabs.pw, pid) && PidFd(pid, f) in s.tabs.pids
                    && f in s.clients && f in t.clients
      ensures GotCommand(s, t, f, MSG_DIAG_WATCH_STOP, [])
    {
      if pid == x.pid {
        assert !HasPid(s.tabs.pw - {x}, x.pid);
        assert Addressed(s, pid, x.fd, f);
      } else {
        var y :| y in s.tabs.pw && y.pid == pid;
        assert y in Unpair(s, x).tabs.pw && HasPid(Unpair(s, x).tabs.pw, pid);
        assert GotCommand(Unpair(s, x), t, f, MSG_DIAG_WATCH_STOP, []);
        GotCommandAlike(Unpair(s, x), s, t, f);
      }
    }
  }

  lemma GotCommandAlike(s: Sm, s': Sm, t: Sm, f: Fd)
    requires s'.clients == s.clients && GotCommand(s, t, f, MSG_DIAG_WATCH_STOP, [])
    ensures GotCommand(s', t, f, MSG_DIAG_WATCH_STOP, [])
  {
  }

  /** Every process that connection `w` alone was watching in `s` was told to stop. */
  ghost predicate Released(s: Sm, t: Sm, w: Fd) {
    forall pid :: PidFd(pid, w) in s.tabs.pw && !HasPid(s.tabs.pw - {PidFd(pid, w)}, pid) ==>
      Commanded(s, t, pid, w, MSG_DIAG_WATCH_STOP, [])
  }

  lemma HaltedReleases(s: Sm, t: Sm, w: Fd)
    requires Halted(s, t) && forall x :: x in t.tabs.pw ==> x in s.tabs.pw && x.fd != w
    ensures Released(s, t, w)
  {
    hide GotCommand;
    forall pid | PidFd(pid, w) in s.tabs.pw && !HasPid(s.tabs.pw - {PidFd(pid, w)}, pid)
      ensures Commanded(s, t, pid, w, MSG_DIAG_WATCH_STOP, [])
    {
      assert PidFd(pid, w).pid == pid && HasPid(s.tabs.pw, pid);
      assert forall x :: x in t.tabs.pw ==> x in s.tabs.pw - {PidFd(pid, w)} && x.pid != pid;
    }
  }

  lemma ReleasedByClose(s: Sm, t: Sm, w: Fd)
    requires Halted(s, t) && Shrinks(s, t, {}) && w in s.clients && w !in t.clients
    ensures Released(s, t, w)
  {
    hide Halted;
    hide Released;
    hide Extra;
    hide PurgeSessions;
    HaltedReleases(s, t, w);
  }
}

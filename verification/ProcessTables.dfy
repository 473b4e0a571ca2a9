/** The process tables of service_manager/sm_diag.cpp: lists of connections per
    process, lists of watchers per process, and sets of processes per watcher,
    each representing a set of pairs.
  */
module ProcessTables {
  import opened Base
  import opened SeqUtil
  import opened ControlPlane

  type PidTable = map<Pid, seq<Fd>>
  type WatcherTable = map<Fd, set<Pid>>

  function FdsOf(m: PidTable, pid: Pid): seq<Fd> {
    if pid in m then m[pid] else []
  }

  ghost predicate PidTableHolds(m: PidTable, pairs: set<PidFd>) {
    && (forall x: PidFd :: x in pairs <==> x.fd in FdsOf(m, x.pid))
    && (forall pid :: NoDup(FdsOf(m, pid)))
    && (forall pid :: pid in m ==> m[pid] != [])
  }

  function PidsOf(m: WatcherTable, fd: Fd): set<Pid> {
    if fd in m then m[fd] else {}
  }

  ghost predicate WatcherTableHolds(m: WatcherTable, pairs: set<PidFd>) {
    && (forall x: PidFd :: x in pairs <==> x.pid in PidsOf(m, x.fd))
    && (forall fd :: fd in m ==> m[fd] != {})
  }

  ghost function WithoutPid(pairs: set<PidFd>, pid: Pid): set<PidFd> {
    set x | x in pairs && x.pid != pid
  }

  /** erase(remove(...)) of one connection, dropping an emptied list. */
  method RemovePair(m: PidTable, pid: Pid, fd: Fd, ghost pairs: set<PidFd>) returns (r: PidTable)
    requires PidTableHolds(m, pairs)
    ensures PidTableHolds(r, pairs - {PidFd(pid, fd)})
  {
    if pid !in m { return m; }
    var fds := RemoveAll(FdsOf(m, pid), fd);
    r := if fds == [] then m - {pid} else m[pid := fds];
    assert FdsOf(r, pid) == fds;
    assert forall p :: p != pid ==> FdsOf(r, p) == FdsOf(m, p);
  }

  /** push_back unless already there. */
  method AddPair(m: PidTable, pid: Pid, fd: Fd, ghost pairs: set<PidFd>) returns (r: PidTable)
    requires PidTableHolds(m, pairs)
    ensures PidTableHolds(r, pairs + {PidFd(pid, fd)})
  {
    var fds := FdsOf(m, pid);
    r := m;
    if fd !in fds {
      r := m[pid := fds + [fd]];
    }
    assert FdsOf(r, pid) == if fd in fds then fds else fds + [fd];
    assert forall p :: p != pid ==> FdsOf(r, p) == FdsOf(m, p);
  }

  lemma DropPidHolds(m: PidTable, pid: Pid, pairs: set<PidFd>)
    requires PidTableHolds(m, pairs)
    ensures PidTableHolds(m - {pid}, WithoutPid(pairs, pid))
  {
    assert forall p :: p != pid ==> FdsOf(m - {pid}, p) == FdsOf(m, p);
  }

  lemma PidKnown(m: PidTable, pid: Pid, pairs: set<PidFd>)
    requires PidTableHolds(m, pairs)
    ensures pid in m <==> HasPid(pairs, pid)
  {
    if pid in m {
      assert PidFd(pid, m[pid][0]) in pairs;
    }
  }

  function DropWatch(m: WatcherTable, fd: Fd, pid: Pid): WatcherTable {
    if fd !in m then m
    else
      var rest := m[fd] - {pid};
      if rest == {} then m - {fd} else m[fd := rest]
  }

  lemma DropWatchHolds(m: WatcherTable, fd: Fd, pid: Pid, pairs: set<PidFd>)
    requires WatcherTableHolds(m, pairs)
    ensures WatcherTableHolds(DropWatch(m, fd, pid), pairs - {PidFd(pid, fd)})
  {
    var r := DropWatch(m, fd, pid);
    assert PidsOf(r, fd) == PidsOf(m, fd) - {pid};
    assert forall f :: f != fd ==> PidsOf(r, f) == PidsOf(m, f);
  }

  lemma AddWatchHolds(m: WatcherTable, fd: Fd, pid: Pid, pairs: set<PidFd>)
    requires WatcherTableHolds(m, pairs)
    ensures WatcherTableHolds(m[fd := PidsOf(m, fd) + {pid}], pairs + {PidFd(pid, fd)})
  {
    var r := m[fd := PidsOf(m, fd) + {pid}];
    assert forall f :: f != fd ==> PidsOf(r, f) == PidsOf(m, f);
  }

  lemma DropWatcherHolds(m: WatcherTable, fd: Fd, pairs: set<PidFd>)
    requires WatcherTableHolds(m, pairs)
    ensures WatcherTableHolds(m - {fd}, PairsOutside(pairs, {fd}))
  {
    assert forall f :: f != fd ==> PidsOf(m - {fd}, f) == PidsOf(m, f);
  }

  /** The loop of removeTargetWatchers: one process leaves the sets of all its watchers. */
  method DropTarget(m: WatcherTable, pid: Pid, watchers: seq<Fd>, ghost pairs: set<PidFd>) returns (r: WatcherTable)
    requires WatcherTableHolds(m, pairs)
    requires forall x :: x in pairs && x.pid == pid ==> x.fd in watchers
    ensures WatcherTableHolds(r, WithoutPid(pairs, pid))
  {
    r := m;
    ghost var left := pairs;
    for i := 0 to |watchers|
      invariant WatcherTableHolds(r, left)
      invariant forall x :: x in left <==> x in pairs && !(x.pid == pid && x.fd in watchers[..i])
    {
      hide WatcherTableHolds;
      DropWatchHolds(r, watchers[i], pid, left);
      r := DropWatch(r, watchers[i], pid);
      left := left - {PidFd(pid, watchers[i])};
    }
    assert watchers[..|watchers|] == watchers;
    assert left == WithoutPid(pairs, pid);
  }
}

/** Hello and session deadlines: how service_manager/service_manager_app.cpp uses
    the event loop's timers.

    Expired callbacks are collected first and run afterwards, so by the time one
    runs its connection may be gone or re-armed; the generation tells.
  */
module SessionDeadlines {
  import opened Base
  import opened Timers

  const HELLO_TIMEOUT := 5000
  const DEFAULT_TIMEOUT: u32 := 10000

  /** The timing fields of ClientConnection. */
  datatype Session = Session(
    hello: bool, timeout: u32, generation: nat, helloTimer: u32, deadlineTimer: u32,
    acceptedAt: int, lastBeat: int)

  type Sessions = map<Fd, Session>

  /** Sessions, the timer list, and the id that comes next.  `due` is history:
      when each connection's timer was to expire. */
  datatype Deadlines = Deadlines(sessions: Sessions, timers: seq<Timer>, nextId: u32, due: map<Fd, int>)

  function TimeoutOf(c: Session): (r: u32)
    ensures r > 0
  {
    if c.timeout > 0 then c.timeout else DEFAULT_TIMEOUT
  }

  // ---- What happens to sessions and timers --------------------------------------------------------

  /** An id is only cancelled when one is set. */
  function Cancel(timers: seq<Timer>, id: u32): seq<Timer> {
    if id > 0 then CancelFirst(timers, id) else timers
  }

  /** cancelSessionTimers. */
  function CancelAll(timers: seq<Timer>, c: Session): seq<Timer> {
    Cancel(Cancel(timers, c.helloTimer), c.deadlineTimer)
  }

  /** A new connection, with its hello deadline. */
  function Accepted(d: Deadlines, fd: Fd, now: int, armed: int): Deadlines {
    Deadlines(
      d.sessions[fd := Session(false, DEFAULT_TIMEOUT, 1, d.nextId, 0, now, now)],
      d.timers + [Timer(d.nextId, armed + HELLO_TIMEOUT, 0, false, Action(HelloKind, fd, 1))],
      NextId(d.nextId), d.due[fd := armed + HELLO_TIMEOUT])
  }

  /** The session deadline of a connection with fields `c`, armed anew. */
  function Armed(d: Deadlines, fd: Fd, c: Session, now: int): Deadlines {
    var gen := c.generation + 1;
    Deadlines(
      d.sessions[fd := c.(generation := gen, deadlineTimer := d.nextId)],
      Cancel(d.timers, c.deadlineTimer) + [Timer(d.nextId, now + TimeoutOf(c), 0, false, Action(SessionKind, fd, gen))],
      NextId(d.nextId), d.due[fd := now + TimeoutOf(c)])
  }

  /** An accepted hello. */
  function Greeted(d: Deadlines, fd: Fd, timeout: u32, now: int, armed: int): Deadlines
    requires fd in d.sessions
  {
    var c := d.sessions[fd];
    Armed(d.(timers := Cancel(d.timers, c.helloTimer)), fd,
          c.(timeout := timeout, lastBeat := now, hello := true, helloTimer := 0), armed)
  }

  /** An accepted heartbeat. */
  function Renewed(d: Deadlines, fd: Fd, now: int, armed: int): Deadlines
    requires fd in d.sessions
  {
    Armed(d, fd, d.sessions[fd].(lastBeat := now), armed)
  }

  /** A closed connection. */
  function Closed(d: Deadlines, fd: Fd): Deadlines {
    if fd !in d.sessions then d
    else Deadlines(d.sessions - {fd}, CancelAll(d.timers, d.sessions[fd]), d.nextId, d.due - {fd})
  }

  function ClosedAll(d: Deadlines, fds: seq<Fd>): Deadlines {
    if fds == [] then d else Closed(ClosedAll(d, fds[..|fds| - 1]), fds[|fds| - 1])
  }

  /** A callback closes its connection only in the generation it was armed for;
      the hello callback only while no hello came. */
  predicate Hits(d: Deadlines, a: Action) {
    && a.fd in d.sessions && d.sessions[a.fd].generation == a.generation
    && (a.kind.HelloKind? ==> !d.sessions[a.fd].hello)
  }

  /** `cascades` lists, callback by callback, who else is closed along. */
  function Along(cascades: seq<seq<Fd>>, i: nat): seq<Fd> {
    if i < |cascades| then cascades[i] else []
  }

  /** The first `n` callbacks of a batch. */
  function RunUpTo(d: Deadlines, actions: seq<Action>, cascades: seq<seq<Fd>>, n: nat): Deadlines
    requires n <= |actions|
  {
    if n == 0 then d
    else
      var p, a := RunUpTo(d, actions, cascades, n - 1), actions[n - 1];
      if Hits(p, a) then ClosedAll(p, [a.fd] + Along(cascades, n - 1)) else p
  }

  /** Whom these callbacks closed. */
  function FiredUpTo(d: Deadlines, actions: seq<Action>, cascades: seq<seq<Fd>>, n: nat): set<Fd>
    requires n <= |actions|
  {
    if n == 0 then {}
    else
      var a := actions[n - 1];
      FiredUpTo(d, actions, cascades, n - 1)
      + if Hits(RunUpTo(d, actions, cascades, n - 1), a) then {a.fd} else {}
  }

  ghost function Batch(d: Deadlines, now: int, cascades: seq<seq<Fd>>): Deadlines {
    var actions := Expired(d.timers, now);
    RunUpTo(d.(timers := Waiting(d.timers, now)), actions, cascades, |actions|)
  }

  ghost function Fired(d: Deadlines, now: int, cascades: seq<seq<Fd>>): set<Fd> {
    var actions := Expired(d.timers, now);
    FiredUpTo(d.(timers := Waiting(d.timers, now)), actions, cascades, |actions|)
  }

  /** At least its timeout has passed since the last accepted hello or heartbeat;
      or no hello came in time. */
  predicate PastDeadline(c: Session, now: int) {
    if c.hello then now - c.lastBeat >= c.timeout else now - c.acceptedAt >= HELLO_TIMEOUT
  }

  // ---- One live timer for each connection --------------------------------------------------------------

  function IdOf(c: Session): u32 {
    if c.hello then c.deadlineTimer else c.helloTimer
  }

  function ActionOf(f: Fd, c: Session): Action {
    Action(if c.hello then SessionKind else HelloKind, f, c.generation)
  }

  /** The one timer a connection has. */
  function Current(f: Fd, c: Session, due: int): Timer {
    Timer(IdOf(c), due, 0, false, ActionOf(f, c))
  }

  /** Nobody is due before its timeout has passed since the last accepted hello
      or heartbeat, or since the connection was accepted. */
  predicate Sane(c: Session, due: int) {
    && c.generation > 0 && IdOf(c) != 0 && (if c.hello then c.helloTimer == 0 else c.deadlineTimer == 0)
    && due >= if c.hello then c.lastBeat + c.timeout else c.acceptedAt + HELLO_TIMEOUT
  }

  /** Apart from the connections in `late`, each connection has exactly its
      current timer, and no other timer is live. */
  ghost predicate Matches(sessions: Sessions, timers: seq<Timer>, due: map<Fd, int>, late: set<Fd>) {
    && DistinctIds(timers) && due.Keys == sessions.Keys
    && (forall f :: f in sessions ==> Sane(sessions[f], due[f]))
    && (forall f :: f in sessions && f !in late ==> Current(f, sessions[f], due[f]) in timers)
    && (forall t :: t in timers && !t.cancelled ==>
          var f := t.action.fd;
          f in sessions && f !in late && t == Current(f, sessions[f], due[f]))
  }

  /** Each connection has exactly its current timer, and no other timer is live. */
  ghost predicate Orderly(d: Deadlines) {
    Matches(d.sessions, d.timers, d.due, {}) && d.nextId != 0
  }

  /** No timer that is still listed has the id that comes next. */
  ghost predicate NextIdFree(d: Deadlines) {
    !Issued(d.timers, d.nextId)
  }

  /** Cancelling a connection's timer leaves the others' alone. */
  lemma CancelMatches(sessions: Sessions, timers: seq<Timer>, r: seq<Timer>, due: map<Fd, int>, late: set<Fd>, f: Fd)
    requires Matches(sessions, timers, due, late) && f in sessions && Cancels(timers, r, IdOf(sessions[f]))
    requires f in late ==> !Issued(timers, IdOf(sessions[f]))
    ensures Matches(sessions, r, due, late + {f})
  {
    hide Sane;
    var id := IdOf(sessions[f]);
    forall g | g in sessions && g !in late + {f}
      ensures Current(g, sessions[g], due[g]) in r
    {
      var t := Current(g, sessions[g], due[g]);
      CancelsIn(timers, r, id, t);
      if t.id == id && f !in late { SameId(timers, t, Current(f, sessions[f], due[f])); }
    }
    forall t | t in r && !t.cancelled
      ensures var g := t.action.fd; g in sessions && g !in late + {f} && t == Current(g, sessions[g], due[g])
    {
      CancelsIn(timers, r, id, t);
    }
  }

  /** A new current timer, under an id that is free. */
  lemma ArmMatches(sessions: Sessions, timers: seq<Timer>, due: map<Fd, int>, f: Fd, c: Session, at: int)
    requires f in sessions ==> Matches(sessions, timers, due, {f})
    requires f !in sessions ==> Matches(sessions, timers, due, {})
    requires Sane(c, at) && !Issued(timers, IdOf(c))
    ensures Matches(sessions[f := c], timers + [Current(f, c, at)], due[f := at], {})
  {
    var t' := timers + [Current(f, c, at)];
    assert Current(f, c, at) == t'[|timers|];
    forall i, j | 0 <= i < j < |t'|
      ensures t'[i].id != t'[j].id
    {
      if j == |timers| { assert timers[i] in timers; }
    }
  }

  lemma DropMatches(sessions: Sessions, timers: seq<Timer>, due: map<Fd, int>, late: set<Fd>, f: Fd)
    requires Matches(sessions, timers, due, late + {f})
    ensures Matches(sessions - {f}, timers, due - {f}, late)
    ensures Matches(sessions - {f}, timers, due - {f}, late + {f})
  {
  }

  /** In a batch: the connections that are due and whose callback is still to
      run have no timer listed any more. */
  ghost predicate Overdue(sessions: Sessions, timers: seq<Timer>, due: map<Fd, int>, now: int, todo: seq<Action>) {
    && due.Keys == sessions.Keys
    && (forall f :: f in sessions && due[f] <= now ==>
          ActionOf(f, sessions[f]) in todo && !Issued(timers, IdOf(sessions[f])))
    && (forall a :: a in todo && a.fd in sessions ==> due[a.fd] <= now && a == ActionOf(a.fd, sessions[a.fd]))
  }

  ghost function DueBy(due: map<Fd, int>, now: int): set<Fd> {
    set f | f in due && due[f] <= now
  }

  lemma CollectedMatches(sessions: Sessions, timers: seq<Timer>, due: map<Fd, int>, now: int)
    requires Matches(sessions, timers, due, {})
    ensures var r := Waiting(timers, now);
            Matches(sessions, r, due, DueBy(due, now)) && Overdue(sessions, r, due, now, Expired(timers, now))
  {
    hide Sane;
    var r, todo := Waiting(timers, now), Expired(timers, now);
    assert OneShot(timers);
    WaitingDistinct(timers, now);
    forall t: Timer
      ensures t in r <==> t in timers && !t.cancelled && t.expire > now
    {
      WaitingIn(timers, now, t);
    }
    forall f | f in sessions && due[f] <= now
      ensures ActionOf(f, sessions[f]) in todo && !Issued(r, IdOf(sessions[f]))
    {
      var t := Current(f, sessions[f], due[f]);
      ExpiredIn(timers, now, t.action);
      if x :| x in r && x.id == t.id { SameId(timers, x, t); }
    }
    forall a | a in todo && a.fd in sessions
      ensures due[a.fd] <= now && a == ActionOf(a.fd, sessions[a.fd])
    {
      ExpiredIn(timers, now, a);
    }
  }

  // ---- Everything that happens keeps the timers in order, under free ids ---------------------------------

  lemma CancelSane(timers: seq<Timer>, c: Session, due: int)
    requires Sane(c, due) && DistinctIds(timers)
    ensures CancelAll(timers, c) == CancelFirst(timers, IdOf(c)) && Cancels(timers, CancelAll(timers, c), IdOf(c))
  {
    CancelFirstOnly(timers, IdOf(c));
  }

  lemma AcceptedOrderly(d: Deadlines, fd: Fd, now: int, armed: int)
    requires Orderly(d) && NextIdFree(d) && fd !in d.sessions && now <= armed
    ensures Orderly(Accepted(d, fd, now, armed))
  {
    hide Matches;
    ArmMatches(d.sessions, d.timers, d.due, fd, Session(false, DEFAULT_TIMEOUT, 1, d.nextId, 0, now, now),
               armed + HELLO_TIMEOUT);
  }

  lemma ArmedOrderly(d: Deadlines, fd: Fd, c: Session, now: int)
    requires fd in d.sessions && c.hello && c.helloTimer == 0 && c.lastBeat <= now && d.nextId != 0 && NextIdFree(d)
    requires c.deadlineTimer == 0 || (d.sessions[fd].hello && c.deadlineTimer == d.sessions[fd].deadlineTimer)
    requires Matches(d.sessions, d.timers, d.due, if c.deadlineTimer == 0 then {fd} else {})
    ensures Orderly(Armed(d, fd, c, now))
  {
    hide Matches;
    DistinctOf(d.sessions, d.timers, d.due, if c.deadlineTimer == 0 then {fd} else {});
    var r := Cancel(d.timers, c.deadlineTimer);
    if c.deadlineTimer > 0 {
      CancelFirstOnly(d.timers, c.deadlineTimer);
      CancelMatches(d.sessions, d.timers, r, d.due, {}, fd);
      StillFree(d.timers, r, c.deadlineTimer, d.nextId);
      assert {} + {fd} == {fd};
    }
    var c' := c.(generation := c.generation + 1, deadlineTimer := d.nextId);
    ArmMatches(d.sessions, r, d.due, fd, c', now + TimeoutOf(c));
  }

  lemma GreetedOrderly(d: Deadlines, fd: Fd, timeout: u32, now: int, armed: int)
    requires Orderly(d) && NextIdFree(d) && fd in d.sessions && now <= armed
    ensures Orderly(Greeted(d, fd, timeout, now, armed))
  {
    hide Matches;
    DistinctOf(d.sessions, d.timers, d.due, {});
    var c := d.sessions[fd];
    var r := Cancel(d.timers, c.helloTimer);
    if c.helloTimer > 0 {
      CancelFirstOnly(d.timers, c.helloTimer);
      CancelMatches(d.sessions, d.timers, r, d.due, {}, fd);
      StillFree(d.timers, r, c.helloTimer, d.nextId);
      assert {} + {fd} == {fd};
    }
    ArmedOrderly(d.(timers := r), fd, c.(timeout := timeout, lastBeat := now, hello := true, helloTimer := 0), armed);
  }

  lemma RenewedOrderly(d: Deadlines, fd: Fd, now: int, armed: int)
    requires Orderly(d) && NextIdFree(d) && fd in d.sessions && d.sessions[fd].hello && now <= armed
    ensures Orderly(Renewed(d, fd, now, armed))
  {
    hide Matches;
    DistinctOf(d.sessions, d.timers, d.due, {});
    ArmedOrderly(d, fd, d.sessions[fd].(lastBeat := now), armed);
  }

  lemma ClosedMatches(d: Deadlines, late: set<Fd>, fd: Fd)
    requires Matches(d.sessions, d.timers, d.due, late)
    requires fd in d.sessions && fd in late ==> !Issued(d.timers, IdOf(d.sessions[fd]))
    ensures var d' := Closed(d, fd);
            && Matches(d'.sessions, d'.timers, d'.due, late)
            && forall id :: !Issued(d.timers, id) ==> !Issued(d'.timers, id)
  {
    hide Matches;
    DistinctOf(d.sessions, d.timers, d.due, late);
    if fd !in d.sessions { return; }
    var r := CancelAll(d.timers, d.sessions[fd]);
    CancelSane(d.timers, d.sessions[fd], d.due[fd]);
    CancelMatches(d.sessions, d.timers, r, d.due, late, fd);
    DropMatches(d.sessions, r, d.due, late, fd);
    forall id: u32 | !Issued(d.timers, id)
      ensures !Issued(r, id)
    {
      StillFree(d.timers, r, IdOf(d.sessions[fd]), id);
    }
  }

  lemma ClosedOrderly(d: Deadlines, fd: Fd)
    requires Orderly(d)
    ensures Orderly(Closed(d, fd))
  {
    hide Matches;
    ClosedMatches(d, {}, fd);
  }

  // ---- A batch ---------------------------------------------------------------------------------------------

  /** In the middle of a batch. */
  ghost predicate Running(d: Deadlines, now: int, todo: seq<Action>) {
    Matches(d.sessions, d.timers, d.due, DueBy(d.due, now)) && Overdue(d.sessions, d.timers, d.due, now, todo)
  }

  lemma {:induction false} ClosedAllRemoves(d: Deadlines, fds: seq<Fd>)
    ensures ClosedAll(d, fds).sessions == d.sessions - (set f | f in fds)
    ensures d.due.Keys == d.sessions.Keys ==> ClosedAll(d, fds).due == d.due - (set f | f in fds)
    ensures ClosedAll(d, fds).nextId == d.nextId
  {
    if fds != [] {
      var front, last := fds[..|fds| - 1], fds[|fds| - 1];
      ClosedAllRemoves(d, front);
      assert fds == front + [last];
      assert (set f | f in fds) == (set f | f in front) + {last};
    }
  }

  lemma {:induction false} ClosedAllRunning(d: Deadlines, now: int, todo: seq<Action>, fds: seq<Fd>)
    requires Running(d, now, todo)
    ensures Running(ClosedAll(d, fds), now, todo)
  {
    if fds != [] {
      var p, f := ClosedAll(d, fds[..|fds| - 1]), fds[|fds| - 1];
      ClosedAllRunning(d, now, todo, fds[..|fds| - 1]);
      ClosedMatches(p, DueBy(p.due, now), f);
      hide Matches;
      var q := Closed(p, f);
      FewerLate(q.sessions, q.timers, q.due, DueBy(p.due, now), DueBy(q.due, now));
    }
  }

  /** Each callback closes its connection, whose turn it is, or finds it closed. */
  lemma OneCallback(p: Deadlines, now: int, actions: seq<Action>, i: nat, along: seq<Fd>)
    requires i < |actions| && Running(p, now, actions[i..])
    ensures var q := if Hits(p, actions[i]) then ClosedAll(p, [actions[i].fd] + along) else p;
            && Running(q, now, actions[i + 1..]) && q.nextId == p.nextId
            && forall f :: f in q.due ==> f in p.due && q.due[f] == p.due[f]
    ensures var f := actions[i].fd; Hits(p, actions[i]) ==> f in p.due && p.due[f] <= now
  {
    hide Matches;
    var a := actions[i];
    assert a in actions[i..];
    if Hits(p, a) {
      var q := ClosedAll(p, [a.fd] + along);
      ClosedAllRunning(p, now, actions[i..], [a.fd] + along);
      ClosedAllRemoves(p, [a.fd] + along);
      hide ClosedAll;
      assert a.fd in [a.fd] + along;
      OneLess(q.sessions, q.timers, q.due, now, actions, i);
    } else {
      OneLess(p.sessions, p.timers, p.due, now, actions, i);
    }
  }

  lemma {:induction false} RunningUpTo(d: Deadlines, now: int, actions: seq<Action>, cascades: seq<seq<Fd>>, n: nat)
    requires Running(d, now, actions) && n <= |actions|
    ensures Running(RunUpTo(d, actions, cascades, n), now, actions[n..])
    ensures RunUpTo(d, actions, cascades, n).nextId == d.nextId
    ensures forall f :: f in FiredUpTo(d, actions, cascades, n) ==> f in d.due && d.due[f] <= now
    ensures var e := RunUpTo(d, actions, cascades, n);
            forall f :: f in e.due ==> f in d.due && e.due[f] == d.due[f]
  {
    hide Running;
    hide Hits;
    hide ClosedAll;
    if n == 0 {
      assert actions[0..] == actions;
    } else {
      RunningUpTo(d, now, actions, cascades, n - 1);
      OneCallback(RunUpTo(d, actions, cascades, n - 1), now, actions, n - 1, Along(cascades, n - 1));
    }
  }

  /** A batch at `now` keeps the timers in order; it closes nobody early, and
      nobody who is due outlives it. */
  lemma BatchOrderly(d: Deadlines, now: int, cascades: seq<seq<Fd>>)
    requires Orderly(d)
    ensures Orderly(Batch(d, now, cascades))
    ensures forall f :: f in Fired(d, now, cascades) ==> f in d.sessions && PastDeadline(d.sessions[f], now)
    ensures var e := Batch(d, now, cascades); forall f :: f in e.sessions ==> f in e.due && now < e.due[f]
  {
    hide Matches;
    hide Sane;
    var actions, p := Expired(d.timers, now), d.(timers := Waiting(d.timers, now));
    DistinctOf(d.sessions, d.timers, d.due, {});
    CollectedMatches(d.sessions, d.timers, d.due, now);
    RunningUpTo(p, now, actions, cascades, |actions|);
    var e := Batch(d, now, cascades);
    NothingDue(e.sessions, e.timers, e.due, now, actions);
    forall f | f in Fired(d, now, cascades)
      ensures f in d.sessions && PastDeadline(d.sessions[f], now)
    {
      DueMeansPast(d.sessions[f], d.due[f], now);
    }
  }

  lemma OneLess(sessions: Sessions, timers: seq<Timer>, due: map<Fd, int>, now: int, expired: seq<Action>, i: nat)
    requires i < |expired| && Overdue(sessions, timers, due, now, expired[i..]) && expired[i].fd !in sessions
    ensures Overdue(sessions, timers, due, now, expired[i + 1..])
  {
    assert expired[i..] == [expired[i]] + expired[i + 1..];
  }

  lemma NothingDue(sessions: Sessions, timers: seq<Timer>, due: map<Fd, int>, now: int, expired: seq<Action>)
    requires Overdue(sessions, timers, due, now, expired[|expired|..])
             && Matches(sessions, timers, due, DueBy(due, now))
    ensures Matches(sessions, timers, due, {}) && forall f :: f in sessions ==> f in due && now < due[f]
  {
    hide Matches;
    assert forall f :: f in sessions ==> f in due && now < due[f];
    FewerLate(sessions, timers, due, DueBy(due, now), {});
  }

  lemma DueMeansPast(c: Session, due: int, now: int)
    requires Sane(c, due) && due <= now
    ensures PastDeadline(c, now)
  {
  }

  lemma FewerLate(sessions: Sessions, timers: seq<Timer>, due: map<Fd, int>, late: set<Fd>, late': set<Fd>)
    requires Matches(sessions, timers, due, late)
    requires forall f :: f in sessions ==> (f in late <==> f in late')
    ensures Matches(sessions, timers, due, late')
  {
    hide Sane;
  }

  lemma DistinctOf(sessions: Sessions, timers: seq<Timer>, due: map<Fd, int>, late: set<Fd>)
    requires Matches(sessions, timers, due, late)
    ensures DistinctIds(timers) && due.Keys == sessions.Keys
    ensures forall f :: f in sessions ==> Sane(sessions[f], due[f])
  {
  }

  lemma StillFree(timers: seq<Timer>, r: seq<Timer>, id: u32, next: u32)
    requires Cancels(timers, r, id) && !Issued(timers, next)
    ensures !Issued(r, next)
  {
    forall t | t in r
      ensures t.id != next
    {
      CancelsIn(timers, r, id, t);
    }
  }

  // ---- The methods ------------------------------------------------------------------------------------------

  class SessionTimers {
    var sessions: Sessions
    var timers: seq<Timer>
    var nextId: u32
    ghost var due: map<Fd, int>

    ghost function D(): Deadlines
      reads this
    {
      Deadlines(sessions, timers, nextId, due)
    }

    constructor ()
      ensures Orderly(D()) && sessions == map[]
    {
      sessions, timers, nextId, due := map[], [], 1, map[];
    }

    /** addTimer; ids wrap around and skip 0. */
    method AddTimer(delay: u32, action: Action, repeat: bool, now: int) returns (id: u32)
      modifies this`timers, this`nextId
      ensures id == old(nextId) && nextId == NextId(id)
      ensures timers == old(timers) + [Timer(id, now + delay, if repeat then delay else 0, false, action)]
    {
      id := nextId;
      nextId := (nextId + 1) % 0x1_0000_0000;
      if nextId == 0 { nextId := 1; }
      timers := timers + [Timer(id, now + delay, if repeat then delay else 0, false, action)];
    }

    /** onClientAccepted, with armHelloDeadline: the clock is read twice. */
    method Accept(fd: Fd, now: int, armed: int)
      requires now <= armed
      modifies this
      ensures D() == if fd in old(sessions) then old(D()) else Accepted(old(D()), fd, now, armed)
      ensures fd !in old(sessions) ==> fd in sessions && !sessions[fd].hello && due == old(due)[fd := armed + 5000]
      ensures old(Orderly(D())) && (fd in old(sessions) || old(NextIdFree(D()))) ==> Orderly(D())
    {
      if fd in sessions { return; }
      ghost var d := D();
      var id := AddTimer(HELLO_TIMEOUT, Action(HelloKind, fd, 1), false, armed);
      sessions := sessions[fd := Session(false, DEFAULT_TIMEOUT, 1, id, 0, now, now)];
      due := due[fd := armed + HELLO_TIMEOUT];
      if Orderly(d) && NextIdFree(d) { AcceptedOrderly(d, fd, now, armed); }
    }

    /** armSessionDeadline, for fields `c` of a connection. */
    method ArmSession(fd: Fd, c: Session, now: int)
      modifies this
      ensures D() == Armed(old(D()), fd, c, now)
    {
      if c.deadlineTimer > 0 {
        timers := CancelTimer(timers, c.deadlineTimer);
      }
      var gen := c.generation + 1;
      var id := AddTimer(TimeoutOf(c), Action(SessionKind, fd, gen), false, now);
      sessions := sessions[fd := c.(generation := gen, deadlineTimer := id)];
      due := due[fd := now + TimeoutOf(c)];
    }

    /** The timing part of an accepted hello. */
    method Hello(fd: Fd, timeout: u32, now: int, armed: int)
      requires fd in sessions && now <= armed
      modifies this
      ensures D() == Greeted(old(D()), fd, timeout, now, armed)
      ensures fd in sessions && sessions[fd].hello && sessions[fd].timeout == timeout && sessions[fd].lastBeat == now
      ensures due == old(due)[fd := armed + if timeout > 0 then timeout else 10000]
      ensures old(Orderly(D())) && old(NextIdFree(D())) ==> Orderly(D())
    {
      hide Orderly;
      hide NextIdFree;
      ghost var d := D();
      var c := sessions[fd].(timeout := timeout, lastBeat := now, hello := true);
      if c.helloTimer > 0 {
        timers := CancelTimer(timers, c.helloTimer);
        c := c.(helloTimer := 0);
      }
      ArmSession(fd, c, armed);
      if Orderly(d) && NextIdFree(d) { GreetedOrderly(d, fd, timeout, now, armed); }
    }

    /** The timing part of an accepted heartbeat. */
    method Heartbeat(fd: Fd, now: int, armed: int)
      requires fd in sessions && sessions[fd].hello && now <= armed
      modifies this
      ensures D() == Renewed(old(D()), fd, now, armed)
      ensures fd in sessions && sessions[fd].timeout == old(sessions)[fd].timeout && sessions[fd].lastBeat == now
      ensures due == old(due)[fd := armed + if sessions[fd].timeout > 0 then sessions[fd].timeout else 10000]
      ensures old(Orderly(D())) && old(NextIdFree(D())) ==> Orderly(D())
    {
      hide Orderly;
      hide NextIdFree;
      hide Cancel;
      ghost var d := D();
      ArmSession(fd, sessions[fd].(lastBeat := now), armed);
      if Orderly(d) && NextIdFree(d) { RenewedOrderly(d, fd, now, armed); }
    }

    /** The timing part of closeClient. */
    method Close(fd: Fd)
      modifies this`sessions, this`timers, this`due
      ensures D() == Closed(old(D()), fd)
      ensures old(Orderly(D())) ==> Orderly(D())
    {
      ghost var d := D();
      if Orderly(d) { ClosedOrderly(d, fd); }
      if fd !in sessions { return; }
      var c := sessions[fd];
      if c.helloTimer > 0 { timers := CancelTimer(timers, c.helloTimer); }
      if c.deadlineTimer > 0 { timers := CancelTimer(timers, c.deadlineTimer); }
      sessions, due := sessions - {fd}, due - {fd};
    }

    /** A close and the further connections its cascade closes. */
    method CloseCascade(fds: seq<Fd>)
      modifies this`sessions, this`timers, this`due
      ensures D() == ClosedAll(old(D()), fds)
    {
      for i := 0 to |fds|
        invariant D() == ClosedAll(old(D()), fds[..i])
      {
        assert fds[..i + 1][..i] == fds[..i];
        Close(fds[i]);
      }
      assert fds[..|fds|] == fds;
    }

    /** The second loop of processTimers: the callbacks, onSessionDeadline and its
        hello counterpart. */
    method RunExpired(expired: seq<Action>, cascades: seq<seq<Fd>>) returns (fired: set<Fd>)
      modifies this`sessions, this`timers, this`due
      ensures D() == RunUpTo(old(D()), expired, cascades, |expired|)
      ensures fired == FiredUpTo(old(D()), expired, cascades, |expired|)
    {
      fired := {};
      for i := 0 to |expired|
        invariant D() == RunUpTo(old(D()), expired, cascades, i)
        invariant fired == FiredUpTo(old(D()), expired, cascades, i)
      {
        var a := expired[i];
        if a.fd in sessions && sessions[a.fd].generation == a.generation
           && (a.kind.HelloKind? ==> !sessions[a.fd].hello) {
          CloseCascade([a.fd] + Along(cascades, i));
          fired := fired + {a.fd};
        }
      }
    }

    /** processTimers.  `fired` are the connections closed by their own deadline.
        A deadline closes nobody early, and nobody who is due outlives the batch. */
    method ProcessTimers(now: int, cascades: seq<seq<Fd>>) returns (fired: set<Fd>)
      modifies this`sessions, this`timers, this`due
      ensures D() == Batch(old(D()), now, cascades) && fired == Fired(old(D()), now, cascades)
      ensures old(Orderly(D())) ==>
                && Orderly(D())
                && (forall f :: f in fired ==> f in old(sessions) && PastDeadline(old(sessions)[f], now))
                && (forall f :: f in sessions ==> f in due && now < due[f])
    {
      hide RunUpTo;
      hide FiredUpTo;
      ghost var d := D();
      var expired;
      timers, expired := Collect(timers, now);
      fired := RunExpired(expired, cascades);
      if Orderly(d) { BatchOrderly(d, now, cascades); }
    }
  }
}

/** When deadlines can be trusted.  A timer id that is reissued while it is still
    listed makes a later cancel hit the older timer (addTimer and cancelTimer of
    src/core/event_loop.cpp).  Arming keeps every deadline to come if and only if
    the id that comes next is free.
  */
module TimerIds {
  import opened Base
  import opened Timers
  import opened SessionDeadlines

  // ---- Whatever may happen next ----------------------------------------------------------------

  datatype Op =
    | Accepts(fd: Fd, now: int, armed: int)
    | Hellos(fd: Fd, timeout: u32, now: int, armed: int)
    | Beats(fd: Fd, now: int, armed: int)
    | Closes(fd: Fd)
    | Ticks(now: int, cascades: seq<seq<Fd>>)

  /** The operation arms a timer: a new connection's, or that of a known one. */
  predicate Arms(d: Deadlines, op: Op) {
    match op
    case Accepts(fd, _, _) => fd !in d.sessions
    case Hellos(fd, _, _, _) => fd in d.sessions
    case Beats(fd, _, _) => fd in d.sessions && d.sessions[fd].hello
    case _ => false
  }

  ghost function Do(d: Deadlines, op: Op): Deadlines {
    match op
    case Accepts(fd, now, armed) => if fd in d.sessions then d else Accepted(d, fd, now, armed)
    case Hellos(fd, timeout, now, armed) => if fd in d.sessions then Greeted(d, fd, timeout, now, armed) else d
    case Beats(fd, now, armed) =>
      if fd in d.sessions && d.sessions[fd].hello then Renewed(d, fd, now, armed) else d
    case Closes(fd) => Closed(d, fd)
    case Ticks(now, cascades) => Batch(d, now, cascades)
  }

  ghost function DoAll(d: Deadlines, ops: seq<Op>): Deadlines
    decreases |ops|
  {
    if ops == [] then d else DoAll(Do(d, ops[0]), ops[1..])
  }

  /** The clock, read along the operations, never runs backwards. */
  predicate Timely(ops: seq<Op>, from: int) {
    ops == [] ||
    match ops[0]
    case Closes(_) => Timely(ops[1..], from)
    case Ticks(now, _) => from <= now && Timely(ops[1..], now)
    case op => from <= op.now <= op.armed && Timely(ops[1..], op.armed)
  }

  /** Every timer is armed under an id that is free. */
  ghost predicate Fresh(d: Deadlines, ops: seq<Op>)
    decreases |ops|
  {
    ops == [] || ((Arms(d, ops[0]) ==> NextIdFree(d)) && Fresh(Do(d, ops[0]), ops[1..]))
  }

  /** A batch closes nobody early, and nobody who is due outlives it. */
  ghost predicate Prompt(d: Deadlines, op: Op) {
    op.Ticks? ==>
      && (forall f :: f in Fired(d, op.now, op.cascades) ==> f in d.sessions && PastDeadline(d.sessions[f], op.now))
      && (forall f :: f in Do(d, op).sessions ==> f in Do(d, op).due && op.now < Do(d, op).due[f])
  }

  ghost predicate Punctual(d: Deadlines, ops: seq<Op>)
    decreases |ops|
  {
    ops == [] || (Prompt(d, ops[0]) && Punctual(Do(d, ops[0]), ops[1..]))
  }

  /** Whatever happens from time `from` on, as long as ids are free when they are
      issued, deadlines are kept. */
  ghost predicate Trustworthy(d: Deadlines, from: int) {
    forall ops :: Timely(ops, from) && Fresh(d, ops) ==> Punctual(d, ops)
  }

  // ---- Order is enough ---------------------------------------------------------------------------

  lemma DoOrderly(d: Deadlines, op: Op)
    requires Orderly(d) && (Arms(d, op) ==> NextIdFree(d))
    requires op.Accepts? || op.Hellos? || op.Beats? ==> op.now <= op.armed
    ensures Orderly(Do(d, op)) && Prompt(d, op)
  {
    hide Orderly;
    hide NextIdFree;
    match op {
      case Accepts(fd, now, armed) => if fd !in d.sessions { AcceptedOrderly(d, fd, now, armed); }
      case Hellos(fd, timeout, now, armed) => if fd in d.sessions { GreetedOrderly(d, fd, timeout, now, armed); }
      case Beats(fd, now, armed) =>
        if fd in d.sessions && d.sessions[fd].hello { RenewedOrderly(d, fd, now, armed); }
      case Closes(fd) => ClosedOrderly(d, fd);
      case Ticks(now, cascades) => BatchOrderly(d, now, cascades);
    }
  }

  lemma {:induction false} OrderlyIsPunctual(d: Deadlines, ops: seq<Op>, from: int)
    requires Orderly(d) && Timely(ops, from) && Fresh(d, ops)
    ensures Punctual(d, ops)
    decreases |ops|
  {
    hide Orderly;
    if ops != [] {
      DoOrderly(d, ops[0]);
      var from' := match ops[0] case Closes(_) => from case Ticks(now, _) => now case op => op.armed;
      OrderlyIsPunctual(Do(d, ops[0]), ops[1..], from');
    }
  }

  lemma OrderlyIsTrustworthy(d: Deadlines, from: int)
    requires Orderly(d)
    ensures Trustworthy(d, from)
  {
    forall ops | Timely(ops, from) && Fresh(d, ops)
      ensures Punctual(d, ops)
    {
      OrderlyIsPunctual(d, ops, from);
    }
  }

  // ---- A reissued id is enough to lose it ----------------------------------------------------------

  lemma {:induction false} Concatenate(d: Deadlines, a: seq<Op>, b: seq<Op>)
    ensures DoAll(d, a + b) == DoAll(DoAll(d, a), b)
    ensures Fresh(d, a) && Fresh(DoAll(d, a), b) ==> Fresh(d, a + b)
    ensures Punctual(d, a + b) ==> Punctual(DoAll(d, a), b)
    decreases |a|
  {
    if a == [] {
      assert a + b == b;
    } else {
      assert (a + b)[1..] == a[1..] + b && (a + b)[0] == a[0];
      Concatenate(Do(d, a[0]), a[1..], b);
    }
  }

  function EndOf(ops: seq<Op>, from: int): int {
    if ops == [] then from
    else EndOf(ops[1..], match ops[0] case Closes(_) => from case Ticks(now, _) => now case op => op.armed)
  }

  lemma {:induction false} TimelyOn(a: seq<Op>, b: seq<Op>, from: int)
    requires Timely(a, from) && Timely(b, EndOf(a, from))
    ensures Timely(a + b, from)
    decreases |a|
  {
    if a == [] {
      assert a + b == b;
    } else {
      assert (a + b)[1..] == a[1..] + b && (a + b)[0] == a[0];
      TimelyOn(a[1..], b, match a[0] case Closes(_) => from case Ticks(now, _) => now case op => op.armed);
    }
  }

  /** While an older timer with the id is listed, every cancel misses the newer one. */
  lemma {:induction false} NewerMissed(timers: seq<Timer>, x: Timer, id: u32)
    requires id == x.id ==> Issued(timers, id)
    ensures CancelFirst(timers + [x], id) == CancelFirst(timers, id) + [x]
  {
    if timers != [] {
      var all := timers + [x];
      assert all[0] == timers[0] && all[1..] == timers[1..] + [x];
      if timers[0].id != id {
        if id == x.id {
          var t :| t in timers && t.id == id;
          assert t in timers[1..];
        }
        NewerMissed(timers[1..], x, id);
      }
    }
  }

  lemma {:induction false} IdsStay(timers: seq<Timer>, id: u32, x: u32)
    requires Issued(timers, x)
    ensures Issued(CancelFirst(timers, id), x)
  {
    var r := CancelFirst(timers, id);
    if timers[0].id == x {
      assert r[0] in r;
    } else {
      var t :| t in timers && t.id == x;
      assert t in timers[1..];
      if timers[0].id != id {
        IdsStay(timers[1..], id, x);
        var u :| u in CancelFirst(timers[1..], id) && u.id == x;
        assert u in r;
      } else {
        assert t in r;
      }
    }
  }

  /** Besides timer `x`, whose id an older timer has too, only current timers of
      known connections are live. */
  ghost predicate Shadowed(d: Deadlines, rest: seq<Timer>, x: Timer) {
    && d.timers == rest + [x] && Issued(rest, x.id) && !x.cancelled && x.interval == 0
    && DistinctIds(rest) && d.due.Keys == d.sessions.Keys
    && (forall f :: f in d.sessions ==> OneId(d.sessions[f]))
    && (forall t :: t in rest && !t.cancelled ==> t.action.fd in d.sessions && t.id == IdOf(d.sessions[t.action.fd]))
  }

  predicate OneId(c: Session) {
    IdOf(c) != 0 && (if c.hello then c.helloTimer == 0 else c.deadlineTimer == 0)
  }

  lemma ClosedShadowed(d: Deadlines, rest: seq<Timer>, x: Timer, f: Fd)
    requires Shadowed(d, rest, x) && f in d.sessions
    ensures Shadowed(Closed(d, f), CancelFirst(rest, IdOf(d.sessions[f])), x)
  {
    var id := IdOf(d.sessions[f]);
    NewerMissed(rest, x, id);
    IdsStay(rest, id, x.id);
    CancelFirstOnly(rest, id);
    var r := CancelFirst(rest, id);
    hide CancelFirst;
    forall t | t in r && !t.cancelled
      ensures t.action.fd in d.sessions - {f} && t.id == IdOf(d.sessions[t.action.fd])
    {
      CancelsIn(rest, r, id, t);
    }
  }

  /** Once everybody is closed, only `x` is live. */
  lemma {:induction false} CloseEverybody(d: Deadlines, rest: seq<Timer>, x: Timer, from: int)
    returns (ops: seq<Op>, rest': seq<Timer>)
    requires Shadowed(d, rest, x)
    ensures Timely(ops, from) && EndOf(ops, from) == from && Fresh(d, ops)
    ensures DoAll(d, ops) == Deadlines(map[], rest' + [x], d.nextId, map[])
    ensures forall t :: t in rest' ==> t.cancelled
    decreases |d.sessions|
  {
    ops, rest' := [], rest;
    if d.sessions.Keys != {} {
      var f := Someone(d.sessions.Keys);
      ClosedShadowed(d, rest, x, f);
      FewerSessions(d.sessions, f);
      var more, left := CloseEverybody(Closed(d, f), CancelFirst(rest, IdOf(d.sessions[f])), x, from);
      ops, rest' := [Closes(f)] + more, left;
      assert ops[1..] == more;
    } else {
      assert d.sessions == map[] && d.due == map[];
    }
  }

  lemma Someone<T>(fds: set<T>) returns (f: T)
    requires fds != {}
    ensures f in fds
  {
    f :| f in fds;
  }

  lemma FewerSessions(m: Sessions, f: Fd)
    requires f in m
    ensures |m - {f}| < |m|
  {
    assert (m - {f}).Keys == m.Keys - {f};
    assert |m.Keys - {f}| < |m.Keys|;
  }

  // ---- Batches on short lists ---------------------------------------------------------------------

  lemma {:induction false} BatchParts(a: seq<Timer>, b: seq<Timer>, now: int)
    ensures Waiting(a + b, now) == Waiting(a, now) + Waiting(b, now)
    ensures Expired(a + b, now) == Expired(a, now) + Expired(b, now)
    decreases |b|
  {
    hide After;
    if b == [] {
      assert a + b == a;
    } else {
      var front, last := b[..|b| - 1], b[|b| - 1];
      BatchParts(a, front, now);
      var all := a + b;
      assert all[..|all| - 1] == a + front && all[|all| - 1] == last;
      assert Waiting(all, now) == Waiting(a + front, now) + After(last, now);
    }
  }

  lemma {:induction false} AllCancelled(timers: seq<Timer>, now: int)
    requires forall t :: t in timers ==> t.cancelled
    ensures Waiting(timers, now) == [] && Expired(timers, now) == []
  {
    if timers != [] { AllCancelled(timers[..|timers| - 1], now); }
  }

  lemma BatchOne(t: Timer, now: int)
    ensures Waiting([t], now) == After(t, now)
    ensures Expired([t], now) == if !t.cancelled && t.expire <= now then [t.action] else []
  {
    assert [t][..0] == [];
    assert Waiting([], now) == [] && Expired([], now) == [];
  }

  lemma BatchTwo(x: Timer, y: Timer, now: int)
    ensures Waiting([x, y], now) == After(x, now) + After(y, now)
    ensures Expired([x, y], now) == Expired([x], now) + Expired([y], now)
  {
    assert [x, y] == [x] + [y];
    BatchParts([x], [y], now);
    BatchOne(x, now);
    BatchOne(y, now);
  }

  lemma BatchThree(x: Timer, y: Timer, z: Timer, now: int)
    ensures Waiting([x, y, z], now) == After(x, now) + After(y, now) + After(z, now)
    ensures Expired([x, y, z], now) == Expired([x], now) + Expired([y], now) + Expired([z], now)
  {
    assert [x, y, z] == [x, y] + [z];
    BatchParts([x, y], [z], now);
    BatchTwo(x, y, now);
    BatchOne(z, now);
  }

  // ---- The connection comes back ---------------------------------------------------------------------

  /** The id `k` issues later. */
  function Nth(id: u32, k: nat): (r: u32)
    requires 0 < id && k < IDS
    ensures r != 0 && (r == id <==> k == 0)
  {
    if id + k <= IDS then id + k else id + k - IDS
  }

  lemma NthNext(id: u32, k: nat)
    requires 0 < id && k + 1 < IDS
    ensures NextId(Nth(id, k)) == Nth(id, k + 1)
  {
  }

  /** A connection greeted a moment before `e`, besides `others`, and a timer that
      expires no sooner; `k` timers were armed since that one. */
  ghost predicate Returned(d: Deadlines, others: Deadlines, x: Timer, fd: Fd, e: int, k: nat, g: nat) {
    && 0 < x.id && 0 < k < IDS
    && !x.cancelled && x.interval == 0 && x.expire >= e
    && d == Deadlines(
         others.sessions[fd := Session(true, 5000, g, 0, Nth(x.id, k), e - 1, e - 1)],
         [x, Timer(Nth(x.id, k), e - 1 + 5000, 0, false, Action(SessionKind, fd, g))],
         NextId(Nth(x.id, k)), others.due[fd := e - 1 + 5000])
  }

  lemma TwoOps(d: Deadlines, p: Op, q: Op)
    ensures DoAll(d, [p, q]) == Do(Do(d, p), q)
    ensures Fresh(d, [p, q]) <==> (Arms(d, p) ==> NextIdFree(d)) && (Arms(Do(d, p), q) ==> NextIdFree(Do(d, p)))
  {
    hide Do;
    hide Arms;
    hide NextIdFree;
    assert [p, q][1..] == [q] && [q][1..] == [];
    assert DoAll(Do(d, p), [q]) == DoAll(Do(Do(d, p), q), []);
    assert Fresh(Do(Do(d, p), q), []);
  }

  lemma CancelSecond(x: Timer, z: Timer, id: u32)
    requires x.id != id && z.id == id
    ensures CancelFirst([x, z], id) == [x, z.(cancelled := true)]
  {
    assert [x, z][1..] == [z];
    assert CancelFirst([z], id) == [z.(cancelled := true)];
  }

  /** A batch just before `e` drops what is cancelled and runs nothing. */
  lemma QuietThree(d: Deadlines, x: Timer, y: Timer, z: Timer, now: int)
    requires d.timers == [x, y, z] && !x.cancelled && y.cancelled && !z.cancelled && now < x.expire && now < z.expire
    ensures Do(d, Ticks(now, [])) == d.(timers := [x, z])
  {
    BatchThree(x, y, z, now);
    BatchOne(x, now);
    BatchOne(y, now);
    BatchOne(z, now);
    assert Expired(d.timers, now) == [];
    assert Waiting(d.timers, now) == [x, z];
  }

  /** A heartbeat and a batch. */
  lemma Round(d: Deadlines, others: Deadlines, x: Timer, fd: Fd, e: int, k: nat, g: nat)
    requires Returned(d, others, x, fd, e, k, g) && k + 1 < IDS
    ensures var ops := [Beats(fd, e - 1, e - 1), Ticks(e - 1, [])];
            && Fresh(d, ops) && Timely(ops, e - 1) && EndOf(ops, e - 1) == e - 1
            && Returned(DoAll(d, ops), others, x, fd, e, k + 1, g + 1)
  {
    var p, q := Beats(fd, e - 1, e - 1), Ticks(e - 1, []);
    var id, z := Nth(x.id, k), d.timers[1];
    NthNext(x.id, k);
    TwoOps(d, p, q);
    CancelSecond(x, z, id);
    hide CancelFirst;
    hide Nth;
    var z' := Timer(NextId(id), e - 1 + 5000, 0, false, Action(SessionKind, fd, g + 1));
    var d1 := Do(d, p);
    assert d1.timers == [x, z.(cancelled := true), z'];
    QuietThree(d1, x, z.(cancelled := true), z', e - 1);
    hide Batch;
    assert [p, q][1..] == [q] && [q][1..] == [];
    assert Timely([], e - 1) && EndOf([], e - 1) == e - 1;
    assert Timely([q], e - 1) && EndOf([q], e - 1) == e - 1;
    assert NextIdFree(d);
  }

  lemma {:induction false} Rounds(d: Deadlines, others: Deadlines, x: Timer, fd: Fd, e: int, k: nat, g: nat, n: nat)
    returns (ops: seq<Op>)
    requires Returned(d, others, x, fd, e, k, g) && k + n < IDS
    ensures Fresh(d, ops) && Timely(ops, e - 1) && EndOf(ops, e - 1) == e - 1
    ensures Returned(DoAll(d, ops), others, x, fd, e, k + n, g + n)
    decreases n
  {
    hide Returned;
    ops := [];
    if n > 0 {
      var one := [Beats(fd, e - 1, e - 1), Ticks(e - 1, [])];
      Round(d, others, x, fd, e, k, g);
      var more := Rounds(DoAll(d, one), others, x, fd, e, k + 1, g + 1, n - 1);
      ops := one + more;
      Concatenate(d, one, more);
      TimelyOn(one, more, e - 1);
      EndOn(one, more, e - 1);
    }
  }

  lemma {:induction false} EndOn(a: seq<Op>, b: seq<Op>, from: int)
    ensures EndOf(a + b, from) == EndOf(b, EndOf(a, from))
    decreases |a|
  {
    if a == [] {
      assert a + b == b;
    } else {
      assert (a + b)[1..] == a[1..] + b && (a + b)[0] == a[0];
      EndOn(a[1..], b, match a[0] case Closes(_) => from case Ticks(now, _) => now case op => op.armed);
    }
  }

  /** Only one timer is left, and connections that have none of their own coming. */
  ghost predicate Alone(d: Deadlines, x: Timer, e: int) {
    && 0 < x.id && !x.cancelled && x.interval == 0 && x.expire >= e
    && d.timers == [x] && d.nextId == NextId(x.id)
  }

  /** Another connection is accepted a moment before `e`. */
  ghost function Back(d: Deadlines, x: Timer, fd: Fd, e: int): Deadlines
    requires 0 < x.id
  {
    Deadlines(
      d.sessions[fd := Session(false, DEFAULT_TIMEOUT, 1, Nth(x.id, 1), 0, e - 1, e - 1)],
      [x, Timer(Nth(x.id, 1), e - 1 + HELLO_TIMEOUT, 0, false, Action(HelloKind, fd, 1))],
      NextId(Nth(x.id, 1)), d.due[fd := e - 1 + HELLO_TIMEOUT])
  }

  lemma ComesBack(d: Deadlines, x: Timer, fd: Fd, e: int)
    requires Alone(d, x, e) && fd !in d.sessions
    ensures var op := Accepts(fd, e - 1, e - 1);
            && Fresh(d, [op]) && Timely([op], e - 1) && EndOf([op], e - 1) == e - 1
            && DoAll(d, [op]) == Back(d, x, fd, e)
  {
    var op := Accepts(fd, e - 1, e - 1);
    NthNext(x.id, 0);
    assert [op][1..] == [];
    NothingToDo(Do(d, op), e - 1);
  }

  /** It says hello, and a batch runs. */
  lemma GreetedBack(d: Deadlines, x: Timer, fd: Fd, e: int)
    requires Alone(d, x, e)
    ensures var b, ops := Back(d, x, fd, e), [Hellos(fd, 5000, e - 1, e - 1), Ticks(e - 1, [])];
            && Fresh(b, ops) && Timely(ops, e - 1) && EndOf(ops, e - 1) == e - 1
            && Returned(DoAll(b, ops), d, x, fd, e, 2, 2)
  {
    var b, p, q := Back(d, x, fd, e), Hellos(fd, 5000, e - 1, e - 1), Ticks(e - 1, []);
    var id, z := Nth(x.id, 1), Back(d, x, fd, e).timers[1];
    NthNext(x.id, 0);
    NthNext(x.id, 1);
    TwoOps(b, p, q);
    CancelSecond(x, z, id);
    hide CancelFirst;
    hide Nth;
    var z' := Timer(NextId(id), e - 1 + 5000, 0, false, Action(SessionKind, fd, 2));
    var d1 := Do(b, p);
    assert d1.timers == [x, z.(cancelled := true), z'];
    QuietThree(d1, x, z.(cancelled := true), z', e - 1);
    hide Batch;
    assert [p, q][1..] == [q] && [q][1..] == [];
    assert Timely([], e - 1) && EndOf([], e - 1) == e - 1;
    assert Timely([q], e - 1) && EndOf([q], e - 1) == e - 1;
    assert NextIdFree(b);
  }

  /** The old timer then closes the connection early. */
  lemma Early(d: Deadlines, x: Timer, z: Timer, fd: Fd, e: int)
    requires d.timers == [x, z] && !x.cancelled && x.expire == e && !z.cancelled && e < z.expire
    requires x.action.fd == fd && Hits(d, x.action) && !PastDeadline(d.sessions[fd], e)
    ensures !Prompt(d, Ticks(e, [])) && !Punctual(d, [Ticks(e, [])])
  {
    BatchTwo(x, z, e);
    BatchOne(x, e);
    BatchOne(z, e);
    var actions, p := Expired(d.timers, e), d.(timers := Waiting(d.timers, e));
    assert actions == [x.action];
    assert RunUpTo(p, actions, [], 0) == p && FiredUpTo(p, actions, [], 0) == {};
    assert FiredUpTo(p, actions, [], 1) == {fd};
    assert fd in Fired(d, e, []);
  }

  /** The state the old timer is left alone in. */
  lemma LeftAlone(d: Deadlines, rest: seq<Timer>, x: Timer, e: int, from: int) returns (ops: seq<Op>)
    requires Shadowed(d, rest, x) && 0 < x.id && d.nextId == NextId(x.id) && x.expire == e && from <= e - 1
    ensures Fresh(d, ops) && Timely(ops, from) && EndOf(ops, from) == e - 1
    ensures Alone(DoAll(d, ops), x, e) && DoAll(d, ops).sessions == map[]
  {
    hide Shadowed;
    hide Fresh;
    hide Timely;
    hide EndOf;
    hide Do;
    hide DoAll;
    hide Batch;
    hide NextId;
    ShadowLive(d, rest, x);
    var closes, rest' := CloseEverybody(d, rest, x, from);
    var tick := [Ticks(e - 1, [])];
    ops := closes + tick;
    Concatenate(d, closes, tick);
    OneTick(DoAll(d, closes), from, e - 1);
    TimelyOn(closes, tick, from);
    EndOn(closes, tick, from);
    OnlyOneLeft(DoAll(d, closes), rest', x, e - 1);
  }

  lemma OneTick(d: Deadlines, from: int, now: int)
    requires from <= now
    ensures var tick := [Ticks(now, [])];
            && Timely(tick, from) && EndOf(tick, from) == now && Fresh(d, tick)
            && DoAll(d, tick) == Batch(d, now, [])
  {
    var tick := [Ticks(now, [])];
    assert tick[1..] == [];
    NothingToDo(Do(d, tick[0]), now);
  }

  lemma OnlyOneLeft(d: Deadlines, rest: seq<Timer>, x: Timer, now: int)
    requires d.timers == rest + [x] && (forall t :: t in rest ==> t.cancelled) && !x.cancelled && now < x.expire
    ensures Batch(d, now, []) == d.(timers := [x])
  {
    AllCancelled(rest, now);
    BatchOne(x, now);
    BatchParts(rest, [x], now);
    assert Expired(d.timers, now) == [] && Waiting(d.timers, now) == [x];
  }

  /** Once a timer shadows an older one of the same id, some continuation closes
      its connection early: close everybody, let the connection come back, and
      in the generation the timer was armed for it still fires. */
  lemma ShadowBreaks(d: Deadlines, rest: seq<Timer>, x: Timer, e: int, from: int)
    requires Shadowed(d, rest, x) && 0 < x.id && d.nextId == NextId(x.id) && x.expire == e && from <= e - 1
    requires 0 < x.action.generation < IDS
    requires if x.action.kind.HelloKind? then x.action.generation == 1 else x.action.generation >= 2
    ensures !Trustworthy(d, from)
  {
    hide Do;
    hide DoAll;
    hide Fresh;
    hide Timely;
    hide EndOf;
    hide Punctual;
    hide Shadowed;
    hide Alone;
    var fd, g := x.action.fd, x.action.generation;
    ShadowLive(d, rest, x);
    var a := LeftAlone(d, rest, x, e, from);
    var d1, b, last := DoAll(d, a), [Accepts(fd, e - 1, e - 1)], [Ticks(e, [])];
    ComesBack(d1, x, fd, e);
    var c, d2 := [], Back(d1, x, fd, e);
    NothingToDo(d2, e - 1);
    if g >= 2 { c := ReachGeneration(d1, x, fd, e, g); }
    var ops, d3 := a + (b + (c + last)), DoAll(d2, c);
    Early(d3, x, d3.timers[1], fd, e);
    Concatenate(d2, c, last);
    Concatenate(d1, b, c + last);
    Concatenate(d, a, b + (c + last));
    LastInTime(d3, e);
    TimelyOn(c, last, e - 1);
    TimelyOn(b, c + last, e - 1);
    TimelyOn(a, b + (c + last), from);
  }

  lemma ShadowLive(d: Deadlines, rest: seq<Timer>, x: Timer)
    requires Shadowed(d, rest, x)
    ensures !x.cancelled && x.interval == 0
  {
  }

  lemma NothingToDo(d: Deadlines, from: int)
    ensures DoAll(d, []) == d && Fresh(d, []) && Timely([], from) && EndOf([], from) == from
  {
  }

  lemma LastInTime(d: Deadlines, e: int)
    ensures var last := [Ticks(e, [])]; Timely(last, e - 1) && Fresh(d, last)
  {
    var last := [Ticks(e, [])];
    assert last[1..] == [] && Timely(last[1..], e) && Fresh(Do(d, last[0]), []);
  }

  /** Hello and heartbeats take the connection to any generation. */
  lemma ReachGeneration(d: Deadlines, x: Timer, fd: Fd, e: int, g: nat) returns (ops: seq<Op>)
    requires Alone(d, x, e) && 2 <= g < IDS
    ensures var b := Back(d, x, fd, e);
            && Fresh(b, ops) && Timely(ops, e - 1) && EndOf(ops, e - 1) == e - 1
            && Returned(DoAll(b, ops), d, x, fd, e, g, g)
  {
    hide Returned;
    var b, first := Back(d, x, fd, e), [Hellos(fd, 5000, e - 1, e - 1), Ticks(e - 1, [])];
    GreetedBack(d, x, fd, e);
    var more := Rounds(DoAll(b, first), d, x, fd, e, 2, 2, g - 2);
    ops := first + more;
    Concatenate(b, first, more);
    TimelyOn(first, more, e - 1);
    EndOn(first, more, e - 1);
  }

  // ---- The exact condition ---------------------------------------------------------------------------

  lemma OrderlyShadows(d: Deadlines, d': Deadlines, r: seq<Timer>, fd: Fd, c: Session, x: Timer)
    requires Matches(d.sessions, r, d.due, if fd in d.sessions then {fd} else {})
    requires Issued(r, x.id) && !x.cancelled && x.interval == 0 && OneId(c)
    requires d'.timers == r + [x] && d'.sessions == d.sessions[fd := c] && d'.due.Keys == d.due.Keys + {fd}
    ensures Shadowed(d', r, x)
  {
  }

  /** How many times the connection was armed before. */
  function GenerationOf(d: Deadlines, op: Op): nat {
    if !op.Ticks? && op.fd in d.sessions then d.sessions[op.fd].generation else 0
  }

  /** Arming a timer keeps all deadlines, whatever happens afterwards, if and only
      if the id that comes next is free.  (A connection that was armed four
      billion times cannot come back to its generation before ids run out.) */
  lemma ArmingIff(d: Deadlines, op: Op)
    requires Orderly(d) && Arms(d, op) && op.now <= op.armed && GenerationOf(d, op) + 1 < IDS
    ensures Trustworthy(Do(d, op), op.armed) <==> NextIdFree(d)
  {
    if NextIdFree(d) {
      DoOrderly(d, op);
      OrderlyIsTrustworthy(Do(d, op), op.armed);
    } else {
      ReissueBreaks(d, op);
    }
  }

  lemma ReissueBreaks(d: Deadlines, op: Op)
    requires Orderly(d) && Arms(d, op) && op.now <= op.armed && GenerationOf(d, op) + 1 < IDS && !NextIdFree(d)
    ensures !Trustworthy(Do(d, op), op.armed)
  {
    var d' := Do(d, op);
    ReissueShadows(d, op);
    var n := |d'.timers| - 1;
    ShadowBreaks(d', d'.timers[..n], d'.timers[n], d'.timers[n].expire, op.armed);
  }

  /** The last timer was armed for `op` under the id that was next, and shadows an older one. */
  ghost predicate Reissues(d: Deadlines, op: Op, d': Deadlines)
    requires !op.Ticks? && !op.Closes?
  {
    && d'.timers != [] && d'.nextId == NextId(d.nextId)
    && Shadowed(d', d'.timers[..|d'.timers| - 1], d'.timers[|d'.timers| - 1])
    && var x := d'.timers[|d'.timers| - 1];
       && 0 < x.id == d.nextId && op.armed < x.expire && x.action.generation == GenerationOf(d, op) + 1
       && (if op.Accepts? then x.action.kind.HelloKind? else x.action.kind.SessionKind? && GenerationOf(d, op) > 0)
  }

  /** The timer armed under a listed id shadows the older one. */
  lemma ReissueShadows(d: Deadlines, op: Op)
    requires Orderly(d) && Arms(d, op) && op.now <= op.armed && !NextIdFree(d)
    ensures Reissues(d, op, Do(d, op))
  {
    if op.Accepts? { AcceptReissues(d, op); } else { ArmReissues(d, op); }
  }

  lemma AcceptReissues(d: Deadlines, op: Op)
    requires Orderly(d) && Arms(d, op) && op.Accepts? && !NextIdFree(d)
    ensures Reissues(d, op, Do(d, op))
  {
    var d' := Do(d, op);
    var n := |d'.timers| - 1;
    assert d'.timers[..n] == d.timers;
    hide Matches;
    OrderlyShadows(d, d', d.timers, op.fd, d'.sessions[op.fd], d'.timers[n]);
  }

  /** A hello or heartbeat cancels the connection's timer and appends one. */
  lemma ArmsLast(d: Deadlines, op: Op) returns (x: Timer)
    requires Orderly(d) && Arms(d, op) && !op.Accepts?
    ensures var d', c := Do(d, op), d.sessions[op.fd];
            && d'.timers == CancelFirst(d.timers, IdOf(c)) + [x] && d'.nextId == NextId(d.nextId)
            && d'.sessions == d.sessions[op.fd := d'.sessions[op.fd]] && OneId(d'.sessions[op.fd])
            && d'.due.Keys == d.due.Keys + {op.fd}
    ensures x.id == d.nextId && x.expire > op.armed && !x.cancelled && x.interval == 0
    ensures x.action == Action(SessionKind, op.fd, GenerationOf(d, op) + 1) && GenerationOf(d, op) > 0
  {
    hide CancelFirst;
    CancelSane(d.timers, d.sessions[op.fd], d.due[op.fd]);
    hide Matches;
    var d' := Do(d, op);
    x := d'.timers[|d'.timers| - 1];
  }

  lemma CancelledMatches(d: Deadlines, fd: Fd)
    requires Orderly(d) && fd in d.sessions
    ensures Matches(d.sessions, CancelFirst(d.timers, IdOf(d.sessions[fd])), d.due, {fd})
  {
    DistinctOf(d.sessions, d.timers, d.due, {});
    CancelSane(d.timers, d.sessions[fd], d.due[fd]);
    CancelMatches(d.sessions, d.timers, CancelFirst(d.timers, IdOf(d.sessions[fd])), d.due, {}, fd);
    assert {} + {fd} == {fd};
  }

  lemma ArmReissues(d: Deadlines, op: Op)
    requires Orderly(d) && Arms(d, op) && !op.Accepts? && !NextIdFree(d)
    ensures Reissues(d, op, Do(d, op))
  {
    var d', fd := Do(d, op), op.fd;
    var id := IdOf(d.sessions[fd]);
    var r := CancelFirst(d.timers, id);
    assert Issued(d.timers, d.nextId) && 0 < d.nextId;
    hide *;
    var x := ArmsLast(d, op);
    CancelledMatches(d, fd);
    IdsStay(d.timers, id, x.id);
    OrderlyShadows(d, d', r, fd, d'.sessions[fd], x);
    ShownReissued(d, op, d', r, x);
  }

  lemma ShownReissued(d: Deadlines, op: Op, d': Deadlines, r: seq<Timer>, x: Timer)
    requires !op.Ticks? && !op.Closes? && !op.Accepts?
    requires d'.timers == r + [x] && Shadowed(d', r, x) && d'.nextId == NextId(d.nextId)
    requires 0 < x.id == d.nextId && op.armed < x.expire && GenerationOf(d, op) > 0
    requires x.action.kind.SessionKind? && x.action.generation == GenerationOf(d, op) + 1
    ensures Reissues(d, op, d')
  {
    hide Shadowed;
    assert d'.timers[..|d'.timers| - 1] == r && d'.timers[|d'.timers| - 1] == x;
  }

  // ---- Ids do run out ----------------------------------------------------------------------------------

  const START: Deadlines := Deadlines(map[], [], 1, map[])

  /** The first connection says hello, and its timer stays. */
  lemma FirstGreeting()
    ensures var ops := [Accepts(1, 0, 0), Hellos(1, 5000, 0, 0), Ticks(0, [])];
            && Fresh(START, ops) && Timely(ops, 0) && EndOf(ops, 0) == 0
            && DoAll(START, ops) == Deadlines(
                 map[1 := Session(true, 5000, 2, 0, 2, 0, 0)],
                 [Timer(2, 5000, 0, false, Action(SessionKind, 1, 2))], 3, map[1 := 5000])
  {
    var p, q, z := Accepts(1, 0, 0), Hellos(1, 5000, 0, 0), Ticks(0, []);
    FirstStates();
    var d1 := Do(START, p);
    var d2 := Do(d1, q);
    hide Do;
    TwoOps(d1, q, z);
    assert [p, q, z][1..] == [q, z] && [q, z][1..] == [z] && [z][1..] == [];
    NothingToDo(Do(d2, z), 0);
    assert Timely([z], 0) && EndOf([z], 0) == 0 && Timely([q, z], 0) && EndOf([q, z], 0) == 0;
  }

  lemma FirstStates()
    ensures var d1 := Do(START, Accepts(1, 0, 0));
            && NextIdFree(START) && NextIdFree(d1)
            && Do(Do(d1, Hellos(1, 5000, 0, 0)), Ticks(0, [])) == Deadlines(
                 map[1 := Session(true, 5000, 2, 0, 2, 0, 0)],
                 [Timer(2, 5000, 0, false, Action(SessionKind, 1, 2))], 3, map[1 := 5000])
  {
    var x, y := Timer(1, 5000, 0, false, Action(HelloKind, 1, 1)), Timer(2, 5000, 0, false, Action(SessionKind, 1, 2));
    var d1 := Do(START, Accepts(1, 0, 0));
    assert d1.timers == [x];
    var d2 := Do(d1, Hellos(1, 5000, 0, 0));
    assert CancelFirst([x], 1) == [x.(cancelled := true)];
    assert d2.timers == [x.(cancelled := true), y];
    QuietTwo(d2, x.(cancelled := true), y, 0);
    hide Batch;
    hide CancelFirst;
    assert d2 == Deadlines(map[1 := Session(true, 5000, 2, 0, 2, 0, 0)], d2.timers, 3, map[1 := 5000]);
  }

  lemma QuietTwo(d: Deadlines, x: Timer, y: Timer, now: int)
    requires d.timers == [x, y] && x.cancelled && !y.cancelled && now < y.expire
    ensures Do(d, Ticks(now, [])) == d.(timers := [y])
  {
    BatchTwo(x, y, now);
    BatchOne(x, now);
    BatchOne(y, now);
    assert Expired(d.timers, now) == [] && Waiting(d.timers, now) == [y];
  }

  /** From the start, with every id free when it was issued, a state is reached in
      which the next id is not. */
  lemma IdsRunOut() returns (ops: seq<Op>)
    ensures Timely(ops, 0) && Fresh(START, ops)
    ensures Orderly(DoAll(START, ops)) && !NextIdFree(DoAll(START, ops))
  {
    hide Do;
    hide DoAll;
    hide Fresh;
    hide Timely;
    hide EndOf;
    hide Orderly;
    var a := [Accepts(1, 0, 0), Hellos(1, 5000, 0, 0), Ticks(0, [])];
    FirstGreeting();
    var d1, x, b := DoAll(START, a), Timer(2, 5000, 0, false, Action(SessionKind, 1, 2)), [Accepts(2, 0, 0)];
    ComesBack(d1, x, 2, 1);
    var c := ReachGeneration(d1, x, 2, 1, IDS - 1);
    ops := a + (b + c);
    Concatenate(d1, b, c);
    Concatenate(START, a, b + c);
    TimelyOn(b, c, 0);
    TimelyOn(a, b + c, 0);
    StartOrderly();
    OrderlyStays(START, ops, 0);
    var d := DoAll(START, ops);
    assert d.timers[0] == x && d.nextId == 2;
    assert x in d.timers;
  }

  lemma StartOrderly()
    ensures Orderly(START)
  {
  }

  lemma {:induction false} OrderlyStays(d: Deadlines, ops: seq<Op>, from: int)
    requires Orderly(d) && Timely(ops, from) && Fresh(d, ops)
    ensures Orderly(DoAll(d, ops))
    decreases |ops|
  {
    hide Orderly;
    if ops != [] {
      DoOrderly(d, ops[0]);
      var from' := match ops[0] case Closes(_) => from case Ticks(now, _) => now case op => op.armed;
      OrderlyStays(Do(d, ops[0]), ops[1..], from');
    }
  }

  // ---- The shortest way to an early close ------------------------------------------------------------------

  /** A connection known when the callbacks start is closed by one of them, or it
      is still there. */
  lemma {:induction false} ClosedByItsOwn(d: Deadlines, actions: seq<Action>, n: nat, f: Fd)
    requires n <= |actions| && f in d.sessions
    ensures f in FiredUpTo(d, actions, [], n)
         || (f in RunUpTo(d, actions, [], n).sessions && RunUpTo(d, actions, [], n).sessions[f] == d.sessions[f])
  {
    if n > 0 {
      ClosedByItsOwn(d, actions, n - 1, f);
      var p, a := RunUpTo(d, actions, [], n - 1), actions[n - 1];
      if Hits(p, a) { ClosedAllRemoves(p, [a.fd] + []); }
    }
  }

  lemma {:induction false} FiredMore(d: Deadlines, actions: seq<Action>, m: nat, n: nat)
    requires m <= n <= |actions|
    ensures FiredUpTo(d, actions, [], m) <= FiredUpTo(d, actions, [], n)
  {
    if m < n { FiredMore(d, actions, m, n - 1); }
  }

  /** Whatever is listed: if the next id is, a connection accepted under it, closed
      and accepted again within the timeout is closed early. */
  lemma ReissuedIdClosesEarly(d: Deadlines, fd: Fd, now: int, armed: int, later: int)
    requires d.nextId != 0 && !NextIdFree(d) && fd !in d.sessions && armed < later <= armed + HELLO_TIMEOUT
    ensures var d' := Accepted(Closed(Accepted(d, fd, now, armed), fd), fd, later, later);
            fd in Fired(d', armed + HELLO_TIMEOUT, []) && !PastDeadline(d'.sessions[fd], armed + HELLO_TIMEOUT)
  {
    var e, x := armed + HELLO_TIMEOUT, Timer(d.nextId, armed + HELLO_TIMEOUT, 0, false, Action(HelloKind, fd, 1));
    NewerMissed(d.timers, x, x.id);
    hide CancelFirst;
    var d' := Accepted(Closed(Accepted(d, fd, now, armed), fd), fd, later, later);
    assert x == d'.timers[|d'.timers| - 2] && x in d'.timers;
    ExpiredIn(d'.timers, e, x.action);
    hide Expired;
    hide Waiting;
    FiredIfListed(d'.(timers := Waiting(d'.timers, e)), Expired(d'.timers, e), x.action);
  }

  lemma FiredIfListed(d: Deadlines, actions: seq<Action>, a: Action)
    requires a in actions && Hits(d, a)
    ensures a.fd in FiredUpTo(d, actions, [], |actions|)
  {
    var m :| 0 <= m < |actions| && actions[m] == a;
    ClosedByItsOwn(d, actions, m, a.fd);
    FiredMore(d, actions, m, |actions|);
    FiredMore(d, actions, m + 1, |actions|);
    assert a.fd in FiredUpTo(d, actions, [], m + 1);
  }

  /** The same through the service manager's own calls; `c` is the connection the
      batch closes. */
  method ReissuedId(st: SessionTimers, fd: Fd, now: int, armed: int, later: int)
    returns (fired: set<Fd>, ghost c: Session)
    requires st.nextId != 0 && !NextIdFree(st.D()) && fd !in st.sessions
    requires now <= armed < later <= armed + HELLO_TIMEOUT
    modifies st
    ensures fd in fired && c.acceptedAt == later && !PastDeadline(c, armed + HELLO_TIMEOUT)
  {
    hide Orderly;
    hide Fired;
    hide Batch;
    ReissuedIdClosesEarly(st.D(), fd, now, armed, later);
    st.Accept(fd, now, armed);
    st.Close(fd);
    st.Accept(fd, later, later);
    c := st.sessions[fd];
    fired := st.ProcessTimers(armed + HELLO_TIMEOUT, []);
  }
}

/** The timers of src/core/event_loop.cpp: a list in the order of arming, from
    which a cancelled timer is removed only by the next batch.

    Times are absolute milliseconds, passed in wherever the program reads its
    clock.
  */
module Timers {
  import opened Base

  datatype Kind = HelloKind | SessionKind

  /** What a deadline callback captured. */
  datatype Action = Action(kind: Kind, fd: Fd, generation: nat)

  /** A repeating timer has its interval, any other 0. */
  datatype Timer = Timer(id: u32, expire: int, interval: u32, cancelled: bool, action: Action)

  // ---- Cancelling ------------------------------------------------------------------------------------

  ghost predicate DistinctIds(timers: seq<Timer>) {
    forall i, j :: 0 <= i < j < |timers| ==> timers[i].id != timers[j].id
  }

  ghost predicate Issued(timers: seq<Timer>, id: u32) {
    exists t :: t in timers && t.id == id
  }

  function Cancelled(t: Timer, id: u32): Timer {
    if t.id == id then t.(cancelled := true) else t
  }

  /** The timer with this id is cancelled; all timers are still listed. */
  ghost predicate Cancels(timers: seq<Timer>, r: seq<Timer>, id: u32) {
    |r| == |timers| && forall i :: 0 <= i < |r| ==> r[i] == Cancelled(timers[i], id)
  }

  lemma CancelsIn(timers: seq<Timer>, r: seq<Timer>, id: u32, t: Timer)
    requires Cancels(timers, r, id)
    ensures t in timers ==> Cancelled(t, id) in r
    ensures t in r && !t.cancelled ==> t in timers && t.id != id
    ensures t in r ==> Issued(timers, t.id)
    ensures t in timers ==> Issued(r, t.id)
  {
    if t in timers {
      var i :| 0 <= i < |timers| && timers[i] == t;
      assert r[i] in r;
    }
    if t in r {
      var i :| 0 <= i < |r| && r[i] == t;
      assert timers[i] in timers;
    }
  }

  lemma SameId(timers: seq<Timer>, a: Timer, b: Timer)
    requires DistinctIds(timers) && a in timers && b in timers && a.id == b.id
    ensures a == b
  {
  }

  function CancelFirst(timers: seq<Timer>, id: u32): seq<Timer> {
    if timers == [] then []
    else if timers[0].id == id then [timers[0].(cancelled := true)] + timers[1..]
    else [timers[0]] + CancelFirst(timers[1..], id)
  }

  lemma {:induction false} CancelFirstOnly(timers: seq<Timer>, id: u32)
    requires DistinctIds(timers)
    ensures Cancels(timers, CancelFirst(timers, id), id)
  {
    if timers != [] && timers[0].id != id { CancelFirstOnly(timers[1..], id); }
  }

  lemma {:induction false} CancelFirstAt(timers: seq<Timer>, id: u32, i: nat)
    requires i <= |timers| && forall j :: 0 <= j < i ==> timers[j].id != id
    ensures i == |timers| ==> CancelFirst(timers, id) == timers
    ensures i < |timers| && timers[i].id == id ==>
              CancelFirst(timers, id) == timers[i := timers[i].(cancelled := true)]
  {
    if timers != [] && timers[0].id != id && i > 0 {
      CancelFirstAt(timers[1..], id, i - 1);
      assert timers == [timers[0]] + timers[1..];
    }
  }

  /** cancelTimer: the first timer with the id is marked, not removed. */
  method CancelTimer(timers: seq<Timer>, id: u32) returns (r: seq<Timer>)
    ensures r == CancelFirst(timers, id)
    ensures DistinctIds(timers) ==> Cancels(timers, r, id) && DistinctIds(r)
  {
    hide CancelFirst;
    if DistinctIds(timers) { CancelFirstOnly(timers, id); }
    for i := 0 to |timers|
      invariant forall j :: 0 <= j < i ==> timers[j].id != id
    {
      if timers[i].id == id {
        CancelFirstAt(timers, id, i);
        return timers[i := timers[i].(cancelled := true)];
      }
    }
    CancelFirstAt(timers, id, |timers|);
    return timers;
  }

  // ---- A batch ---------------------------------------------------------------------------------------

  /** What a batch at time `now` leaves of a timer: nothing when it was cancelled
      or had its last turn. */
  function After(t: Timer, now: int): seq<Timer> {
    if t.cancelled then []
    else if t.expire > now then [t]
    else if t.interval > 0 then [t.(expire := now + t.interval)]
    else []
  }

  /** The timers that stay after a batch at time `now`. */
  ghost function Waiting(timers: seq<Timer>, now: int): seq<Timer> {
    if timers == [] then []
    else Waiting(timers[..|timers| - 1], now) + After(timers[|timers| - 1], now)
  }

  /** The callbacks of a batch, in order. */
  ghost function Expired(timers: seq<Timer>, now: int): seq<Action> {
    if timers == [] then []
    else
      var last := timers[|timers| - 1];
      Expired(timers[..|timers| - 1], now) + if !last.cancelled && last.expire <= now then [last.action] else []
  }

  lemma NoneYet(now: int)
    ensures Waiting([], now) == [] && Expired([], now) == []
  {
  }

  lemma OneMore(timers: seq<Timer>, n: nat, now: int)
    requires n < |timers|
    ensures Waiting(timers[..n + 1], now) == Waiting(timers[..n], now) + After(timers[n], now)
    ensures var t := timers[n];
            Expired(timers[..n + 1], now) ==
              Expired(timers[..n], now) + if !t.cancelled && t.expire <= now then [t.action] else []
  {
    assert timers[..n + 1][..n] == timers[..n];
  }

  /** The first loop of processTimers, erasing while it iterates. */
  method Collect(timers0: seq<Timer>, now: int) returns (timers: seq<Timer>, expired: seq<Action>)
    ensures timers == Waiting(timers0, now) && expired == Expired(timers0, now)
  {
    hide Waiting;
    hide Expired;
    NoneYet(now);
    timers, expired := timers0, [];
    var i := 0;
    ghost var done := 0;
    while i < |timers|
      invariant 0 <= i <= |timers| && 0 <= done <= |timers0|
      invariant timers[..i] == Waiting(timers0[..done], now) && expired == Expired(timers0[..done], now)
      invariant timers[i..] == timers0[done..]
      decreases |timers| - i
    {
      assert timers[i] == timers0[done] && timers[i + 1..] == timers0[done + 1..];
      OneMore(timers0, done, now);
      if timers[i].cancelled {
        timers := timers[..i] + timers[i + 1..];
      } else if timers[i].expire - now <= 0 {
        expired := expired + [timers[i].action];
        if timers[i].interval > 0 {
          timers := timers[i := timers[i].(expire := now + timers[i].interval)];
          i := i + 1;
        } else {
          timers := timers[..i] + timers[i + 1..];
        }
      } else {
        i := i + 1;
      }
      done := done + 1;
    }
    assert timers[..i] == timers && timers0[..done] == timers0;
  }

  ghost predicate OneShot(timers: seq<Timer>) {
    forall t :: t in timers && !t.cancelled ==> t.interval == 0
  }

  lemma {:induction false} WaitingIn(timers: seq<Timer>, now: int, t: Timer)
    requires OneShot(timers)
    ensures t in Waiting(timers, now) <==> t in timers && !t.cancelled && t.expire > now
  {
    if timers != [] {
      assert OneShot(timers[..|timers| - 1]) && timers[|timers| - 1] in timers;
      WaitingIn(timers[..|timers| - 1], now, t);
      assert timers == timers[..|timers| - 1] + [timers[|timers| - 1]];
    }
  }

  lemma {:induction false} ExpiredIn(timers: seq<Timer>, now: int, a: Action)
    ensures a in Expired(timers, now) <==> exists t :: t in timers && !t.cancelled && t.expire <= now && t.action == a
  {
    if timers != [] {
      var front, last := timers[..|timers| - 1], timers[|timers| - 1];
      ExpiredIn(front, now, a);
      assert timers == front + [last];
      if a in Expired(timers, now) && a !in Expired(front, now) { assert last in timers; }
    }
  }

  lemma {:induction false} WaitingDistinct(timers: seq<Timer>, now: int)
    requires DistinctIds(timers) && OneShot(timers)
    ensures DistinctIds(Waiting(timers, now))
  {
    if timers != [] {
      var front, last := timers[..|timers| - 1], timers[|timers| - 1];
      assert timers == front + [last] && last in timers;
      WaitingDistinct(front, now);
      forall t | t in Waiting(front, now)
        ensures t.id != last.id
      {
        WaitingIn(front, now, t);
      }
    }
  }

  // ---- How long a poll may sleep -----------------------------------------------------------------

  /** What is left until a timer, within the range of a C int. */
  function Remaining(t: Timer, now: int): int {
    if t.expire <= now then 0 else if t.expire - now > 0x7FFF_FFFF then 0x7FFF_FFFF else t.expire - now
  }

  ghost predicate Soonest(timers: seq<Timer>, now: int, wait: int) {
    && (exists t :: t in timers && !t.cancelled && wait == Remaining(t, now))
    && (forall t :: t in timers && !t.cancelled ==> wait <= Remaining(t, now))
  }

  /** calculateTimeout: a poll sleeps until the soonest live timer or for the time
      asked, whichever is shorter; a negative request means no limit. */
  method CalculateTimeout(timers: seq<Timer>, requested: int, now: int) returns (wait: int)
    ensures (forall t :: t in timers ==> t.cancelled) ==> if requested < 0 then wait < 0 else wait == requested
    ensures (exists t :: t in timers && !t.cancelled) ==>
              if requested >= 0 && wait == requested
              then forall t :: t in timers && !t.cancelled ==> wait <= Remaining(t, now)
              else Soonest(timers, now, wait) && (requested < 0 || wait < requested)
  {
    if timers == [] { return requested; }
    var soonest := -1;
    for i := 0 to |timers|
      invariant soonest == -1 ==> forall t :: t in timers[..i] ==> t.cancelled
      invariant soonest != -1 ==> soonest > 0 && Soonest(timers[..i], now, soonest)
    {
      assert timers[..i + 1] == timers[..i] + [timers[i]];
      if !timers[i].cancelled {
        var left := Remaining(timers[i], now);
        if left == 0 {
          assert timers[i] in timers;
          return 0;
        }
        if soonest < 0 || left < soonest { soonest := left; }
      }
    }
    assert timers[..|timers|] == timers;
    if requested < 0 { return soonest; }
    if soonest < 0 { return requested; }
    return if requested < soonest then requested else soonest;
  }

  // ---- Issuing ids ---------------------------------------------------------------------------------

  /** How many ids there are: all but 0. */
  const IDS: nat := 0xFFFF_FFFF

  /** Ids wrap around and skip 0. */
  function NextId(id: u32): (r: u32)
    ensures r != 0 && (id != 0 ==> r != id)
  {
    if id == IDS then 1 else id + 1
  }
}

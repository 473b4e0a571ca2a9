/** Synchronous waits for replies (src/core/rpc_runtime.cpp waitForReply,
    src/core/pending_reply_table.cpp).

    A wait polls the event loop, and what a poll runs may wait again, so waits
    nest.  What the polls of a wait bring is given as a script: for each poll the
    callbacks it runs and the time it takes.  Scripts are finite trees; when a
    script ends, polls bring nothing more until the deadline.
  */
module ReplyWait {
  import opened Base
  import opened Frames

  /** One slot of PendingReplyTable. */
  datatype Slot = Slot(ready: bool, failed: bool, message: Option<Message>)

  type Slots = map<u32, Slot>

  /** What a callback does to the waits. */
  datatype Callback =
    | Reply(sequence: u32, message: Message)
    | Reconnect
    | Wait(sequence: u32, timeout: u32, polls: Polls)

  datatype Callbacks = Done | Then(first: Callback, rest: Callbacks)

  /** Each poll: its callbacks, how long it takes, and whether the connection is alive after it. */
  datatype Polls = NoMore | Poll(callbacks: Callbacks, takes: nat, alive: bool, next: Polls)

  datatype Outcome = Got(message: Message) | TimedOut | ConnectionClosed

  // ---- What happened, in order --------------------------------------------------------------------

  /** History: a reply came, the connection was replaced, a wait began or ended. */
  datatype Entry =
    | Arrived(sequence: u32, message: Message)
    | Cleared
    | Begun(sequence: u32)
    | Ended(sequence: u32)

  /** The first reply that came under the number. */
  ghost function First(log: seq<Entry>, s: u32): Option<Message> {
    if log == [] then None
    else
      var before := First(log[..|log| - 1], s);
      var last := log[|log| - 1];
      if before.None? && last.Arrived? && last.sequence == s then Some(last.message) else before
  }

  /** No reconnect happened, and no other wait for the same number. */
  ghost predicate Undisturbed(log: seq<Entry>, s: u32) {
    Cleared !in log && Begun(s) !in log && Ended(s) !in log
  }

  /** The first reply makes a waiting slot ready; later ones change nothing. */
  function Stored(slot: Slot, reply: Option<Message>): Slot {
    if slot.ready || reply.None? then slot else slot.(ready := true, message := reply)
  }

  /** How slots change along a piece of history: undisturbed ones keep the first
      reply; a slot got its reply, or failed, by something in the history. */
  ghost predicate Evolves(before: Slots, after: Slots, log: seq<Entry>) {
    && (forall s :: s in before && Undisturbed(log, s) ==> s in after && after[s] == Stored(before[s], First(log, s)))
    && (forall s :: s in after && after[s].ready ==>
          || (s in before && before[s].ready && before[s].message == after[s].message)
          || (after[s].message.Some? && Arrived(s, after[s].message.value) in log))
    && (forall s :: s in after && after[s].failed ==> (s in before && before[s].failed) || Cleared in log)
  }

  lemma {:induction false} FirstOf(a: seq<Entry>, b: seq<Entry>, s: u32)
    ensures First(a + b, s) == if First(a, s).Some? then First(a, s) else First(b, s)
    decreases |b|
  {
    if b == [] {
      assert a + b == a;
    } else {
      FirstOf(a, b[..|b| - 1], s);
      assert (a + b)[..|a + b| - 1] == a + b[..|b| - 1];
    }
  }

  lemma {:induction false} FirstArrived(log: seq<Entry>, s: u32)
    ensures First(log, s).Some? ==> Arrived(s, First(log, s).value) in log
  {
    if log != [] {
      FirstArrived(log[..|log| - 1], s);
      assert log[|log| - 1] in log;
    }
  }

  lemma EvolvesTwice(x: Slots, y: Slots, z: Slots, a: seq<Entry>, b: seq<Entry>)
    requires Evolves(x, y, a) && Evolves(y, z, b)
    ensures Evolves(x, z, a + b)
  {
    forall s | s in x && Undisturbed(a + b, s)
      ensures s in z && z[s] == Stored(x[s], First(a + b, s))
    {
      FirstOf(a, b, s);
      assert Undisturbed(a, s) && Undisturbed(b, s);
    }
  }

  lemma EvolvesNext(before: Slots, after: Slots, e: Entry)
    requires forall s :: s in before && (e.Begun? || e.Ended? ==> e.sequence != s) && !e.Cleared? ==>
               && s in after
               && after[s] == if e.Arrived? && e.sequence == s then Stored(before[s], Some(e.message)) else before[s]
    requires forall s :: s in after && after[s].ready ==>
               || (s in before && before[s].ready && before[s].message == after[s].message)
               || (after[s].message.Some? && e == Arrived(s, after[s].message.value))
    requires forall s :: s in after && after[s].failed ==> (s in before && before[s].failed) || e.Cleared?
    ensures Evolves(before, after, [e])
  {
    assert [e][..0] == [];
    forall s | s in before && Undisturbed([e], s)
      ensures s in after && after[s] == Stored(before[s], First([e], s))
    {
      assert First([], s) == None && [e][0] in [e];
    }
    assert e in [e];
  }

  /** What became of a slot that began to wait. */
  lemma WaitSettles(before: Slots, after: Slots, log: seq<Entry>, s: u32)
    requires Evolves(before, after, log) && s in before && !before[s].failed && !before[s].ready
    ensures s in after && after[s].ready ==>
              after[s].message.Some? && Arrived(s, after[s].message.value) in log
    ensures s in after && after[s].failed ==> Cleared in log
    ensures Undisturbed(log, s) ==>
              s in after && First(log, s) == if after[s].ready then after[s].message else None
  {
  }

  lemma WholeWait(before: Slots, begun: Slots, last: Slots, s: u32, during: seq<Entry>)
    requires Evolves(before, begun, [Begun(s)]) && Evolves(begun, last, during)
    ensures Evolves(before, last - {s}, [Begun(s)] + during + [Ended(s)])
  {
    EvolvesNext(last, last - {s}, Ended(s));
    hide Evolves;
    EvolvesTwice(before, begun, last, [Begun(s)], during);
    EvolvesTwice(before, last, last - {s}, [Begun(s)] + during, [Ended(s)]);
  }

  lemma WholeLog(before: seq<Entry>, begun: seq<Entry>, log: seq<Entry>, s: u32, during: seq<Entry>)
    requires begun == before + [Begun(s)] && log == begun + during + [Ended(s)]
    ensures before <= log && Since(log, before) == [Begun(s)] + during + [Ended(s)]
    ensures log == before + [Begun(s)] + during + [Ended(s)]
  {
  }

  /** Some poll found the connection dead. */
  predicate Dies(polls: Polls) {
    polls.Poll? && (!polls.alive || Dies(polls.next))
  }

  /** The rest of the history. */
  ghost function Since(log: seq<Entry>, old': seq<Entry>): seq<Entry>
    requires old' <= log
  {
    log[|old'|..]
  }

  lemma EvolvesYet(x: Slots, log: seq<Entry>)
    ensures Evolves(x, x, Since(log, log))
  {
    assert Since(log, log) == [];
  }

  lemma EvolvesOn(x: Slots, y: Slots, z: Slots, before: seq<Entry>, done: seq<Entry>, log: seq<Entry>)
    requires before <= done <= log && Evolves(x, y, Since(done, before)) && Evolves(y, z, Since(log, done))
    ensures before <= log && Evolves(x, z, Since(log, before))
  {
    hide Evolves;
    EvolvesTwice(x, y, z, Since(done, before), Since(log, done));
    assert Since(log, before) == Since(done, before) + Since(log, done);
  }

  // ---- Waiting, on values --------------------------------------------------------------------------

  /** What waits depend on. */
  datatype World = World(slots: Slots, inWait: bool, deadline: int, now: int)

  function Opened(slots: Slots, sequence: u32): Slots {
    if sequence in slots && slots[sequence].ready then slots else slots[sequence := Slot(false, false, None)]
  }

  function Delivered(slots: Slots, sequence: u32, message: Message): Slots {
    if sequence in slots then slots[sequence := Stored(slots[sequence], Some(message))] else slots
  }

  function Replaced(slots: Slots): Slots {
    map s | s in slots && !slots[s].ready :: slots[s].(failed := true)
  }

  predicate Ready(slots: Slots, sequence: u32) {
    sequence in slots && slots[sequence].ready
  }

  predicate Failed(slots: Slots, sequence: u32) {
    sequence in slots && slots[sequence].failed
  }

  /** After the callbacks of one poll. */
  function Ran(w: World, callbacks: Callbacks): World
    decreases callbacks
  {
    match callbacks
    case Done => w
    case Then(first, rest) =>
      var next :=
        match first
        case Reply(sequence, message) => w.(slots := Delivered(w.slots, sequence, message))
        case Reconnect => w.(slots := Replaced(w.slots))
        case Wait(sequence, timeout, polls) => Waited(w, sequence, timeout, polls).0;
      Ran(next, rest)
  }

  /** After polling for the reply; whether the wait failed. */
  function Polled(w: World, sequence: u32, polls: Polls): (World, bool)
    decreases polls, 0
  {
    if Ready(w.slots, sequence) || w.deadline <= w.now then (w, false)
    else if Failed(w.slots, sequence) then (w, true)
    else
      match polls
      case NoMore => (w.(now := w.deadline), false)
      case Poll(callbacks, takes, alive, next) =>
        var after := Ran(w.(now := w.now + takes), callbacks);
        if !Ready(after.slots, sequence) && !alive then (after, true) else Polled(after, sequence, next)
  }

  function Waited(w: World, sequence: u32, timeout: u32, polls: Polls): (World, Outcome)
    decreases polls, 1
  {
    var (last, closed) := Polled(World(Opened(w.slots, sequence), true, w.now + timeout, w.now), sequence, polls);
    (World(last.slots - {sequence}, w.inWait, w.deadline, last.now), OutcomeOf(last.slots, sequence, closed))
  }

  function OutcomeOf(last: Slots, sequence: u32, closed: bool): Outcome {
    if closed then ConnectionClosed
    else if Ready(last, sequence) && last[sequence].message.Some? then Got(last[sequence].message.value)
    else TimedOut
  }

  lemma WaitedIs(w: World, sequence: u32, timeout: u32, polls: Polls, last: World, closed: bool)
    requires Polled(World(Opened(w.slots, sequence), true, w.now + timeout, w.now), sequence, polls) == (last, closed)
    ensures Waited(w, sequence, timeout, polls) ==
              (World(last.slots - {sequence}, w.inWait, w.deadline, last.now), OutcomeOf(last.slots, sequence, closed))
  {
  }

  // ---- Waits that nothing disturbs -------------------------------------------------------------------

  /** The first reply to the number among these callbacks. */
  function ReplyIn(callbacks: Callbacks, sequence: u32): Option<Message> {
    match callbacks
    case Done => None
    case Then(first, rest) =>
      if first.Reply? && first.sequence == sequence then Some(first.message) else ReplyIn(rest, sequence)
  }

  /** No reconnect, and no other wait. */
  predicate OnlyReplies(callbacks: Callbacks) {
    callbacks.Then? ==> callbacks.first.Reply? && OnlyReplies(callbacks.rest)
  }

  predicate Plain(polls: Polls) {
    polls.Poll? ==> OnlyReplies(polls.callbacks) && Plain(polls.next)
  }

  /** The first poll, begun before time is up, that brings the reply or finds the
      connection dead, decides. */
  function Decided(sequence: u32, left: int, polls: Polls): Outcome {
    if left <= 0 || polls.NoMore? then TimedOut
    else if ReplyIn(polls.callbacks, sequence).Some? then Got(ReplyIn(polls.callbacks, sequence).value)
    else if !polls.alive then ConnectionClosed
    else Decided(sequence, left - polls.takes, polls.next)
  }

  lemma {:induction false} RanReplies(w: World, callbacks: Callbacks, sequence: u32)
    requires OnlyReplies(callbacks) && sequence in w.slots && !w.slots[sequence].ready
    ensures var after := Ran(w, callbacks);
            && after == w.(slots := after.slots) && sequence in after.slots
            && after.slots[sequence] == Stored(w.slots[sequence], ReplyIn(callbacks, sequence))
    decreases callbacks
  {
    if callbacks.Then? {
      var next := w.(slots := Delivered(w.slots, callbacks.first.sequence, callbacks.first.message));
      if callbacks.first.sequence == sequence { RanReady(next, callbacks.rest, sequence); }
      else { RanReplies(next, callbacks.rest, sequence); }
    }
  }

  lemma {:induction false} RanReady(w: World, callbacks: Callbacks, sequence: u32)
    requires OnlyReplies(callbacks) && sequence in w.slots && w.slots[sequence].ready
    ensures var after := Ran(w, callbacks);
            after == w.(slots := after.slots) && sequence in after.slots && after.slots[sequence] == w.slots[sequence]
    decreases callbacks
  {
    if callbacks.Then? {
      RanReady(w.(slots := Delivered(w.slots, callbacks.first.sequence, callbacks.first.message)),
               callbacks.rest, sequence);
    }
  }

  lemma {:induction false} PolledPlain(w: World, sequence: u32, polls: Polls)
    requires Plain(polls) && sequence in w.slots && w.slots[sequence] == Slot(false, false, None)
    ensures var (last, closed) := Polled(w, sequence, polls);
            && (closed <==> Decided(sequence, w.deadline - w.now, polls).ConnectionClosed?)
            && sequence in last.slots
            && (!closed ==>
                  last.slots[sequence] ==
                    match Decided(sequence, w.deadline - w.now, polls)
                    case Got(message) => Slot(true, false, Some(message))
                    case _ => Slot(false, false, None))
    decreases polls
  {
    if w.now < w.deadline && polls.Poll? {
      var after := Ran(w.(now := w.now + polls.takes), polls.callbacks);
      RanReplies(w.(now := w.now + polls.takes), polls.callbacks, sequence);
      if ReplyIn(polls.callbacks, sequence).None? && polls.alive { PolledPlain(after, sequence, polls.next); }
    }
  }

  /** A wait that nothing disturbs returns the reply exactly when it comes in a poll
      begun in time, before the connection is found dead. */
  lemma WaitedPlain(w: World, sequence: u32, timeout: u32, polls: Polls)
    requires Plain(polls) && !Ready(w.slots, sequence)
    ensures Waited(w, sequence, timeout, polls).1 == Decided(sequence, timeout, polls)
  {
    PolledPlain(World(Opened(w.slots, sequence), true, w.now + timeout, w.now), sequence, polls);
  }

  class RpcRuntime {
    var slots: Slots
    var inWait: bool
    var deadline: int
    var now: int

    ghost var log: seq<Entry>

    /** A ready slot holds a reply that arrived under the slot's own number. */
    ghost predicate Valid()
      reads this`slots, this`log
    {
      forall s :: s in slots && slots[s].ready ==>
        slots[s].message.Some? && Arrived(s, slots[s].message.value) in log
    }

    ghost function W(): World
      reads this`slots, this`inWait, this`deadline, this`now
    {
      World(slots, inWait, deadline, now)
    }

    constructor ()
      ensures Valid() && slots == map[] && !inWait
    {
      slots, inWait, deadline, now, log := map[], false, 0, 0, [];
    }

    /** nextSequence: 0 is skipped on wrap-around. */
    static method NextSequence(counter: u32) returns (sequence: u32, counter': u32)
      ensures sequence != 0 && sequence == counter'
      ensures counter < 0xFFFF_FFFF ==> sequence == counter + 1
    {
      counter' := (counter + 1) % 0x1_0000_0000;
      if counter' == 0 { counter' := 1; }
      sequence := counter';
    }

    // ---- PendingReplyTable ---------------------------------------------------------------------

    /** beginWait: a slot that is ready already stays so. */
    method BeginWait(sequence: u32)
      requires Valid()
      modifies this`slots, this`log
      ensures Valid() && slots.Keys == old(slots.Keys) + {sequence} && log == old(log) + [Begun(sequence)]
      ensures Evolves(old(slots), slots, [Begun(sequence)])
      ensures forall s :: s in old(slots) && s != sequence ==> slots[s] == old(slots)[s]
      ensures slots[sequence] == if sequence in old(slots) && old(slots)[sequence].ready then old(slots)[sequence]
                                 else Slot(false, false, None)
      ensures slots == Opened(old(slots), sequence)
    {
      log := log + [Begun(sequence)];
      if !(sequence in slots && slots[sequence].ready) {
        slots := slots[sequence := Slot(false, false, None)];
      }
      EvolvesNext(old(slots), slots, Begun(sequence));
    }

    /** storeReply: replies nobody waits for, and second replies, are dropped. */
    method StoreReply(sequence: u32, message: Message)
      requires Valid()
      modifies this`slots, this`log
      ensures Valid() && log == old(log) + [Arrived(sequence, message)]
      ensures Evolves(old(slots), slots, [Arrived(sequence, message)])
      ensures slots.Keys == old(slots.Keys)
      ensures forall s :: s in slots && s != sequence ==> slots[s] == old(slots)[s]
      ensures sequence in slots ==>
                slots[sequence] == if old(slots)[sequence].ready then old(slots)[sequence]
                                   else old(slots)[sequence].(ready := true, message := Some(message))
      ensures slots == Delivered(old(slots), sequence, message)
    {
      log := log + [Arrived(sequence, message)];
      if sequence in slots && !slots[sequence].ready {
        slots := slots[sequence := slots[sequence].(ready := true, message := Some(message))];
      }
      EvolvesNext(old(slots), slots, Arrived(sequence, message));
    }

    /** clear: ready slots go, the others are marked failed. */
    method Clear()
      requires Valid()
      modifies this`slots, this`log
      ensures Valid() && slots.Keys <= old(slots.Keys) && log == old(log) + [Cleared]
      ensures Evolves(old(slots), slots, [Cleared])
      ensures forall s :: s in old(slots) ==> (s in slots <==> !old(slots)[s].ready)
      ensures forall s :: s in slots ==> slots[s] == old(slots)[s].(failed := true)
      ensures slots == Replaced(old(slots))
    {
      slots, log := map s | s in slots && !slots[s].ready :: slots[s].(failed := true), log + [Cleared];
      EvolvesNext(old(slots), slots, Cleared);
    }

    /** The end of a wait: its slot goes, ready or not. */
    method EndWait(sequence: u32)
      requires Valid()
      modifies this`slots, this`log
      ensures Valid() && slots == old(slots) - {sequence} && log == old(log) + [Ended(sequence)]
    {
      slots, log := slots - {sequence}, log + [Ended(sequence)];
    }

    // ---- Waiting ---------------------------------------------------------------------------------

    /** The callbacks of one poll. */
    method RunCallbacks(callbacks: Callbacks)
      requires Valid()
      modifies this
      ensures Valid() && old(log) <= log && old(now) <= now
      ensures inWait == old(inWait) && deadline == old(deadline)
      ensures slots.Keys <= old(slots.Keys) && Evolves(old(slots), slots, Since(log, old(log)))
      ensures W() == Ran(old(W()), callbacks)
      decreases callbacks
    {
      hide Evolves;
      hide Waited;
      hide Delivered;
      hide Replaced;
      var left := callbacks;
      EvolvesYet(slots, log);
      while left.Then?
        invariant Valid() && old(log) <= log && old(now) <= now
        invariant inWait == old(inWait) && deadline == old(deadline)
        invariant slots.Keys <= old(slots.Keys) && Evolves(old(slots), slots, Since(log, old(log)))
        invariant left == callbacks || left < callbacks
        invariant Ran(W(), left) == Ran(old(W()), callbacks)
        decreases left
      {
        ghost var before, done := slots, log;
        match left.first {
          case Reply(sequence, message) => StoreReply(sequence, message);
          case Reconnect => Clear();
          case Wait(sequence, timeout, polls) => var _, _ := WaitForReply(sequence, timeout, polls);
        }
        EvolvesOn(old(slots), before, slots, old(log), done, log);
        left := left.rest;
      }
    }

    /** pendingReply. */
    predicate IsReady(sequence: u32)
      reads this`slots
    {
      sequence in slots && slots[sequence].ready
    }

    /** The loop of waitForReply: until the reply is there, the deadline passes,
        the slot is failed, or the connection is dead. */
    method PollUntilReady(sequence: u32, polls: Polls) returns (closed: bool)
      requires Valid()
      modifies this
      ensures Valid() && old(log) <= log && old(now) <= now
      ensures inWait == old(inWait) && deadline == old(deadline)
      ensures slots.Keys <= old(slots.Keys) && Evolves(old(slots), slots, Since(log, old(log)))
      ensures closed ==> !IsReady(sequence) && (Dies(polls) || (sequence in slots && slots[sequence].failed))
      ensures !closed && !IsReady(sequence) ==> now >= deadline
      ensures IsReady(sequence) ==> slots[sequence].message.Some?
      ensures old(IsReady(sequence)) ==> !closed && slots == old(slots) && now == old(now)
      ensures polls.NoMore? && sequence in old(slots) && !old(slots)[sequence].failed ==> !closed && slots == old(slots)
      ensures (W(), closed) == Polled(old(W()), sequence, polls)
      decreases polls, 0
    {
      hide Evolves;
      hide Since;
      hide Ran;
      EvolvesYet(slots, log);
      if IsReady(sequence) { return false; }
      var left := polls;
      while !IsReady(sequence)
        invariant Valid() && old(log) <= log && old(now) <= now
        invariant inWait == old(inWait) && deadline == old(deadline)
        invariant slots.Keys <= old(slots.Keys) && Evolves(old(slots), slots, Since(log, old(log)))
        invariant left == polls || left < polls
        invariant Dies(left) ==> Dies(polls)
        invariant polls.NoMore? ==> left.NoMore? && slots == old(slots)
        invariant Polled(W(), sequence, left) == Polled(old(W()), sequence, polls)
        decreases left, deadline - now
      {
        if deadline - now <= 0 { return false; }
        if sequence in slots && slots[sequence].failed { return true; }
        if left.Poll? {
          now := now + left.takes;
          ghost var before, done := slots, log;
          RunCallbacks(left.callbacks);
          EvolvesOn(old(slots), before, slots, old(log), done, log);
          if !IsReady(sequence) && !left.alive { return true; }
          left := left.next;
        } else {
          now := deadline;
        }
      }
      closed := false;
    }

    /** waitForReply.  However waits nest: the enclosing wait's deadline and flag
        are restored, the wait's own slot is gone, no slot was added, and all
        others evolved as replies came.  `during` is what happened meanwhile.
        Unless a reconnect or another wait for the number interfered, the first
        reply to come is what is returned, and without one the deadline passed
        or the connection died. */
    method WaitForReply(sequence: u32, timeout: u32, polls: Polls) returns (outcome: Outcome, ghost during: seq<Entry>)
      requires Valid()
      modifies this
      ensures Valid() && log == old(log) + [Begun(sequence)] + during + [Ended(sequence)] && old(now) <= now
      ensures inWait == old(inWait) && deadline == old(deadline)
      ensures sequence !in slots && slots.Keys <= old(slots.Keys) - {sequence}
      ensures Evolves(old(slots), slots, Since(log, old(log)))
      ensures old(IsReady(sequence)) ==> outcome == Got(old(slots)[sequence].message.value) && now == old(now)
      ensures !old(IsReady(sequence)) && outcome.Got? ==> Arrived(sequence, outcome.message) in during
      ensures !old(IsReady(sequence)) && Undisturbed(during, sequence) ==>
                First(during, sequence) == if outcome.Got? then Some(outcome.message) else None
      ensures outcome.TimedOut? ==> now >= old(now) + timeout
      ensures outcome.ConnectionClosed? ==> Dies(polls) || Cleared in during
      ensures polls.NoMore? && !old(IsReady(sequence)) ==> outcome.TimedOut?
      ensures (W(), outcome) == Waited(old(W()), sequence, timeout, polls)
      decreases polls, 2
    {
      hide Polled;
      hide Opened;
      hide Waited;
      hide Valid;
      hide Evolves;
      hide Undisturbed;
      hide First;
      hide Dies;
      ghost var w := W();
      var wasWaiting, wasDeadline := inWait, deadline;
      inWait, deadline := true, now + timeout;
      ghost var begun, closed;
      outcome, begun, during, closed := Attempt(sequence, timeout, polls);
      ghost var last, begin := slots, old(log) + [Begun(sequence)];
      WaitedIs(w, sequence, timeout, polls, W(), closed);
      EndWait(sequence);
      inWait, deadline := wasWaiting, wasDeadline;
      WholeWait(old(slots), begun, last, sequence, during);
      WholeLog(old(log), begin, log, sequence, during);
    }

    /** The wait proper, between saving and restoring the state of an outer one. */
    method Attempt(sequence: u32, timeout: u32, polls: Polls)
      returns (outcome: Outcome, ghost begun: Slots, ghost during: seq<Entry>, ghost closed: bool)
      requires Valid() && deadline == now + timeout
      modifies this
      ensures Valid() && log == old(log) + [Begun(sequence)] + during && old(now) <= now
      ensures inWait == old(inWait) && deadline == old(deadline)
      ensures slots.Keys <= old(slots.Keys) + {sequence}
      ensures Evolves(old(slots), begun, [Begun(sequence)]) && Evolves(begun, slots, during)
      ensures old(IsReady(sequence)) ==> outcome == Got(old(slots)[sequence].message.value) && now == old(now)
      ensures !old(IsReady(sequence)) && outcome.Got? ==> Arrived(sequence, outcome.message) in during
      ensures !old(IsReady(sequence)) && Undisturbed(during, sequence) ==>
                First(during, sequence) == if outcome.Got? then Some(outcome.message) else None
      ensures outcome.TimedOut? ==> now >= deadline
      ensures outcome.ConnectionClosed? ==> Dies(polls) || Cleared in during
      ensures polls.NoMore? && !old(IsReady(sequence)) ==> outcome.TimedOut?
      ensures outcome == OutcomeOf(slots, sequence, closed)
      ensures Polled(old(W()).(slots := Opened(old(slots), sequence)), sequence, polls) == (W(), closed)
      decreases polls, 1
    {
      hide Polled;
      hide Opened;
      hide Valid;
      hide Evolves;
      hide Undisturbed;
      hide First;
      hide Dies;
      BeginWait(sequence);
      begun := slots;
      ghost var begin := log;
      var dead := PollUntilReady(sequence, polls);
      closed := dead;
      outcome := if dead then ConnectionClosed
                 else if IsReady(sequence) then Got(slots[sequence].message.value)
                 else TimedOut;
      during := Since(log, begin);
      assert log == begin + during;
      if !begun[sequence].ready { WaitSettles(begun, slots, during, sequence); }
    }
  }
}

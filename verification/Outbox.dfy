/** What the service manager sends, and one connection's sending side
    (service_manager/service_manager_app.cpp sendMessage, flushPendingSends).

    `taken` and `frames` are history: the bytes the transport has accepted on
    this connection and the messages handed to it, both since it was accepted.
  */
module Outboxes {
  import opened Base
  import opened Wire
  import opened Frames
  import opened ServiceCodec
  import opened Registry

  const MSG_SERVICE_WATCH_NOTIFY: u16 := 0x002A
  const MSG_TOPIC_PUBLISHER_NOTIFY: u16 := 0x0034

  /** The types of replies and commands: all but those of the two notifications. */
  type PlainType = t: u16 | t != MSG_SERVICE_WATCH_NOTIFY && t != MSG_TOPIC_PUBLISHER_NOTIFY witness 0

  /** A message of the service manager.  Replies and diagnostic commands matter
      here only by their bytes; notifications are kept structured. */
  datatype Msg =
    | Plain(mtype: PlainType, sequence: u32, body: Bytes)
    | WatchNotify(sequence: u32, id: u64, identity: ServiceIdentity, online: bool)
    | PublisherNotify(sequence: u32, topic: Str, info: ServiceInfo, hash: u32)

  function MsgType(m: Msg): u16 {
    match m
    case Plain(t, _, _) => t
    case WatchNotify(_, _, _, _) => MSG_SERVICE_WATCH_NOTIFY
    case PublisherNotify(_, _, _, _) => MSG_TOPIC_PUBLISHER_NOTIFY
  }

  function Payload(m: Msg): Bytes {
    match m
    case Plain(_, _, body) => body
    case WatchNotify(_, id, who, online) =>
      Le64(id) + EncString(who.name) + EncString(who.hostId) + EncString(who.inst) + [BoolByte(online)]
    case PublisherNotify(_, topic, info, hash) =>
      EncString(topic) + EncService(info) + Le32(hash)
  }

  /** The message can be serialized at all: otherwise it is dropped, and nobody
      learns of it. */
  predicate Sendable(m: Msg) {
    FitsFrame(Payload(m)) && (m.PublisherNotify? ==> Encodable(m.info))
  }

  /** The frame of a message. */
  function WireOf(m: Msg): (r: Bytes)
    requires Sendable(m)
    ensures MESSAGE_HEADER_SIZE <= |r| <= MAX_MESSAGE_SIZE
  {
    Serialize(Header(OMNI_MAGIC, OMNI_VERSION, MsgType(m), m.sequence, 0), Payload(m))
  }

  /** What the peer's parser makes of it. */
  function Received(m: Msg): Message
    requires Sendable(m)
  {
    Message(Header(OMNI_MAGIC, OMNI_VERSION, MsgType(m), m.sequence, |Payload(m)|), Payload(m))
  }

  ghost predicate AllSendable(ms: seq<Msg>) {
    forall m :: m in ms ==> Sendable(m)
  }

  /** The frames of a list of messages. */
  ghost function WireFrames(ms: seq<Msg>): (r: seq<Bytes>)
    requires AllSendable(ms)
    ensures |r| == |ms|
  {
    seq(|ms|, i requires 0 <= i < |ms| => WireOf(ms[i]))
  }

  /** Names within the registry's limits always leave room for a watch notification. */
  lemma WatchNotifySendable(sequence: u32, id: u64, who: ServiceIdentity, online: bool)
    requires |who.name| <= MAX_NAME_LENGTH && |who.hostId| <= MAX_NAME_LENGTH && |who.inst| <= MAX_NAME_LENGTH
    ensures Sendable(WatchNotify(sequence, id, who, online))
  {
  }

  /** A reply of half the frame limit or less always fits. */
  lemma SmallReply(mtype: PlainType, sequence: u32, body: Bytes)
    requires |body| <= 0x80_0000
    ensures Sendable(Plain(mtype, sequence, body))
  {
  }

  datatype Outbox = Outbox(buffer: Bytes, offset: nat, taken: Bytes, frames: seq<Msg>, writeInterest: bool)

  const EMPTY_OUTBOX: Outbox := Outbox([], 0, [], [], false)

  function Pending(o: Outbox): Bytes
    requires o.offset <= |o.buffer|
  {
    o.buffer[o.offset..]
  }

  /** Nothing is lost, repeated or reordered: what the transport took, followed
      by what is pending, is the concatenation of all frames; pending bytes are
      bounded, and write readiness is watched exactly while there are some. */
  ghost predicate OutboxOk(o: Outbox) {
    && o.offset <= |o.buffer|
    && AllSendable(o.frames)
    && o.taken + Pending(o) == Stream(WireFrames(o.frames))
    && |Pending(o)| <= MAX_MESSAGE_SIZE
    && (o.writeInterest <==> |Pending(o)| > 0)
  }

  lemma FramesAppend(ms: seq<Msg>, m: Msg)
    requires AllSendable(ms) && Sendable(m)
    ensures AllSendable(ms + [m])
    ensures Stream(WireFrames(ms + [m])) == Stream(WireFrames(ms)) + WireOf(m)
  {
    assert WireFrames(ms + [m]) == WireFrames(ms) + [WireOf(m)];
    StreamAppend(WireFrames(ms), WireOf(m));
  }

  predicate Backlogged(o: Outbox) {
    o.offset < |o.buffer|
  }

  /** The frame may wait behind what is pending. */
  predicate HasRoom(o: Outbox, m: Msg)
    requires Sendable(m)
  {
    |o.buffer| - o.offset + |WireOf(m)| <= MAX_MESSAGE_SIZE
  }

  /** Something is pending already: the frame waits behind it. */
  function Queued(o: Outbox, m: Msg): Outbox
    requires Sendable(m)
  {
    o.(buffer := o.buffer + WireOf(m), frames := o.frames + [m], writeInterest := true)
  }

  /** Nothing is pending: the transport takes `n` bytes, the rest waits. */
  function Offered(o: Outbox, m: Msg, n: nat): Outbox
    requires Sendable(m) && n <= |WireOf(m)|
  {
    var rest := WireOf(m)[n..];
    var o' := o.(taken := o.taken + WireOf(m)[..n], frames := o.frames + [m]);
    if rest == [] then o' else o'.(buffer := rest, offset := 0, writeInterest := true)
  }

  /** The transport takes `n` of the pending bytes. */
  function Drained(o: Outbox, n: nat): Outbox
    requires o.offset + n <= |o.buffer|
  {
    o.(taken := o.taken + o.buffer[o.offset..o.offset + n], offset := o.offset + n)
  }

  lemma QueuedOk(o: Outbox, m: Msg)
    requires OutboxOk(o) && Sendable(m)
    requires |Pending(o)| + |WireOf(m)| <= MAX_MESSAGE_SIZE
    ensures OutboxOk(Queued(o, m))
  {
    hide WireOf;
    hide Sendable;
    hide Stream;
    hide WireFrames;
    FramesAppend(o.frames, m);
    var o' := Queued(o, m);
    assert Pending(o') == Pending(o) + WireOf(m);
    assert o.taken + (Pending(o) + WireOf(m)) == o.taken + Pending(o) + WireOf(m);
  }

  lemma OfferedOk(o: Outbox, m: Msg, n: nat)
    requires OutboxOk(o) && Sendable(m) && Pending(o) == [] && n <= |WireOf(m)|
    ensures OutboxOk(Offered(o, m, n))
  {
    hide WireOf;
    hide Sendable;
    FramesAppend(o.frames, m);
    var w := WireOf(m);
    assert w == w[..n] + w[n..];
    assert o.taken + [] == o.taken;
    assert o.taken + w == o.taken + w[..n] + w[n..];
    var o' := Offered(o, m, n);
    assert w[n..] != [] ==> Pending(o') == w[n..];
    assert w[n..] == [] ==> o'.taken + Pending(o') == o.taken + w;
  }

  /** How many of `n` bytes the transport takes when it would take `answer`. */
  function Accepted(answer: int, n: nat): (r: nat)
    requires 0 <= answer
    ensures r <= n
  {
    if answer < n then answer else n
  }

  /** The decision of sendMessage: wait behind pending bytes if there is room, or
      offer to the transport, which takes any part or fails.  None means that
      the connection is to be closed.  `answer` is what the transport will say. */
  method Enqueue(o: Outbox, m: Msg, answer: int) returns (r: Option<Outbox>)
    requires OutboxOk(o) && Sendable(m)
    ensures r.Some? ==> OutboxOk(r.value) && r.value.frames == o.frames + [m] && o.taken <= r.value.taken
    ensures Backlogged(o) ==> r == if HasRoom(o, m) then Some(Queued(o, m)) else None
    ensures !Backlogged(o) ==>
              r == if answer < 0 then None else Some(Offered(o, m, Accepted(answer, |WireOf(m)|)))
    ensures !Backlogged(o) && MAX_MESSAGE_SIZE <= answer ==> r.Some? && !Backlogged(r.value)
  {
    hide WireOf;
    hide Sendable;
    hide Stream;
    hide WireFrames;
    var output := WireOf(m);
    if o.offset < |o.buffer| {
      if |o.buffer| - o.offset + |output| > MAX_MESSAGE_SIZE { return None; }
      QueuedOk(o, m);
      return Some(Queued(o, m));
    }
    if answer < 0 { return None; }
    var sent := Accepted(answer, |output|);
    OfferedOk(o, m, sent);
    r := Some(Offered(o, m, sent));
  }

  /** OutboxOk, the write interest aside. */
  ghost predicate Draining(o: Outbox) {
    && o.offset <= |o.buffer| && AllSendable(o.frames)
    && o.taken + Pending(o) == Stream(WireFrames(o.frames)) && |Pending(o)| <= MAX_MESSAGE_SIZE
  }

  lemma DrainedStill(o: Outbox, n: nat)
    requires Draining(o) && o.offset + n <= |o.buffer|
    ensures Draining(Drained(o, n))
  {
    hide Stream;
    var o' := Drained(o, n);
    assert Pending(o) == o.buffer[o.offset..o.offset + n] + Pending(o');
    assert o'.taken + Pending(o') == o.taken + Pending(o);
  }

  /** How a flush of `left` bytes ends: the transport takes what it answers until it
      fails, takes nothing, or nothing is left. */
  datatype Flush = Flush(ok: bool, sent: nat, rest: seq<int>)

  function Flushed(left: nat, answers: seq<int>): (r: Flush)
    ensures r.sent <= left && (!r.ok ==> answers != [] && exists i :: 0 <= i < |answers| && answers[i] < 0)
    decreases |answers|
  {
    if left == 0 || answers == [] then Flush(true, left, answers)
    else if answers[0] <= 0 then Flush(answers[0] == 0, 0, answers[1..])
    else
      var n := Accepted(answers[0], left);
      var more := Flushed(left - n, answers[1..]);
      more.(sent := n + more.sent)
  }

  /** After `sent` bytes, the flush goes on as it would from there. */
  ghost predicate FlushesOn(all: nat, answers: seq<int>, sent: nat, rest: seq<int>) {
    && sent <= all
    && var more := Flushed(all - sent, rest);
       Flushed(all, answers) == more.(sent := sent + more.sent)
  }

  /** flushPendingSends: hand pending bytes to the transport until it takes no
      more, or none is left.  `ok` is false when the transport failed.  It
      answers as listed, and afterwards takes whatever it is offered. */
  method FlushPending(o: Outbox, answers: seq<int>) returns (ok: bool, r: Outbox, rest: seq<int>)
    requires OutboxOk(o)
    ensures answers == [] ==> ok && !Backlogged(r) && rest == []
    ensures ok ==> OutboxOk(r) && r.frames == o.frames
    ensures ok ==> o.taken <= r.taken && |r.taken| + |Pending(r)| == |o.taken| + |Pending(o)|
    ensures ok && !r.writeInterest ==> r.buffer == [] && r.taken == Stream(WireFrames(o.frames))
    ensures |o.taken| <= |r.taken| && Flush(ok, |r.taken| - |o.taken|, rest) == Flushed(|Pending(o)|, answers)
  {
    hide WireFrames;
    hide Sendable;
    hide Stream;
    r, rest := o, answers;
    while r.offset < |r.buffer|
      invariant answers == [] ==> rest == []
      invariant Draining(r) && r.frames == o.frames && o.taken <= r.taken
      invariant r.writeInterest == o.writeInterest && r.buffer == o.buffer && o.offset <= r.offset
      invariant |r.taken| + |Pending(r)| == |o.taken| + |Pending(o)|
      invariant FlushesOn(|Pending(o)|, answers, |r.taken| - |o.taken|, rest)
    {
      var answer, left := |r.buffer| - r.offset, |r.buffer| - r.offset;
      if rest != [] { answer, rest := rest[0], rest[1..]; }
      if answer < 0 { return false, r, rest; }
      var sent := Accepted(answer, left);
      if sent == 0 { return true, r.(writeInterest := true), rest; }
      DrainedStill(r, sent);
      r := Drained(r, sent);
    }
    assert Pending(r) == [] && r.taken + [] == r.taken;
    r := r.(buffer := [], offset := 0, writeInterest := false);
    assert Pending(r) == [];
    ok := true;
  }

  ghost function ReceivedAll(ms: seq<Msg>): seq<Message>
    requires AllSendable(ms)
  {
    seq(|ms|, i requires 0 <= i < |ms| => Received(ms[i]))
  }

  /** End to end: at any moment the peer's parse of the bytes taken so far
      yields a prefix of the messages sent, in order and never corrupt; once
      nothing is pending, it yields all of them. */
  lemma PeerReceives(o: Outbox)
    requires OutboxOk(o)
    ensures !CutStream(o.taken).corrupt
    ensures CutStream(o.taken).messages <= ReceivedAll(o.frames)
    ensures Pending(o) == [] ==> CutStream(o.taken) == Cut(ReceivedAll(o.frames), [], false)
  {
    var ms := o.frames;
    CutSerialized(WireFrames(ms), ReceivedAll(ms));
    hide CutStream;
    var all := o.taken + Pending(o);
    assert CutStream(all) == Cut(ReceivedAll(ms), [], false);
    if CutStream(o.taken).corrupt {
      CorruptStays(o.taken, Pending(o));
    } else {
      CutInTwo(o.taken, Pending(o));
    }
    if Pending(o) == [] { assert all == o.taken; }
  }
}

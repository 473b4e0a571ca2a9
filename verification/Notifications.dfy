/** What peers read in the notifications they get (src/core/runtime_sm.cpp
    handleServiceWatchNotify, handleTopicPublisherNotify): the readers undo what
    the service manager writes, so that what a watcher last read of an instance
    is what it was last told.
  */
module Notifications {
  import opened Base
  import opened Wire
  import opened Frames
  import opened ServiceCodec
  import opened Registry
  import opened Outboxes
  import opened ControlPlane

  // ---- Watch notifications -----------------------------------------------------------------------

  datatype WatchEvent = WatchEvent(id: u64, identity: ServiceIdentity, online: bool)

  /** The decoding part of handleServiceWatchNotify; a nameless event is malformed. */
  function ReadWatchNotify(payload: Bytes): Option<WatchEvent> {
    match ReadWatchFields(payload)
    case Ok(e, _) => if e.identity.name == [] then None else Some(e)
    case Fail(_) => None
  }

  function ReadWatchFields(payload: Bytes): Parsed<WatchEvent> {
    var (id, p) :- ReadU64(payload, 0);
    var (name, p) :- ReadString(payload, p);
    var (hostId, p) :- ReadString(payload, p);
    var (inst, p) :- ReadString(payload, p);
    var (online, p) :- ReadBool(payload, p);
    Ok(WatchEvent(id, ServiceIdentity(name, hostId, inst), online), p)
  }

  /** The watcher reads back id, name, host id, instance and state; exactly what has
      no name is refused. */
  lemma WatchNotifyRoundTrip(m: Msg)
    requires m.WatchNotify? && Sendable(m)
    ensures ReadWatchNotify(Payload(m)) ==
              if m.identity.name == [] then None else Some(WatchEvent(m.id, m.identity, m.online))
  {
    hide ReadString;
    hide ReadU64;
    hide ReadBool;
    hide EncString;
    hide Le64;
    hide At;
    var s, who := Payload(m), m.identity;
    var t4 := [BoolByte(m.online)];
    var t3 := EncString(who.inst) + t4;
    var t2 := EncString(who.hostId) + t3;
    var t1 := EncString(who.name) + t2;
    assert s == Le64(m.id) + t1;
    WholeAt(s);
    U64Then(s, 0, m.id, t1);
    StringThen(s, 8, who.name, t2);
    var p := 12 + |who.name|;
    StringThen(s, p, who.hostId, t3);
    p := p + 4 + |who.hostId|;
    StringThen(s, p, who.inst, t4);
    ReadBoolAt(s, p + 4 + |who.inst|, m.online);
  }

  lemma WholeAt(s: Bytes)
    ensures At(s, 0, s)
  {
  }

  // ---- Publisher notifications --------------------------------------------------------------------

  datatype PublisherEvent = PublisherEvent(topic: Str, info: ServiceInfo, hash: u32)

  /** The decoding part of handleTopicPublisherNotify; the hash may be missing. */
  function ReadPublisherNotify(payload: Bytes): Option<PublisherEvent> {
    match ReadString(payload, 0)
    case Fail(_) => None
    case Ok(topic, p) =>
      match ReadService(payload, p)
      case Fail(_) => None
      case Ok(info, q) =>
        if CanRead(payload, q, 4) then Some(PublisherEvent(topic, info, ReadU32(payload, q).value))
        else Some(PublisherEvent(topic, info, 0))
  }

  /** The subscriber reads back topic, description and hash, with ring capacities
      of 32 bits. */
  lemma PublisherNotifyRoundTrip(m: Msg)
    requires m.PublisherNotify? && Sendable(m)
    ensures ReadPublisherNotify(Payload(m)) == Some(PublisherEvent(m.topic, OnWire(m.info), m.hash))
  {
    hide ReadString;
    hide ReadService;
    hide EncString;
    hide EncService;
    hide Le32;
    hide ReadU32;
    hide At;
    var s := Payload(m);
    var t1 := EncService(m.info) + Le32(m.hash);
    assert s == EncString(m.topic) + t1;
    WholeAt(s);
    StringThen(s, 0, m.topic, t1);
    var p := 4 + |m.topic|;
    AtSplit(s, p, EncService(m.info), Le32(m.hash));
    ReadServiceAt(s, p, m.info);
    ReadU32At(s, p + |EncService(m.info)|, m.hash);
  }

  // ---- From end to end -----------------------------------------------------------------------------

  /** The message tells the group of the instance. */
  ghost predicate Speaks(m: Message, id: u64, key: Ident) {
    && m.header.mtype == MSG_SERVICE_WATCH_NOTIFY
    && var e := ReadWatchNotify(m.payload); e.Some? && e.value.id == id && e.value.identity.Key() == key
  }

  /** What a watcher last read of the instance for the group, after the first
      `since` messages. */
  ghost function LastRead(ms: seq<Message>, since: nat, id: u64, key: Ident): Option<bool> {
    if |ms| <= since then None
    else
      var m := ms[|ms| - 1];
      if Speaks(m, id, key) then Some(ReadWatchNotify(m.payload).value.online)
      else LastRead(ms[..|ms| - 1], since, id, key)
  }

  lemma SpeaksIffAbout(m: Msg, id: u64, key: Ident)
    requires Sendable(m) && key.name != []
    ensures Speaks(Received(m), id, key) <==> About(m, id, key)
    ensures About(m, id, key) ==> ReadWatchNotify(Payload(m)).value.online == m.online
  {
    hide ReadWatchNotify;
    if m.WatchNotify? { WatchNotifyRoundTrip(m); }
  }

  /** Reading what was received gives what was told, message for message. */
  lemma {:induction false} ReadAsTold(ms: seq<Msg>, since: nat, id: u64, key: Ident)
    requires AllSendable(ms) && key.name != []
    ensures LastRead(ReceivedAll(ms), since, id, key) == LastSince(ms, since, id, key)
  {
    hide Speaks;
    hide Sendable;
    hide Received;
    hide ReadWatchNotify;
    if |ms| > since {
      var front, m := ms[..|ms| - 1], ms[|ms| - 1];
      assert ReceivedAll(ms)[..|ms| - 1] == ReceivedAll(front) && ReceivedAll(ms)[|ms| - 1] == Received(m);
      ReadAsTold(front, since, id, key);
      SpeaksIffAbout(m, id, key);
      ReceivedPayload(m);
    }
  }

  lemma ReceivedPayload(m: Msg)
    requires Sendable(m)
    ensures Received(m).payload == Payload(m)
  {
  }

  /** Once nothing is pending, what the peer's parser made of the bytes says of each
      instance what the group was last told. */
  lemma WatcherReads(o: Outbox, since: nat, id: u64, key: Ident)
    requires OutboxOk(o) && Pending(o) == [] && key.name != []
    ensures LastRead(CutStream(o.taken).messages, since, id, key) == LastSince(o.frames, since, id, key)
  {
    PeerReceives(o);
    hide CutStream;
    ReadAsTold(o.frames, since, id, key);
  }

  /** Nothing is ever read of an instance without a name. */
  lemma {:induction false} NamelessUnread(ms: seq<Message>, since: nat, id: u64, key: Ident)
    requires key.name == []
    ensures LastRead(ms, since, id, key) == None
  {
    if |ms| > since { NamelessUnread(ms[..|ms| - 1], since, id, key); }
  }
}

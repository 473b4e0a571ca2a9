/** The handlers of service_manager/sm_topic.cpp.  Requests arrive decoded; None
    stands for a payload that does not decode.
  */
module TopicHandlers {
  import opened Base
  import opened TopicKeys
  import opened Wire
  import opened ServiceCodec
  import opened Registry
  import opened Watching
  import opened TopicTables
  import opened TopicState
  import opened TopicManagement
  import opened Outboxes
  import opened ControlPlane
  import opened Commands
  import opened Invariants
  import opened StateInvariant
  import opened ProcessTables
  import opened ServiceManagement
  import PublishedTopics

  const MSG_PUBLISH_TOPIC_REPLY: PlainType := 0x0031
  const MSG_SUBSCRIBE_TOPIC_REPLY: PlainType := 0x0033
  const MSG_QUERY_PUBLISHED_TOPICS_REPLY: PlainType := 0x0038

  datatype PublishRequest = PublishRequest(topic: Str, info: ServiceInfo, hash: u32)
  datatype SubscribeRequest = SubscribeRequest(topic: Str, sel: Selector)

  // ---- Rendezvous, while one publisher is being announced -------------------------------------

  /** Nobody is owed a notification, except those `waiting` to hear of publisher `p`. */
  ghost predicate RendezvousBut(s: Sm, p: SlotId, waiting: set<Fd>) {
    forall slot: SlotId, sub: SubId :: Meets(s, slot, sub) && sub.fd in s.clients ==>
      Met(s, slot, sub) && (!(slot == p && sub.fd in waiting) ==> Knows(s, slot, sub))
  }

  lemma ShrinksKeepsWaiting(s: Sm, t: Sm, a: set<Says>, p: SlotId, waiting: set<Fd>)
    requires Shrinks(s, t, a) && RendezvousBut(s, p, waiting)
    ensures RendezvousBut(t, p, waiting)
  {
    hide Shrinks;
    hide Knows;
    hide Met;
    forall slot: SlotId, sub: SubId | Meets(t, slot, sub) && sub.fd in t.clients
      ensures Met(t, slot, sub) && (!(slot == p && sub.fd in waiting) ==> Knows(t, slot, sub))
    {
      KnowsLater(s, t, a, slot, sub);
    }
  }

  /** One subscriber less is waiting once it has newly heard. */
  lemma WaitsNoMore(s: Sm, t: Sm, p: SlotId, waiting: set<Fd>, f: Fd)
    requires RendezvousBut(s, p, waiting) && (f in t.clients ==> Grew(s, t, f))
    requires RendezvousBut(t, p, waiting)
    requires p in t.tabs.slots && f in t.clients ==>
               var slot := t.tabs.slots[p];
               NotifyFits(p.topic, slot.info, slot.hash) ==> Heard(News(s, t, f), p.topic, slot.info, slot.hash)
    ensures RendezvousBut(t, p, waiting - {f})
  {
    hide NotifyFits;
    hide Heard;
    forall sub: SubId | Meets(t, p, sub) && sub.fd == f && f in t.clients
      ensures Knows(t, p, sub)
    {
      assert Meets(s, p, sub) && Met(s, p, sub);
      var n, slot := s.met[Pair(p, sub)], t.tabs.slots[p];
      var before, after := s.clients[f].out.frames, t.clients[f].out.frames;
      TailGrows(before, after, n);
      if Heard(News(s, t, f), p.topic, slot.info, slot.hash) {
        HeardPart(before[n..], News(s, t, f), p.topic, slot.info, slot.hash);
      }
    }
  }

  lemma TailGrows(before: seq<Msg>, after: seq<Msg>, n: nat)
    requires before <= after && n <= |before|
    ensures after[n..] == before[n..] + after[|before|..]
  {
  }

  /** Nobody waits who does not want the publisher. */
  lemma OnlyWanting(s: Sm, p: SlotId, waiting: set<Fd>, fds: seq<Fd>)
    requires RendezvousBut(s, p, waiting)
    requires forall f :: f in fds <==> Wants(s.tabs.subs, f, p.topic, p.service, p.inst)
    ensures RendezvousBut(s, p, SetOf(fds))
  {
    hide Knows;
    hide Met;
    forall sub: SubId | Meets(s, p, sub)
      ensures sub.fd in fds
    {
      assert Wants(s.tabs.subs, sub.fd, p.topic, p.service, p.inst);
    }
  }

  ghost function SetOf(fds: seq<Fd>): set<Fd> {
    set f | f in fds
  }

  lemma NobodyWaits(s: Sm, p: SlotId)
    ensures RendezvousBut(s, p, {}) <==> Rendezvous(s)
  {
    hide NotifyFits;
    hide Heard;
  }

  /** sendTopicPublisherNotify: nothing for a connection that is gone, and
      nothing when the notification does not serialize. */
  method SendPublisherNotify(sm: ServiceManager, f: Fd, topic: Str, info: ServiceInfo, hash: u32)
    requires sm.Ready()
    modifies sm, sm.registry, sm.watchers, sm.topicManager
    ensures sm.Ready() && Buried(old(sm.V()), sm.V(), {})
    ensures Shrinks(old(sm.V()), sm.V(), {Offers(f, topic, info, hash)})
    ensures f in sm.clients ==> Grew(old(sm.V()), sm.V(), f)
    ensures f in sm.clients && NotifyFits(topic, info, hash) ==> Heard(News(old(sm.V()), sm.V(), f), topic, info, hash)
    ensures sm.clean == old(sm.clean)
    ensures old(sm.Smooth()) ==> sm.Smooth() && sm.clients.Keys == old(sm.clients.Keys)
  {
    hide ServiceManager.Smooth;
    hide ServiceManager.Objects;
    hide ServiceRegistry.Valid;
    hide WatchNotifier.Valid;
    hide TopicManager.Valid;
    hide TopicManager.ExactIndex;
    hide ServiceManager.OutboxesOk;
    hide PidsExact;
    hide WatchersMirror;
    hide SinceOk;
    hide Shrinks;
    hide Told;
    hide Buried;
    hide Halted;
    hide Sendable;
    ghost var s := sm.V();
    if f !in sm.clients {
      ShrinksSame(s, {Offers(f, topic, info, hash)});
      BuriedSame(s, {});
      return;
    }
    var n := sm.NextNumber();
    var m := PublisherNotify(n, topic, info, hash);
    FitsWhatever(n, topic, info, hash);
    sm.SendMessage(f, m, {Offers(f, topic, info, hash)});
    SameGrew(s, f);
    if f in sm.clients && Sendable(m) {
      ReplyGrew(s, sm.V(), f, m);
      JustHeard(s, sm.V(), f, m);
    }
  }

  lemma FitsWhatever(n: u32, topic: Str, info: ServiceInfo, hash: u32)
    ensures NotifyFits(topic, info, hash) <==> Sendable(PublisherNotify(n, topic, info, hash))
  {
  }

  lemma SameGrew(s: Sm, f: Fd)
    requires f in s.clients
    ensures Grew(s, s, f)
  {
    assert s.clients == s.clients[f := s.clients[f]];
  }

  lemma JustHeard(s: Sm, t: Sm, f: Fd, m: Msg)
    requires Sent(s, t, f, m) && m.PublisherNotify?
    ensures Grew(s, t, f) && Heard(News(s, t, f), m.topic, m.info, m.hash)
  {
    assert IsPublisherNotify(News(s, t, f)[0], m.topic, m.info, m.hash);
  }

  // ---- Publishing ---------------------------------------------------------------------------

  /** What is published under: the request's own description, but located and
      identified as the registry says. */
  function Authoritative(claimed: ServiceInfo, registered: ServiceInfo): ServiceInfo {
    claimed.(host := registered.host, port := registered.port, hostId := registered.hostId, inst := registered.inst)
  }

  /** The slot, and when each subscriber met it. */
  ghost function WithSlot(s: Sm, id: SlotId, slot: Slot): Sm {
    s.(tabs := s.tabs.(slots := s.tabs.slots[id := slot]), met := MetSlot(s, id))
  }

  ghost function MetSlot(s: Sm, id: SlotId): map<Pair, nat> {
    s.met + map sub | sub in s.tabs.subs && sub.fd in s.clients :: Pair(id, sub) := |s.clients[sub.fd].out.frames|
  }

  lemma MetSlotAt(s: Sm, id: SlotId, x: SlotId, sub: SubId)
    requires sub in s.tabs.subs && sub.fd in s.clients
    ensures x == id ==> Pair(x, sub) in MetSlot(s, id) && MetSlot(s, id)[Pair(x, sub)] == |s.clients[sub.fd].out.frames|
    ensures x != id && Pair(x, sub) in s.met ==>
              Pair(x, sub) in MetSlot(s, id) && MetSlot(s, id)[Pair(x, sub)] == s.met[Pair(x, sub)]
  {
  }

  /** The publisher belongs to the connection that owns the instance. */
  ghost predicate Rightful(s: Sm, id: SlotId, slot: Slot) {
    OwnsNamed(s.tabs.reg, Ident(id.service, id.inst), id.service, slot.fd)
  }

  lemma WithSlotOwned(s: Sm, id: SlotId, slot: Slot)
    requires Owned(s) && Rightful(s, id, slot)
    ensures OwnedBut(WithSlot(s, id, slot), {})
    ensures id in s.tabs.slots ==> s.tabs.slots[id].fd == slot.fd
  {
  }

  lemma WithSlotWaiting(s: Sm, id: SlotId, slot: Slot)
    requires Rendezvous(s)
    ensures RendezvousBut(WithSlot(s, id, slot), id, s.clients.Keys)
  {
    hide NotifyFits;
    hide Heard;
    var t := WithSlot(s, id, slot);
    forall x: SlotId, sub: SubId | Meets(t, x, sub) && sub.fd in t.clients
      ensures Met(t, x, sub) && (x == id || Knows(t, x, sub))
    {
      MetSlotAt(s, id, x, sub);
      hide MetSlot;
      if x != id { assert Meets(s, x, sub) && Knows(s, x, sub); }
    }
  }

  lemma WithSlotLive(s: Sm, id: SlotId, slot: Slot)
    requires Live(s) && PidsExact(s) && SessionsOk(s) && Rightful(s, id, slot)
    ensures var t := WithSlot(s, id, slot); Live(t) && PidsExact(t) && SessionsOk(t)
  {
  }

  lemma WithSlotInv(s: Sm, id: SlotId, slot: Slot, clean: bool)
    requires Inv(s, clean) && Rightful(s, id, slot)
    ensures var t := WithSlot(s, id, slot); InvBut(t, clean, {}) && RendezvousBut(t, id, s.clients.Keys)
    ensures id in s.tabs.slots ==> s.tabs.slots[id].fd == slot.fd
    ensures WatchersMirror(WithSlot(s, id, slot))
  {
    hide Live;
    hide PidsExact;
    hide SessionsOk;
    hide Owned;
    hide Rendezvous;
    hide RendezvousBut;
    hide SinceOk;
    hide OnlyWatched;
    hide ReportedBut;
    hide ReportedOnline;
    hide NoStaleBut;
    hide NoStaleOnline;
    hide Rightful;
    var t := WithSlot(s, id, slot);
    WithSlotOwned(s, id, slot);
    WithSlotWaiting(s, id, slot);
    WithSlotLive(s, id, slot);
    ReportsKept(s, t, {}, clean);
  }

  /** The loop of handlePublishTopic: every waiting subscriber is notified. */
  method NotifySubscribers(sm: ServiceManager, id: SlotId, info: ServiceInfo, hash: u32, fds: seq<Fd>)
    requires sm.Ready() && RendezvousBut(sm.V(), id, SetOf(fds))
    requires id in sm.V().tabs.slots ==> sm.V().tabs.slots[id].info == info && sm.V().tabs.slots[id].hash == hash
    modifies sm, sm.registry, sm.watchers, sm.topicManager
    ensures sm.Ready() && Shrinks(old(sm.V()), sm.V(), OffersTo(fds, id.topic, info, hash))
    ensures Buried(old(sm.V()), sm.V(), {})
    ensures Rendezvous(sm.V())
    ensures forall f :: f in fds && f in sm.clients ==> HeardSince(old(sm.V()), sm.V(), f, id.topic, info, hash)
    ensures sm.clean == old(sm.clean)
    ensures old(sm.Smooth()) ==> sm.Smooth() && sm.clients.Keys == old(sm.clients.Keys)
  {
    hide ServiceManager.Smooth;
    hide ServiceManager.Objects;
    hide ServiceRegistry.Valid;
    hide WatchNotifier.Valid;
    hide TopicManager.Valid;
    hide TopicManager.ExactIndex;
    hide ServiceManager.OutboxesOk;
    hide PidsExact;
    hide WatchersMirror;
    hide SinceOk;
    hide Shrinks;
    hide Told;
    hide Buried;
    hide Halted;
    hide Inv;
    hide RendezvousBut;
    hide Rendezvous;
    hide NotifyFits;
    hide Heard;
    hide Grew;
    ghost var s, a := sm.V(), OffersTo(fds, id.topic, info, hash);
    ShrinksSame(s, a);
    BuriedSame(s, {});
    for i := 0 to |fds|
      invariant sm.Ready() && Shrinks(s, sm.V(), a) && Buried(s, sm.V(), {})
      invariant forall f :: f in fds[..i] && f in sm.clients ==> HeardSince(s, sm.V(), f, id.topic, info, hash)
      invariant sm.clean == old(sm.clean)
      invariant old(sm.Smooth()) ==> sm.Smooth() && sm.clients.Keys == old(sm.clients.Keys)
      invariant id in sm.V().tabs.slots ==> sm.V().tabs.slots[id].info == info && sm.V().tabs.slots[id].hash == hash
      invariant RendezvousBut(sm.V(), id, SetOf(fds[i..]))
    {
      ghost var t := sm.V();
      SendPublisherNotify(sm, fds[i], id.topic, info, hash);
      ShrinksMore(t, sm.V(), {Offers(fds[i], id.topic, info, hash)}, a);
      ShrinksKeepsWaiting(t, sm.V(), a, id, SetOf(fds[i..]));
      if id in sm.V().tabs.slots { SlotsKept(t, sm.V(), a, id); }
      WaitsNoMore(t, sm.V(), id, SetOf(fds[i..]), fds[i]);
      StillWaiting(sm.V(), id, fds, i);
      HeardNext(s, t, sm.V(), a, fds, i, id.topic, info, hash);
      ShrinksTwice(s, t, sm.V(), a);
      BuriedTwice(s, t, sm.V(), a, {});
    }
    assert fds[..|fds|] == fds;
    assert SetOf(fds[|fds|..]) == {};
    NobodyWaits(sm.V(), id);
  }

  /** The connection was sent the publisher, if that fits, after the messages it
      had been sent in `s`. */
  ghost predicate HeardSince(s: Sm, t: Sm, f: Fd, topic: Str, info: ServiceInfo, hash: u32) {
    && f in s.clients && f in t.clients && s.clients[f].out.frames <= t.clients[f].out.frames
    && (NotifyFits(topic, info, hash) ==>
          Heard(t.clients[f].out.frames[|s.clients[f].out.frames|..], topic, info, hash))
  }

  lemma HeardNext(s: Sm, t: Sm, u: Sm, a: set<Says>, fds: seq<Fd>, i: nat, topic: Str, info: ServiceInfo, hash: u32)
    requires Shrinks(s, t, a) && Shrinks(t, u, a) && i < |fds|
    requires forall f :: f in fds[..i] && f in t.clients ==> HeardSince(s, t, f, topic, info, hash)
    requires fds[i] in u.clients ==>
               Grew(t, u, fds[i]) && (NotifyFits(topic, info, hash) ==> Heard(News(t, u, fds[i]), topic, info, hash))
    ensures forall f :: f in fds[..i + 1] && f in u.clients ==> HeardSince(s, u, f, topic, info, hash)
  {
    hide NotifyFits;
    forall f | f in fds[..i + 1] && f in u.clients
      ensures HeardSince(s, u, f, topic, info, hash)
    {
      FramesGrow(s, t, a);
      FramesGrow(t, u, a);
      hide Shrinks;
      hide Heard;
      var x, y, z := s.clients[f].out.frames, t.clients[f].out.frames, u.clients[f].out.frames;
      if NotifyFits(topic, info, hash) {
        if f == fds[i] {
          HeardPart(y[|x|..], News(t, u, f), topic, info, hash);
          assert z[|x|..] == y[|x|..] + News(t, u, f);
        } else {
          assert f in fds[..i];
          HeardLater(y[|x|..], z[|x|..], topic, info, hash);
        }
      }
    }
  }

  /** One publisher offered to the connections listed. */
  ghost function OffersTo(fds: seq<Fd>, topic: Str, info: ServiceInfo, hash: u32): set<Says> {
    set f | f in fds :: Offers(f, topic, info, hash)
  }

  /** One publisher offered to whoever wants it. */
  ghost function OffersFor(s: Sm, topic: Str, info: ServiceInfo, hash: u32): set<Says> {
    set f | f in s.clients && Wants(s.tabs.subs, f, topic, info.name, info.inst) :: Offers(f, topic, info, hash)
  }

  /** Who wants the publisher after a cascade wanted it before. */
  lemma OffersWereFor(s: Sm, t: Sm, fds: seq<Fd>, topic: Str, info: ServiceInfo, hash: u32)
    requires Live(s) && Shrinks(s, t, {})
    requires forall f :: f in fds <==> Wants(t.tabs.subs, f, topic, info.name, info.inst)
    ensures OffersTo(fds, topic, info, hash) <= OffersFor(s, topic, info, hash)
  {
    forall f | f in fds
      ensures f in s.clients && Wants(s.tabs.subs, f, topic, info.name, info.inst)
    {
      var id :| id in t.tabs.subs && id.fd == f && id.topic == topic
          && Asks(t.tabs.subs[id], info.name, info.inst);
      SubKept(s, t, id, {});
    }
  }

  lemma SlotsKept(s: Sm, t: Sm, a: set<Says>, id: SlotId)
    requires Shrinks(s, t, a) && id in t.tabs.slots
    ensures id in s.tabs.slots && t.tabs.slots[id] == s.tabs.slots[id]
  {
    hide Extra;
    hide PurgeSessions;
    hide Vanishes;
  }

  lemma StillWaiting(s: Sm, p: SlotId, fds: seq<Fd>, i: nat)
    requires i < |fds| && RendezvousBut(s, p, SetOf(fds[i..]) - {fds[i]})
    ensures RendezvousBut(s, p, SetOf(fds[i + 1..]))
  {
    hide Knows;
    hide Met;
    assert forall f :: f in fds[i..] && f != fds[i] ==> f in fds[i + 1..];
  }

  lemma InvButMirrors(s: Sm, clean: bool)
    requires InvBut(s, clean, {})
    ensures PidsExact(s) && SinceOk(s)
  {
  }

  /** History: publishers and subscribers meet. */
  ghost method RecordMet(sm: ServiceManager, met: map<Pair, nat>)
    requires sm.Objects() && sm.OutboxesOk() && SM_PROACTIVE_SEQ_BASE <= sm.smSeq
    requires var t := sm.V().(met := met); PidsExact(t) && WatchersMirror(t) && SinceOk(t)
    modifies sm`met
    ensures sm.Ready() && sm.V() == old(sm.V()).(met := met)
  {
    hide PidTableHolds;
    hide WatcherTableHolds;
    hide ServiceRegistry.Valid;
    hide WatchNotifier.Valid;
    hide TopicManager.Valid;
    hide TopicManager.ExactIndex;
    hide OutboxOk;
    hide PidsExact;
    hide WatchersMirror;
    hide SinceOk;
    sm.met := met;
  }

  /** History: the subscribers meet the publisher. */
  ghost method FileSlot(sm: ServiceManager, id: SlotId, slot: Slot, s: Sm)
    requires Inv(s, sm.clean) && Rightful(s, id, slot)
    requires sm.Objects() && sm.OutboxesOk() && SM_PROACTIVE_SEQ_BASE <= sm.smSeq
    requires sm.V() == s.(tabs := s.tabs.(slots := s.tabs.slots[id := slot]))
    modifies sm`met
    ensures sm.Ready() && sm.V() == WithSlot(s, id, slot) && sm.V().clients == s.clients
    ensures InvBut(sm.V(), sm.clean, {}) && RendezvousBut(sm.V(), id, s.clients.Keys) && sm.V().tabs.slots[id] == slot
  {
    hide ServiceManager.Objects;
    hide ServiceManager.OutboxesOk;
    hide PidsExact;
    hide WatchersMirror;
    hide SinceOk;
    hide Inv;
    hide InvBut;
    hide RendezvousBut;
    hide Rightful;
    WithSlotInv(s, id, slot, sm.clean);
    InvButMirrors(WithSlot(s, id, slot), sm.clean);
    RecordMet(sm, MetSlot(s, id));
  }

  /** The end of handlePublishTopic: reply, then notify who wants the publisher. */
  method AnnouncePublisher(sm: ServiceManager, fd: Fd, id: SlotId, info: ServiceInfo, hash: u32, sequence: u32,
      ghost s: Sm)
    requires Inv(s, sm.clean) && fd in s.clients && Rightful(s, id, Slot(fd, info, hash))
    requires info.name == id.service && info.inst == id.inst
    requires sm.Objects() && sm.OutboxesOk() && SM_PROACTIVE_SEQ_BASE <= sm.smSeq
    requires sm.V() == s.(tabs := s.tabs.(slots := s.tabs.slots[id := Slot(fd, info, hash)]))
    modifies sm, sm.registry, sm.watchers, sm.topicManager
    ensures sm.Sound()
    ensures Shrinks(WithSlot(s, id, Slot(fd, info, hash)), sm.V(), OffersFor(s, id.topic, info, hash))
    ensures Answered(s, sm.V(), fd, Plain(MSG_PUBLISH_TOPIC_REPLY, sequence, [BoolByte(true)]))
    ensures Spread(s, sm.V(), id.topic, info, hash)
    ensures sm.clean == old(sm.clean)
    ensures old(sm.Smooth()) ==> sm.Smooth() && sm.clients.Keys == old(sm.clients.Keys)
  {
    hide ServiceManager.Smooth;
    hide ServiceManager.Objects;
    hide ServiceRegistry.Valid;
    hide WatchNotifier.Valid;
    hide TopicManager.Valid;
    hide TopicManager.ExactIndex;
    hide ServiceManager.OutboxesOk;
    hide PidsExact;
    hide WatchersMirror;
    hide SinceOk;
    hide Shrinks;
    hide Told;
    hide Buried;
    hide Halted;
    hide Inv;
    hide InvBut;
    hide Sent;
    hide Answered;
    hide Sendable;
    hide Rendezvous;
    hide RendezvousBut;
    hide Rightful;
    hide Live;
    hide Wants;
    hide HeardSince;
    hide Spread;
    hide WithSlot;
    FileSlot(sm, id, Slot(fd, info, hash), s);
    ghost var s1, reply := sm.V(), Plain(MSG_PUBLISH_TOPIC_REPLY, sequence, [BoolByte(true)]);
    SmallReply(MSG_PUBLISH_TOPIC_REPLY, sequence, [BoolByte(true)]);
    sm.SendReply(fd, MSG_PUBLISH_TOPIC_REPLY, sequence, [BoolByte(true)]);
    ghost var t := sm.V();
    SentLast(s1, t, fd, reply);
    ShrinksKeepsWaiting(s1, t, {}, id, s.clients.Keys);
    if id in t.tabs.slots { SlotsKept(s1, t, {}, id); }
    sm.TablesValid();
    var fds := sm.topicManager.GetMatchingSubscribers(id.topic, info);
    OnlyWanting(t, id, s.clients.Keys, fds);
    NotifySubscribers(sm, id, info, hash, fds);
    PublishConcludes(s, id, Slot(fd, info, hash), t, sm.V(), reply, sm.clean, fds);
  }

  /** Reply and notifications add up to the publication's effect. */
  lemma PublishConcludes(s: Sm, id: SlotId, slot: Slot, t: Sm, v: Sm, reply: Msg, clean: bool, fds: seq<Fd>)
    requires InvBut(WithSlot(s, id, slot), clean, {}) && SinceOk(t)
    requires Shrinks(WithSlot(s, id, slot), t, {}) && Buried(WithSlot(s, id, slot), t, {})
    requires Answered(WithSlot(s, id, slot), t, slot.fd, reply)
    requires forall f :: f in fds <==> Wants(t.tabs.subs, f, id.topic, slot.info.name, slot.info.inst)
    requires Shrinks(t, v, OffersTo(fds, id.topic, slot.info, slot.hash)) && Buried(t, v, {}) && Rendezvous(v)
    requires forall f :: f in fds && f in v.clients ==> HeardSince(t, v, f, id.topic, slot.info, slot.hash)
    ensures Inv(v, clean) && Answered(s, v, slot.fd, reply)
    ensures Shrinks(WithSlot(s, id, slot), v, OffersFor(s, id.topic, slot.info, slot.hash))
    ensures Spread(s, v, id.topic, slot.info, slot.hash)
  {
    hide Shrinks;
    hide Buried;
    hide InvBut;
    hide Inv;
    hide Rendezvous;
    hide HeardSince;
    hide Spread;
    hide Answered;
    hide Wants;
    hide Live;
    hide MetSlot;
    hide SinceOk;
    var s1, topic, info, hash := WithSlot(s, id, slot), id.topic, slot.info, slot.hash;
    InvButLive(s1, clean, {});
    OffersWereFor(s1, t, fds, topic, info, hash);
    assert OffersFor(s1, topic, info, hash) == OffersFor(s, topic, info, hash);
    SpreadDone(s, s1, t, v, fds, topic, info, hash);
    PublishDone(s, s1, t, v, slot.fd, reply, clean, OffersTo(fds, topic, info, hash), OffersFor(s, topic, info, hash));
  }

  lemma InvButLive(s: Sm, clean: bool, x: set<Ident>)
    requires InvBut(s, clean, x)
    ensures Live(s)
  {
  }

  /** Whoever still wants the publisher has newly been sent it, whether or not
      its publisher lived that long. */
  ghost predicate Spread(s: Sm, t: Sm, topic: Str, info: ServiceInfo, hash: u32) {
    forall f :: f in t.clients && Wants(t.tabs.subs, f, topic, info.name, info.inst) ==>
      HeardSince(s, t, f, topic, info, hash)
  }

  lemma SpreadDone(s: Sm, s1: Sm, t: Sm, v: Sm, fds: seq<Fd>, topic: Str, info: ServiceInfo, hash: u32)
    requires s1.clients == s.clients && Shrinks(s1, t, {})
    requires Shrinks(t, v, OffersTo(fds, topic, info, hash))
    requires forall f :: f in fds <==> Wants(t.tabs.subs, f, topic, info.name, info.inst)
    requires forall f :: f in fds && f in v.clients ==> HeardSince(t, v, f, topic, info, hash)
    ensures Spread(s, v, topic, info, hash)
  {
    hide HeardSince;
    hide Wants;
    var a := OffersTo(fds, topic, info, hash);
    FramesGrow(s1, t, {});
    FramesGrow(t, v, a);
    forall f | f in v.clients && Wants(v.tabs.subs, f, topic, info.name, info.inst)
      ensures HeardSince(s, v, f, topic, info, hash)
    {
      WantedBefore(t, v, a, f, topic, info);
      HeardSinceEarlier(s, t, v, f, topic, info, hash);
    }
  }

  lemma WantedBefore(t: Sm, v: Sm, a: set<Says>, f: Fd, topic: Str, info: ServiceInfo)
    requires Shrinks(t, v, a) && Wants(v.tabs.subs, f, topic, info.name, info.inst)
    ensures Wants(t.tabs.subs, f, topic, info.name, info.inst)
  {
    hide Shrinks;
    var id: SubId :|
      id in v.tabs.subs && id.fd == f && id.topic == topic && Asks(v.tabs.subs[id], info.name, info.inst);
    SubKept(t, v, id, a);
  }

  lemma HeardSinceEarlier(s: Sm, t: Sm, v: Sm, f: Fd, topic: Str, info: ServiceInfo, hash: u32)
    requires f in s.clients && f in t.clients && s.clients[f].out.frames <= t.clients[f].out.frames
    requires HeardSince(t, v, f, topic, info, hash)
    ensures HeardSince(s, v, f, topic, info, hash)
  {
    hide Heard;
    hide NotifyFits;
    var x, y, z := s.clients[f].out.frames, t.clients[f].out.frames, v.clients[f].out.frames;
    TailGrows(y, z, |x|);
    assert z[|x|..] == z[|x|..|y|] + z[|y|..];
    if Heard(z[|y|..], topic, info, hash) { HeardPart(z[|x|..|y|], z[|y|..], topic, info, hash); }
  }

  lemma PublishDone(s: Sm, s1: Sm, t: Sm, v: Sm, f: Fd, reply: Msg, clean: bool, a: set<Says>, b: set<Says>)
    requires s1.clients == s.clients && InvBut(s1, clean, {}) && Shrinks(s1, t, {}) && Buried(s1, t, {}) && SinceOk(t)
    requires Shrinks(t, v, a) && a <= b && (forall y :: y in b ==> !y.Says?)
    requires Buried(t, v, {}) && Rendezvous(v)
    requires Answered(s1, t, f, reply)
    ensures Inv(v, clean) && Shrinks(s1, v, b) && Answered(s, v, f, reply)
  {
    hide Shrinks;
    hide Buried;
    hide InvBut;
    hide Inv;
    hide Rendezvous;
    ShrinksMore(s1, t, {}, b);
    ShrinksMore(t, v, a, b);
    ShrinksTwice(s1, t, v, b);
    BuriedTwice(s1, t, v, b, {});
    Cascade(s1, v, b, {}, clean, clean);
    InvIsInvBut(v, clean);
    AnsweredLater(s1, t, v, f, reply, b);
  }

  /** A publish request the handler looks further into. */
  predicate WellFormed(request: Option<PublishRequest>) {
    request.Some? && ValidTopic(request.value.topic) && 0 < |request.value.info.name| <= MAX_NAME_LENGTH
  }

  function SlotFor(request: PublishRequest, owner: Ident): SlotId {
    SlotId(request.info.name, request.topic, owner.inst)
  }

  /** handlePublishTopic.  `owner` is the instance the request publishes for: one
      of that name which the connection registered. */
  method HandlePublish(sm: ServiceManager, fd: Fd, sequence: u32, request: Option<PublishRequest>)
    returns (ok: bool, owner: Option<Ident>)
    requires sm.Sound() && fd in sm.clients
    modifies sm, sm.registry, sm.watchers, sm.topicManager
    ensures sm.Sound()
    ensures Answered(old(sm.V()), sm.V(), fd, Plain(MSG_PUBLISH_TOPIC_REPLY, sequence, [BoolByte(ok)]))
    ensures owner.Some? <==>
              WellFormed(request) && exists id :: OwnsNamed(old(sm.V()).tabs.reg, id, request.value.info.name, fd)
    ensures owner.Some? ==> OwnsNamed(old(sm.V()).tabs.reg, owner.value, request.value.info.name, fd)
    ensures ok <==> owner.Some? && RoomToPublish(old(sm.topicManager.S()), SlotFor(request.value, owner.value), fd)
    ensures sm.clean == old(sm.clean)
    ensures !ok ==> Shrinks(old(sm.V()), sm.V(), {})
    ensures ok ==>
              var info := Authoritative(request.value.info, old(sm.V()).tabs.reg[owner.value].info);
              && Spread(old(sm.V()), sm.V(), request.value.topic, info, request.value.hash)
              && ReachesSelectors(old(sm.V()), sm.V(), request.value.topic, info, request.value.hash)
    ensures ok ==>
              var claimed, known := request.value.info, old(sm.V()).tabs.reg[owner.value].info;
              var info := Authoritative(claimed, known);
              && info.host == known.host && info.port == known.port
              && info.hostId == known.hostId && info.inst == known.inst
              && info.name == claimed.name && info.interfaces == claimed.interfaces
    ensures ok ==>
              var info := Authoritative(request.value.info, old(sm.V()).tabs.reg[owner.value].info);
              Shrinks(WithSlot(old(sm.V()), SlotFor(request.value, owner.value), Slot(fd, info, request.value.hash)),
                      sm.V(), OffersFor(old(sm.V()), request.value.topic, info, request.value.hash))
    ensures old(sm.Smooth()) ==> sm.Smooth() && sm.clients.Keys == old(sm.clients.Keys)
  {
    hide ServiceManager.Smooth;
    hide ServiceManager.Objects;
    hide ServiceRegistry.Valid;
    hide WatchNotifier.Valid;
    hide TopicManager.Valid;
    hide TopicManager.ExactIndex;
    hide ServiceManager.OutboxesOk;
    hide PidsExact;
    hide WatchersMirror;
    hide SinceOk;
    hide Shrinks;
    hide Told;
    hide Buried;
    hide Halted;
    hide Inv;
    hide Sent;
    hide Answered;
    hide Sendable;
    hide RoomToPublish;
    hide Rendezvous;
    hide RendezvousBut;
    hide Spread;
    hide ReachesSelectors;
    ghost var s := sm.V();
    ok, owner := false, None;
    SmallReply(MSG_PUBLISH_TOPIC_REPLY, sequence, [BoolByte(false)]);
    SmallReply(MSG_PUBLISH_TOPIC_REPLY, sequence, [BoolByte(true)]);
    var entry := None;
    sm.TablesValid();
    if WellFormed(request) {
      entry := sm.registry.FindServiceByFdAndName(fd, request.value.info.name);
    }
    if entry.None? {
      sm.Reply(fd, MSG_PUBLISH_TOPIC_REPLY, sequence, [BoolByte(ok)]);
      SentLast(s, sm.V(), fd, Plain(MSG_PUBLISH_TOPIC_REPLY, sequence, [BoolByte(ok)]));
      return;
    }
    owner := Some(KeyOf(entry.value.info));
    assert OwnsNamed(s.tabs.reg, owner.value, request.value.info.name, fd);
    ok := PublishFor(sm, fd, sequence, request.value, entry.value.info);
  }

  /** The rest of handlePublishTopic, for the instance found. */
  method PublishFor(sm: ServiceManager, fd: Fd, sequence: u32, request: PublishRequest, registered: ServiceInfo)
    returns (ok: bool)
    requires sm.Sound() && fd in sm.clients && WellFormed(Some(request))
    requires var owner := KeyOf(registered);
             OwnsNamed(sm.V().tabs.reg, owner, request.info.name, fd) && sm.V().tabs.reg[owner].info == registered
    modifies sm, sm.registry, sm.watchers, sm.topicManager
    ensures sm.Sound() && sm.clean == old(sm.clean)
    ensures Answered(old(sm.V()), sm.V(), fd, Plain(MSG_PUBLISH_TOPIC_REPLY, sequence, [BoolByte(ok)]))
    ensures ok <==> RoomToPublish(old(sm.topicManager.S()), SlotFor(request, KeyOf(registered)), fd)
    ensures !ok ==> Shrinks(old(sm.V()), sm.V(), {})
    ensures ok ==>
              var info := Authoritative(request.info, registered);
              && Spread(old(sm.V()), sm.V(), request.topic, info, request.hash)
              && ReachesSelectors(old(sm.V()), sm.V(), request.topic, info, request.hash)
              && Shrinks(WithSlot(old(sm.V()), SlotFor(request, KeyOf(registered)), Slot(fd, info, request.hash)),
                         sm.V(), OffersFor(old(sm.V()), request.topic, info, request.hash))
    ensures old(sm.Smooth()) ==> sm.Smooth() && sm.clients.Keys == old(sm.clients.Keys)
  {
    hide ServiceManager.Objects;
    hide ServiceManager.OutboxesOk;
    hide ServiceManager.Smooth;
    hide PidsExact;
    hide WatchersMirror;
    hide SinceOk;
    hide Shrinks;
    hide Buried;
    hide Halted;
    hide Inv;
    hide Sent;
    hide Answered;
    hide Sendable;
    hide RoomToPublish;
    hide Spread;
    hide ReachesSelectors;
    hide WithSlot;
    ghost var s := sm.V();
    var info := Authoritative(request.info, registered);
    var id := SlotFor(request, KeyOf(registered));
    SlotIsFree(s, id, fd, sm.clean);
    ok := sm.PutPublisher(request.topic, info, fd, request.hash);
    if !ok {
      SmallReply(MSG_PUBLISH_TOPIC_REPLY, sequence, [BoolByte(ok)]);
      sm.Reply(fd, MSG_PUBLISH_TOPIC_REPLY, sequence, [BoolByte(ok)]);
      SentLast(s, sm.V(), fd, Plain(MSG_PUBLISH_TOPIC_REPLY, sequence, [BoolByte(ok)]));
      return;
    }
    AnnouncePublisher(sm, fd, id, info, request.hash, sequence, s);
    SpreadReaches(s, id, Slot(fd, info, request.hash), sm.V(), request.topic);
  }

  /** No other connection holds the slot of an instance. */
  lemma SlotIsFree(s: Sm, id: SlotId, fd: Fd, clean: bool)
    requires Inv(s, clean) && OwnsNamed(s.tabs.reg, Ident(id.service, id.inst), id.service, fd)
    ensures id in s.tabs.slots ==> s.tabs.slots[id].fd == fd
  {
  }

  // ---- What selectors mean -------------------------------------------------------------------

  /** A surviving connection is newly sent the publisher if one of its selectors
      asks for it, and no connection without such a selector is sent any. */
  ghost predicate ReachesSelectors(s: Sm, t: Sm, topic: Str, info: ServiceInfo, hash: u32) {
    && (forall id: SubId ::
          && id in t.tabs.subs && id.fd in t.clients && id.topic == topic
          && Asks(t.tabs.subs[id], info.name, info.inst) ==>
            HeardSince(s, t, id.fd, topic, info, hash))
    && (forall f :: f in s.clients && f in t.clients ==>
          SentOnly(s.clients[f].out.frames, t.clients[f].out.frames, s.tabs.subs, f, topic, info, hash))
  }

  ghost predicate SentOnly(before: seq<Msg>, after: seq<Msg>, subs: Subs, f: Fd, topic: Str, info: ServiceInfo,
                           hash: u32)
  {
    forall i :: |before| <= i < |after| && after[i].PublisherNotify? ==>
      && IsPublisherNotify(after[i], topic, info, hash)
      && exists id: SubId :: id in subs && id.fd == f && id.topic == topic && Asks(subs[id], info.name, info.inst)
  }

  lemma SpreadReaches(s: Sm, id: SlotId, slot: Slot, t: Sm, topic: Str)
    requires Spread(s, t, topic, slot.info, slot.hash)
    requires Shrinks(WithSlot(s, id, slot), t, OffersFor(s, topic, slot.info, slot.hash))
    ensures ReachesSelectors(s, t, topic, slot.info, slot.hash)
  {
    var info := slot.info;
    hide HeardSince;
    hide MetSlot;
    forall f | f in s.clients && f in t.clients
      ensures SentOnly(s.clients[f].out.frames, t.clients[f].out.frames, s.tabs.subs, f, topic, info, slot.hash)
    {
      OfferedOnly(s, id, slot, t, topic, f);
    }
    hide Shrinks;
    hide SentOnly;
    forall x: SubId | x in t.tabs.subs && x.fd in t.clients && x.topic == topic
                      && Asks(t.tabs.subs[x], info.name, info.inst)
      ensures HeardSince(s, t, x.fd, topic, info, slot.hash)
    {
      assert Wants(t.tabs.subs, x.fd, topic, info.name, info.inst);
    }
  }

  lemma OfferedOnly(s: Sm, id: SlotId, slot: Slot, t: Sm, topic: Str, f: Fd)
    requires Shrinks(WithSlot(s, id, slot), t, OffersFor(s, topic, slot.info, slot.hash))
    requires f in s.clients && f in t.clients
    ensures SentOnly(s.clients[f].out.frames, t.clients[f].out.frames, s.tabs.subs, f, topic, slot.info, slot.hash)
  {
    hide Purge;
    hide PurgeSessions;
    hide MetSlot;
    var before, after := s.clients[f].out.frames, t.clients[f].out.frames;
    forall i | |before| <= i < |after| && after[i].PublisherNotify?
      ensures IsPublisherNotify(after[i], topic, slot.info, slot.hash)
      ensures Wants(s.tabs.subs, f, topic, slot.info.name, slot.info.inst)
    {
      assert Extra(f, after[i], s.tabs.reg, t.tabs, OffersFor(s, topic, slot.info, slot.hash));
    }
    hide Shrinks;
  }

  /** The connection is newly sent exactly the publishers of the topic that the
      selector's own fields ask for: all of them, those of its service, or that
      of its instance.  What does not fit in a frame is not sent. */
  ghost predicate SentAsSelected(s: Sm, t: Sm, f: Fd, topic: Str, sel: Selector) {
    f in s.clients && f in t.clients ==>
      var before, after := s.clients[f].out.frames, t.clients[f].out.frames;
      && before <= after
      && (forall i :: |before| <= i < |after| && after[i].PublisherNotify? ==>
            && after[i].topic == topic && SlotId(after[i].info.name, topic, after[i].info.inst) in s.tabs.slots
            && Asks(sel, after[i].info.name, after[i].info.inst))
      && (forall id: SlotId ::
            id in t.tabs.slots && id.topic == topic && Asks(sel, id.service, id.inst)
            && NotifyFits(topic, t.tabs.slots[id].info, t.tabs.slots[id].hash) ==>
              Heard(after[|before|..], topic, t.tabs.slots[id].info, t.tabs.slots[id].hash))
  }

  ghost predicate NamedAsFiled(slots: Slots) {
    forall id :: id in slots ==> slots[id].info.name == id.service && slots[id].info.inst == id.inst
  }

  lemma IntroducedAsSelected(s: Sm, added: bool, t: Sm, f: Fd, reply: Msg, topic: Str, sel: Selector)
    requires f in s.clients && NamedAsFiled(s.tabs.slots) && Introduced(s, t, f, reply, topic, sel) && reply.Plain?
    requires Shrinks(Subscribed(s, added, topic, sel, f), t, WantedOffers(s.tabs.slots, f, topic, sel))
    ensures SentAsSelected(s, t, f, topic, sel)
  {
    hide NotifyFits;
    hide MetSub;
    if f in t.clients {
      var before, after := s.clients[f].out.frames, t.clients[f].out.frames;
      forall i | |before| <= i < |after| && after[i].PublisherNotify?
        ensures Offers(f, after[i].topic, after[i].info, after[i].hash) in WantedOffers(s.tabs.slots, f, topic, sel)
      {
        hide Purge;
        hide PurgeSessions;
        hide Heard;
        assert Extra(f, after[i], s.tabs.reg, t.tabs, WantedOffers(s.tabs.slots, f, topic, sel));
      }
      hide Shrinks;
      forall i | |before| <= i < |after| && after[i].PublisherNotify?
        ensures after[i].topic == topic && SlotId(after[i].info.name, topic, after[i].info.inst) in s.tabs.slots
        ensures Asks(sel, after[i].info.name, after[i].info.inst)
      {
        hide Introduced;
        OfferNamed(s.tabs.slots, f, topic, sel, after[i].topic, after[i].info, after[i].hash);
      }
      var n := |before|;
      assert after[n..] == [reply] + after[n + 1..];
      HeardAllLonger([reply], after[n + 1..], t.tabs.slots, topic, sel);
      hide Heard;
      assert forall id: SlotId :: id in t.tabs.slots && id.topic == topic && Asks(sel, id.service, id.inst) ==>
        WantedSlot(t.tabs.slots, id, topic, sel);
    }
  }

  lemma OfferNamed(slots: Slots, f: Fd, topic: Str, sel: Selector, topic': Str, info: ServiceInfo, hash: u32)
    requires NamedAsFiled(slots) && Offers(f, topic', info, hash) in WantedOffers(slots, f, topic, sel)
    ensures topic' == topic && SlotId(info.name, topic, info.inst) in slots && Asks(sel, info.name, info.inst)
  {
    var id: SlotId :| id in slots && WantedSlot(slots, id, topic, sel) && slots[id].info == info;
    assert id == SlotId(info.name, topic, info.inst);
  }

  lemma FiledNames(tm: TopicManager)
    requires tm.Valid()
    ensures NamedAsFiled(tm.slots)
  {
    SlotsNamed(tm.S());
  }

  // ---- Subscribing ----------------------------------------------------------------------------

  function SubFor(topic: Str, sel: Selector, f: Fd): SubId {
    SubId(sel.service, topic, f, SelectorKey(sel))
  }

  /** The subscription, and when it met each publisher. */
  ghost function WithSub(s: Sm, id: SubId, sel: Selector): Sm
    requires id.fd in s.clients
  {
    s.(tabs := s.tabs.(subs := s.tabs.subs[id := sel]), met := MetSub(s, id))
  }

  ghost function MetSub(s: Sm, id: SubId): map<Pair, nat>
    requires id.fd in s.clients
  {
    s.met + map slot | slot in s.tabs.slots :: Pair(slot, id) := |s.clients[id.fd].out.frames|
  }

  lemma MetSubAt(s: Sm, id: SubId, slot: SlotId, sub: SubId)
    requires id.fd in s.clients && slot in s.tabs.slots
    ensures sub == id ==>
              Pair(slot, sub) in MetSub(s, id) && MetSub(s, id)[Pair(slot, sub)] == |s.clients[id.fd].out.frames|
    ensures sub != id && Pair(slot, sub) in s.met ==>
              Pair(slot, sub) in MetSub(s, id) && MetSub(s, id)[Pair(slot, sub)] == s.met[Pair(slot, sub)]
  {
  }

  /** Nobody is owed a notification, except through subscription `x`, which has
      been there since its connection had `n` messages. */
  ghost predicate RendezvousWithout(s: Sm, x: SubId, n: nat) {
    forall slot: SlotId, sub: SubId :: Meets(s, slot, sub) && sub.fd in s.clients ==>
      Met(s, slot, sub) && (if sub == x then s.met[Pair(slot, sub)] == n else Knows(s, slot, sub))
  }

  lemma ShrinksKeepsWithout(s: Sm, t: Sm, a: set<Says>, x: SubId, n: nat)
    requires Shrinks(s, t, a) && RendezvousWithout(s, x, n)
    ensures RendezvousWithout(t, x, n)
  {
    forall slot: SlotId, sub: SubId | Meets(t, slot, sub) && sub.fd in t.clients
      ensures Met(t, slot, sub) && (if sub == x then t.met[Pair(slot, sub)] == n else Knows(t, slot, sub))
    {
      KnowsLater(s, t, a, slot, sub);
      assert t.met == s.met;
      hide Shrinks;
      hide Knows;
    }
  }

  lemma WithSubInv(s: Sm, id: SubId, sel: Selector, clean: bool)
    requires Inv(s, clean) && id.fd in s.clients
    ensures var t := WithSub(s, id, sel);
            && InvBut(t, clean, {}) && RendezvousWithout(t, id, |s.clients[id.fd].out.frames|) && WatchersMirror(t)
  {
    hide Rendezvous;
    hide RendezvousWithout;
    hide SinceOk;
    hide OnlyWatched;
    hide ReportedBut;
    hide ReportedOnline;
    hide NoStaleBut;
    hide NoStaleOnline;
    ReportsKept(s, WithSub(s, id, sel), {}, clean);
    WithSubRendezvous(s, id, sel);
  }

  lemma WithSubRendezvous(s: Sm, id: SubId, sel: Selector)
    requires Rendezvous(s) && id.fd in s.clients
    ensures RendezvousWithout(WithSub(s, id, sel), id, |s.clients[id.fd].out.frames|)
  {
    hide NotifyFits;
    hide Heard;
    var t := WithSub(s, id, sel);
    forall slot: SlotId, sub: SubId | Meets(t, slot, sub) && sub.fd in t.clients
      ensures Met(t, slot, sub)
      ensures if sub == id then t.met[Pair(slot, sub)] == |s.clients[id.fd].out.frames| else Knows(t, slot, sub)
    {
      MetSubAt(s, id, slot, sub);
      hide MetSub;
      if sub != id { assert Meets(s, slot, sub) && Knows(s, slot, sub); }
    }
  }

  /** The connection has been sent every publisher the selector wants. */
  ghost predicate HeardAll(news: seq<Msg>, slots: Slots, topic: Str, sel: Selector) {
    forall id :: WantedSlot(slots, id, topic, sel) && NotifyFits(topic, slots[id].info, slots[id].hash) ==>
      Heard(news, topic, slots[id].info, slots[id].hash)
  }

  lemma RendezvousComplete(s: Sm, x: SubId, n: nat, topic: Str, sel: Selector)
    requires RendezvousWithout(s, x, n) && (x in s.tabs.subs ==> s.tabs.subs[x] == sel) && x.topic == topic
    requires x.fd in s.clients ==>
               n <= |s.clients[x.fd].out.frames| && HeardAll(s.clients[x.fd].out.frames[n..], s.tabs.slots, topic, sel)
    ensures Rendezvous(s)
  {
    hide NotifyFits;
    hide Heard;
    forall slot: SlotId, sub: SubId | Meets(s, slot, sub) && sub.fd in s.clients
      ensures Knows(s, slot, sub)
    {
      if sub == x { assert WantedSlot(s.tabs.slots, slot, topic, sel); }
    }
  }

  /** The publishers listed, offered to one connection. */
  ghost function OffersOf(views: seq<PublisherView>, f: Fd, topic: Str): set<Says> {
    set v | v in views :: Offers(f, topic, v.info, v.hash)
  }

  /** The publishers a selector wants, offered to one connection. */
  ghost function WantedOffers(slots: Slots, f: Fd, topic: Str, sel: Selector): set<Says> {
    set id | id in slots && WantedSlot(slots, id, topic, sel) :: Offers(f, topic, slots[id].info, slots[id].hash)
  }

  /** The state of the loop that tells a subscriber of the publishers. */
  ghost predicate Telling(s: Sm, u: Sm, f: Fd, topic: Str, views: seq<PublisherView>, i: nat) {
    && Shrinks(s, u, OffersOf(views, f, topic)) && Buried(s, u, {})
    && (f in u.clients ==> Grew(s, u, f) && HeardViews(News(s, u, f), topic, views, i))
  }

  ghost predicate HeardViews(news: seq<Msg>, topic: Str, views: seq<PublisherView>, i: nat) {
    forall v :: v in views[..Min(i, |views|)] && NotifyFits(topic, v.info, v.hash) ==>
        Heard(news, topic, v.info, v.hash)
  }

  function Min(a: nat, b: nat): nat {
    if a < b then a else b
  }

  lemma HeardPart(a: seq<Msg>, b: seq<Msg>, topic: Str, info: ServiceInfo, hash: u32)
    requires Heard(a, topic, info, hash) || Heard(b, topic, info, hash)
    ensures Heard(a + b, topic, info, hash)
  {
    if Heard(a, topic, info, hash) {
      HeardLater(a, a + b, topic, info, hash);
    } else {
      var i :| 0 <= i < |b| && IsPublisherNotify(b[i], topic, info, hash);
      assert (a + b)[|a| + i] == b[i];
    }
  }

  lemma TellingNext(s: Sm, t: Sm, u: Sm, f: Fd, topic: Str, views: seq<PublisherView>, i: nat)
    requires i < |views| && Telling(s, t, f, topic, views, i) && SinceOk(t)
    requires Shrinks(t, u, {Offers(f, topic, views[i].info, views[i].hash)}) && Buried(t, u, {})
    requires f in u.clients ==> Grew(t, u, f)
    requires f in u.clients && NotifyFits(topic, views[i].info, views[i].hash) ==>
               Heard(News(t, u, f), topic, views[i].info, views[i].hash)
    ensures Telling(s, u, f, topic, views, i + 1)
  {
    hide Shrinks;
    hide Buried;
    hide Heard;
    hide NotifyFits;
    var a := OffersOf(views, f, topic);
    assert views[i] in views;
    ShrinksMore(t, u, {Offers(f, topic, views[i].info, views[i].hash)}, a);
    ShrinksTwice(s, t, u, a);
    BuriedTwice(s, t, u, a, {});
    if f in u.clients {
      GrewTwice(s, t, u, f);
      assert views[..i + 1] == views[..i] + [views[i]];
      forall v | v in views[..i + 1] && NotifyFits(topic, v.info, v.hash)
        ensures Heard(News(s, u, f), topic, v.info, v.hash)
      {
        HeardPart(News(s, t, f), News(t, u, f), topic, v.info, v.hash);
      }
    }
  }

  /** The loop of handleSubscribeTopic over the publishers. */
  method TellPublishers(sm: ServiceManager, f: Fd, topic: Str, sel: Selector)
    requires sm.Ready()
    modifies sm, sm.registry, sm.watchers, sm.topicManager
    ensures sm.Ready() && Buried(old(sm.V()), sm.V(), {})
    ensures Shrinks(old(sm.V()), sm.V(), WantedOffers(old(sm.V()).tabs.slots, f, topic, sel))
    ensures f in sm.clients ==>
              Grew(old(sm.V()), sm.V(), f) && HeardAll(News(old(sm.V()), sm.V(), f), sm.V().tabs.slots, topic, sel)
    ensures sm.clean == old(sm.clean)
    ensures old(sm.Smooth()) ==> sm.Smooth() && sm.clients.Keys == old(sm.clients.Keys)
  {
    hide ServiceManager.Smooth;
    hide ServiceManager.Objects;
    hide ServiceRegistry.Valid;
    hide WatchNotifier.Valid;
    hide TopicManager.Valid;
    hide TopicManager.ExactIndex;
    hide ServiceManager.OutboxesOk;
    hide PidsExact;
    hide WatchersMirror;
    hide SinceOk;
    hide Shrinks;
    hide Told;
    hide Buried;
    hide Halted;
    hide Inv;
    hide Heard;
    hide NotifyFits;
    hide Grew;
    hide Telling;
    ghost var s := sm.V();
    sm.TablesValid();
    var views, ids := sm.topicManager.GetMatchingPublishers(topic, sel);
    ViewsListed(s.tabs.slots, topic, sel, views, ids);
    TellingStarts(s, f, topic, views);
    for i := 0 to |views|
      invariant sm.Ready() && Telling(s, sm.V(), f, topic, views, i) && sm.clean == old(sm.clean)
      invariant old(sm.Smooth()) ==> sm.Smooth() && sm.clients.Keys == old(sm.clients.Keys)
    {
      ghost var t := sm.V();
      SendPublisherNotify(sm, f, topic, views[i].info, views[i].hash);
      TellingNext(s, t, sm.V(), f, topic, views, i);
    }
    TellingDone(s, sm.V(), f, topic, sel, views);
  }

  lemma TellingStarts(s: Sm, f: Fd, topic: Str, views: seq<PublisherView>)
    ensures Telling(s, s, f, topic, views, 0)
  {
    hide Shrinks;
    ShrinksSame(s, OffersOf(views, f, topic));
    BuriedSame(s, {});
    if f in s.clients { SameGrew(s, f); }
  }

  lemma TellingDone(s: Sm, u: Sm, f: Fd, topic: Str, sel: Selector, views: seq<PublisherView>)
    requires Telling(s, u, f, topic, views, |views|)
    requires forall id :: WantedSlot(s.tabs.slots, id, topic, sel) ==> ViewOf(s.tabs.slots[id]) in views
    requires forall v :: v in views ==>
              exists id :: WantedSlot(s.tabs.slots, id, topic, sel) && v == ViewOf(s.tabs.slots[id])
    ensures Shrinks(s, u, WantedOffers(s.tabs.slots, f, topic, sel)) && Buried(s, u, {})
    ensures f in u.clients ==> Grew(s, u, f) && HeardAll(News(s, u, f), u.tabs.slots, topic, sel)
  {
    hide Shrinks;
    hide Heard;
    hide NotifyFits;
    assert views[..|views|] == views;
    assert OffersOf(views, f, topic) <= WantedOffers(s.tabs.slots, f, topic, sel);
    ShrinksMore(s, u, OffersOf(views, f, topic), WantedOffers(s.tabs.slots, f, topic, sel));
  }

  /** getIdlHash: that of some publisher the selector wants, or 0 without one. */
  ghost predicate IsHash(slots: Slots, topic: Str, sel: Selector, hash: u32) {
    || ((forall id :: !WantedSlot(slots, id, topic, sel)) && hash == 0)
    || exists id :: WantedSlot(slots, id, topic, sel) && slots[id].hash == hash
  }

  method GetIdlHash(tm: TopicManager, topic: Str, sel: Selector) returns (hash: u32)
    requires tm.Valid()
    ensures IsHash(tm.slots, topic, sel, hash)
  {
    hide TopicManager.Valid;
    var views, ids := tm.GetMatchingPublishers(topic, sel);
    ViewsListed(tm.slots, topic, sel, views, ids);
    if views == [] { return 0; }
    assert views[0] in views;
    hash := views[0].hash;
    ghost var id :| WantedSlot(tm.slots, id, topic, sel) && views[0] == ViewOf(tm.slots[id]);
  }

  function SubscribeReply(sequence: u32, added: bool, hash: u32): Msg {
    Plain(MSG_SUBSCRIBE_TOPIC_REPLY, sequence, if added then [BoolByte(true)] + Le32(hash) else [BoolByte(false)])
  }

  /** After the reply, the connection was sent every publisher the selector wants. */
  ghost predicate Introduced(s: Sm, u: Sm, f: Fd, reply: Msg, topic: Str, sel: Selector) {
    f in s.clients && f in u.clients ==>
      && s.clients[f].out.frames + [reply] <= u.clients[f].out.frames
      && HeardAll(u.clients[f].out.frames[|s.clients[f].out.frames| + 1..], u.tabs.slots, topic, sel)
  }

  ghost function Subscribed(s: Sm, added: bool, topic: Str, sel: Selector, f: Fd): Sm
    requires f in s.clients
  {
    if added then WithSub(s, SubFor(topic, sel, f), sel) else s
  }

  lemma SubscribedInv(s: Sm, added: bool, topic: Str, sel: Selector, f: Fd, clean: bool)
    requires Inv(s, clean) && f in s.clients
    ensures var t := Subscribed(s, added, topic, sel, f);
            && InvBut(t, clean, {}) && PidsExact(t) && SinceOk(t) && WatchersMirror(t)
            && (added ==> RendezvousWithout(t, SubFor(topic, sel, f), |s.clients[f].out.frames|))
            && (!added ==> Rendezvous(t))
  {
    if added {
      WithSubInv(s, SubFor(topic, sel, f), sel, clean);
    } else {
      InvIsInvBut(s, clean);
    }
  }

  lemma SubscribeDone(s: Sm, added: bool, topic: Str, sel: Selector, f: Fd, reply: Msg, t: Sm, v: Sm,
                      clean: bool)
    requires Inv(s, clean) && f in s.clients
    requires var s1 := Subscribed(s, added, topic, sel, f);
             && Shrinks(s1, t, {}) && Buried(s1, t, {}) && (f in t.clients ==> Sent(s1, t, f, reply))
    requires SinceOk(t) && Shrinks(t, v, WantedOffers(t.tabs.slots, f, topic, sel)) && Buried(t, v, {})
    requires f in v.clients ==> Grew(t, v, f) && HeardAll(News(t, v, f), v.tabs.slots, topic, sel)
    ensures Inv(v, clean)
    ensures Shrinks(Subscribed(s, added, topic, sel, f), v, WantedOffers(s.tabs.slots, f, topic, sel))
    ensures Introduced(s, v, f, reply, topic, sel)
  {
    hide Inv;
    hide InvBut;
    hide Shrinks;
    hide Buried;
    hide Rendezvous;
    hide RendezvousWithout;
    hide HeardAll;
    var s1, x := Subscribed(s, added, topic, sel, f), SubFor(topic, sel, f);
    SubscribedInv(s, added, topic, sel, f, clean);
    var a := WantedOffers(s.tabs.slots, f, topic, sel);
    FewerOffers(s1, t, f, topic, sel);
    ShrinksMore(s1, t, {}, a);
    ShrinksMore(t, v, WantedOffers(t.tabs.slots, f, topic, sel), a);
    ShrinksTwice(s1, t, v, a);
    BuriedTwice(s1, t, v, a, {});
    Cascade(s1, v, a, {}, clean, clean);
    if f in v.clients {
      ClientSurvived(t, v, a, f);
      assert v.clients[f].out.frames[|s.clients[f].out.frames| + 1..] == News(t, v, f);
    }
    if added {
      var n := |s.clients[f].out.frames|;
      ShrinksKeepsWithout(s1, v, a, x, n);
      SubKept(s1, v, x, a);
      if f in v.clients {
        HeardAllLonger([reply], News(t, v, f), v.tabs.slots, topic, sel);
        assert v.clients[f].out.frames[n..] == [reply] + News(t, v, f);
      }
      RendezvousComplete(v, x, n, topic, sel);
    } else {
      ShrinksKeepsRendezvous(s1, v, a);
    }
    InvIsInvBut(v, clean);
  }

  lemma FewerOffers(s: Sm, t: Sm, f: Fd, topic: Str, sel: Selector)
    requires Shrinks(s, t, {})
    ensures WantedOffers(t.tabs.slots, f, topic, sel) <= WantedOffers(s.tabs.slots, f, topic, sel)
  {
    hide Shrinks;
    forall id | id in t.tabs.slots
      ensures id in s.tabs.slots && t.tabs.slots[id] == s.tabs.slots[id]
    {
      SlotsKept(s, t, {}, id);
    }
  }

  lemma SubKept(s: Sm, t: Sm, x: SubId, a: set<Says>)
    requires Shrinks(s, t, a)
    ensures x in t.tabs.subs ==> x in s.tabs.subs && t.tabs.subs[x] == s.tabs.subs[x]
  {
    hide Extra;
    hide PurgeSessions;
    hide Vanishes;
  }

  lemma HeardAllLonger(a: seq<Msg>, b: seq<Msg>, slots: Slots, topic: Str, sel: Selector)
    requires HeardAll(b, slots, topic, sel)
    ensures HeardAll(a + b, slots, topic, sel)
  {
    hide Heard;
    hide NotifyFits;
    forall id | WantedSlot(slots, id, topic, sel) && NotifyFits(topic, slots[id].info, slots[id].hash)
      ensures Heard(a + b, topic, slots[id].info, slots[id].hash)
    {
      HeardPart(a, b, topic, slots[id].info, slots[id].hash);
    }
  }

  /** handleSubscribeTopic.  The publishers are sent even when the subscription
      was refused. */
  method HandleSubscribeTopic(sm: ServiceManager, fd: Fd, sequence: u32, request: Option<SubscribeRequest>)
    returns (added: bool, hash: u32)
    requires sm.Sound() && fd in sm.clients
    modifies sm, sm.registry, sm.watchers, sm.topicManager
    ensures sm.Sound() && sm.clean == old(sm.clean)
    ensures request.None? ==> !added && Shrinks(old(sm.V()), sm.V(), {})
    ensures request.None? ==> Answered(old(sm.V()), sm.V(), fd, SubscribeReply(sequence, false, 0))
    ensures request.Some? ==> (added <==> CanSubscribe(old(sm.topicManager.S()), request.value, fd))
    ensures request.Some? ==>
              Shrinks(Subscribed(old(sm.V()), added, request.value.topic, request.value.sel, fd), sm.V(),
                      WantedOffers(old(sm.V()).tabs.slots, fd, request.value.topic, request.value.sel))
    ensures request.Some? ==>
              && IsHash(old(sm.V()).tabs.slots, request.value.topic, request.value.sel, hash)
              && Introduced(old(sm.V()), sm.V(), fd, SubscribeReply(sequence, added, hash),
                            request.value.topic, request.value.sel)
              && SentAsSelected(old(sm.V()), sm.V(), fd, request.value.topic, request.value.sel)
    ensures old(sm.Smooth()) ==> sm.Smooth() && sm.clients.Keys == old(sm.clients.Keys)
  {
    hide ServiceManager.Smooth;
    hide ServiceManager.Objects;
    hide ServiceRegistry.Valid;
    hide WatchNotifier.Valid;
    hide TopicManager.Valid;
    hide TopicManager.ExactIndex;
    hide ServiceManager.OutboxesOk;
    hide PidsExact;
    hide WatchersMirror;
    hide SinceOk;
    hide Shrinks;
    hide Told;
    hide Buried;
    hide Halted;
    hide Inv;
    hide Sent;
    hide Answered;
    hide Sendable;
    hide Introduced;
    hide IsHash;
    hide HeardAll;
    hide RoomToSubscribe;
    hide InvBut;
    hide Rendezvous;
    hide RendezvousWithout;
    hide SelectorKey;
    hide SentAsSelected;
    hide NamedAsFiled;
    ghost var s := sm.V();
    sm.TablesValid();
    FiledNames(sm.topicManager);
    added, hash := false, 0;
    SmallReply(MSG_SUBSCRIBE_TOPIC_REPLY, sequence, [BoolByte(false)]);
    if request.None? {
      sm.Reply(fd, MSG_SUBSCRIBE_TOPIC_REPLY, sequence, [BoolByte(false)]);
      SentLast(s, sm.V(), fd, SubscribeReply(sequence, false, 0));
      return;
    }
    added, hash := SubscribeFor(sm, fd, sequence, request.value.topic, request.value.sel);
  }

  /** The rest of handleSubscribeTopic, for a request that decodes. */
  method SubscribeFor(sm: ServiceManager, fd: Fd, sequence: u32, topic: Str, sel: Selector)
    returns (added: bool, hash: u32)
    requires sm.Sound() && fd in sm.clients && NamedAsFiled(sm.V().tabs.slots)
    modifies sm, sm.registry, sm.watchers, sm.topicManager
    ensures sm.Sound() && sm.clean == old(sm.clean)
    ensures added <==> CanSubscribe(old(sm.topicManager.S()), SubscribeRequest(topic, sel), fd)
    ensures Shrinks(Subscribed(old(sm.V()), added, topic, sel, fd), sm.V(),
                    WantedOffers(old(sm.V()).tabs.slots, fd, topic, sel))
    ensures IsHash(old(sm.V()).tabs.slots, topic, sel, hash)
    ensures Introduced(old(sm.V()), sm.V(), fd, SubscribeReply(sequence, added, hash), topic, sel)
    ensures SentAsSelected(old(sm.V()), sm.V(), fd, topic, sel)
    ensures old(sm.Smooth()) ==> sm.Smooth() && sm.clients.Keys == old(sm.clients.Keys)
  {
    hide ServiceManager.Objects;
    hide ServiceManager.OutboxesOk;
    hide ServiceManager.Smooth;
    hide TopicManager.Valid;
    hide TopicManager.ExactIndex;
    hide ServiceRegistry.Valid;
    hide WatchNotifier.Valid;
    hide PidsExact;
    hide WatchersMirror;
    hide SinceOk;
    hide Shrinks;
    hide Buried;
    hide Halted;
    hide Inv;
    hide Sent;
    hide Sendable;
    hide Introduced;
    hide IsHash;
    hide HeardAll;
    hide RoomToSubscribe;
    hide SelectorKey;
    hide SentAsSelected;
    hide NamedAsFiled;
    hide Subscribed;
    ghost var s := sm.V();
    added := FileSub(sm, topic, sel, fd);
    sm.TablesValid();
    hash := GetIdlHash(sm.topicManager, topic, sel);
    var reply := SubscribeReply(sequence, added, hash);
    SmallReply(MSG_SUBSCRIBE_TOPIC_REPLY, sequence, reply.body);
    sm.SendReply(fd, MSG_SUBSCRIBE_TOPIC_REPLY, sequence, reply.body);
    ghost var t := sm.V();
    TellPublishers(sm, fd, topic, sel);
    SubscribeDone(s, added, topic, sel, fd, reply, t, sm.V(), sm.clean);
    IntroducedAsSelected(s, added, sm.V(), fd, reply, topic, sel);
  }

  /** The subscription is filed, if it may be, and meets the publishers. */
  method FileSub(sm: ServiceManager, topic: Str, sel: Selector, fd: Fd) returns (added: bool)
    requires sm.Sound() && fd in sm.clients
    modifies sm.topicManager, sm`met
    ensures sm.Ready() && sm.V() == Subscribed(old(sm.V()), added, topic, sel, fd)
    ensures sm.V().tabs.slots == old(sm.V()).tabs.slots
    ensures added <==> CanSubscribe(old(sm.topicManager.S()), SubscribeRequest(topic, sel), fd)
  {
    hide ServiceManager.Objects;
    hide ServiceManager.OutboxesOk;
    hide PidsExact;
    hide WatchersMirror;
    hide SinceOk;
    hide Inv;
    hide InvBut;
    hide Rendezvous;
    hide RendezvousWithout;
    hide RoomToSubscribe;
    hide SelectorKey;
    ghost var s := sm.V();
    added := sm.PutSubscriber(topic, sel, fd);
    SubscribedInv(s, added, topic, sel, fd, sm.clean);
    if added { RecordMet(sm, MetSub(s, SubFor(topic, sel, fd))); }
  }

  ghost predicate CanSubscribe(s: State, request: SubscribeRequest, fd: Fd) {
    && ValidTopic(request.topic) && |request.sel.service| <= MAX_NAME_LENGTH
    && SubFor(request.topic, request.sel, fd) !in s.subs && RoomToSubscribe(s, SubFor(request.topic, request.sel, fd))
  }

  // ---- Withdrawing --------------------------------------------------------------------------------

  lemma FewerInv(s: Sm, t: Sm, clean: bool)
    requires Inv(s, clean) && t == s.(tabs := s.tabs.(slots := t.tabs.slots, subs := t.tabs.subs))
    requires forall id :: id in t.tabs.slots ==> id in s.tabs.slots && t.tabs.slots[id] == s.tabs.slots[id]
    requires forall id :: id in t.tabs.subs ==> id in s.tabs.subs && t.tabs.subs[id] == s.tabs.subs[id]
    ensures Inv(t, clean)
  {
    hide Rendezvous;
    hide SinceOk;
    hide OnlyWatched;
    hide ReportedBut;
    hide ReportedOnline;
    hide NoStaleBut;
    hide NoStaleOnline;
    RendezvousLess(s, t);
    ReportsKept(s, t, {}, clean);
    InvIsInvBut(t, clean);
  }

  /** handleUnpublishTopic: no reply. */
  method HandleUnpublish(sm: ServiceManager, fd: Fd, request: Option<Str>)
    requires sm.Sound()
    modifies sm.topicManager
    ensures sm.Sound()
    ensures sm.V() == if request.Some? && ValidTopic(request.value) then
                        var s := old(sm.V()); s.(tabs := s.tabs.(slots := SlotsOfOthers(s.tabs.slots, request.value,
                            fd)))
                      else old(sm.V())
  {
    hide PidTableHolds;
    hide WatcherTableHolds;
    hide ServiceRegistry.Valid;
    hide WatchNotifier.Valid;
    hide TopicManager.Valid;
    hide TopicManager.ExactIndex;
    hide ServiceManager.OutboxesOk;
    hide PidsExact;
    hide WatchersMirror;
    hide SinceOk;
    hide Shrinks;
    hide Told;
    hide Buried;
    hide Halted;
    hide Inv;
    if request.None? || !ValidTopic(request.value) { return; }
    var _ := sm.topicManager.RemovePublisher(request.value, fd);
    FewerInv(old(sm.V()), sm.V(), sm.clean);
    InvMirrors(sm.V(), sm.clean);
  }

  /** handleUnsubscribeTopic: no reply. */
  method HandleUnsubscribeTopic(sm: ServiceManager, fd: Fd, request: Option<SubscribeRequest>)
    requires sm.Sound()
    modifies sm.topicManager
    ensures sm.Sound()
    ensures sm.V() == if request.Some? then
                        var s := old(sm.V());
                        s.(tabs := s.tabs.(subs := s.tabs.subs - {SubFor(request.value.topic, request.value.sel, fd)}))
                      else old(sm.V())
  {
    hide PidTableHolds;
    hide WatcherTableHolds;
    hide ServiceRegistry.Valid;
    hide WatchNotifier.Valid;
    hide TopicManager.Valid;
    hide TopicManager.ExactIndex;
    hide ServiceManager.OutboxesOk;
    hide PidsExact;
    hide WatchersMirror;
    hide SinceOk;
    hide Shrinks;
    hide Told;
    hide Buried;
    hide Halted;
    hide Inv;
    hide SelectorKey;
    if request.None? { return; }
    var _ := sm.topicManager.RemoveSubscriber(request.value.topic, request.value.sel, fd);
    FewerInv(old(sm.V()), sm.V(), sm.clean);
    InvMirrors(sm.V(), sm.clean);
  }

  // ---- Queries ------------------------------------------------------------------------------------

  /** handleQueryPublishedTopics: the reply is always serializable, and decodes
      to the sorted list of what the service publishes. */
  method HandleQueryTopics(sm: ServiceManager, fd: Fd, sequence: u32, request: Option<Str>)
    returns (reply: PublishedTopics.TopicsReply)
    requires sm.Sound() && fd in sm.clients
    modifies sm, sm.registry, sm.watchers, sm.topicManager
    ensures sm.Sound() && Shrinks(old(sm.V()), sm.V(), {}) && sm.clean == old(sm.clean)
    ensures reply.found <==>
              && request.Some? && 0 < |request.value| <= MAX_NAME_LENGTH
              && exists id :: id in old(sm.V()).tabs.reg && id.name == request.value
    ensures PublishedTopics.StrictlySorted(reply.topics)
    ensures reply.found ==> forall t :: t in reply.topics <==> t in Published(old(sm.V()).tabs.slots, request.value)
    ensures PublishedTopics.DecodeReply(PublishedTopics.ReplyBytes(reply)) == Some(reply)
    ensures Answered(old(sm.V()), sm.V(), fd,
              Plain(MSG_QUERY_PUBLISHED_TOPICS_REPLY, sequence, PublishedTopics.ReplyBytes(reply)))
    ensures old(sm.Smooth()) ==> sm.Smooth() && sm.clients.Keys == old(sm.clients.Keys)
  {
    hide ServiceManager.Smooth;
    hide PidTableHolds;
    hide WatcherTableHolds;
    hide ServiceRegistry.Valid;
    hide WatchNotifier.Valid;
    hide TopicManager.Valid;
    hide TopicManager.ExactIndex;
    hide ServiceManager.OutboxesOk;
    hide PidsExact;
    hide WatchersMirror;
    hide SinceOk;
    hide Shrinks;
    hide Told;
    hide Buried;
    hide Halted;
    hide Inv;
    hide Sent;
    hide Answered;
    hide Sendable;
    hide Published;
    hide PublishedTopics.ReplyBytes;
    hide PublishedTopics.DecodeReply;
    hide PublishedTopics.Serializable;
    hide PublishedTopics.Less;
    ghost var s := sm.V();
    reply := PublishedTopics.TopicsReply(false, []);
    NotFoundSendable(sequence);
    if request.Some? && 0 < |request.value| <= MAX_NAME_LENGTH {
      var entry := sm.registry.FindService(request.value);
      if entry.Some? {
        var topics := PublishedTopics.GetPublishedTopics(sm.topicManager, request.value);
        reply := PublishedTopics.TopicsReply(true, topics);
        PublishedTopics.AlwaysServed(sm.topicManager, request.value, topics, sequence,
            MSG_QUERY_PUBLISHED_TOPICS_REPLY);
      }
    }
    PublishedTopics.ReplyRoundTrip(reply);
    var bytes := PublishedTopics.SerializeReply(reply);
    sm.Reply(fd, MSG_QUERY_PUBLISHED_TOPICS_REPLY, sequence, bytes.value);
    SentLast(s, sm.V(), fd, Plain(MSG_QUERY_PUBLISHED_TOPICS_REPLY, sequence, bytes.value));
  }

  lemma NotFoundSendable(sequence: u32)
    ensures PublishedTopics.Serializable(PublishedTopics.TopicsReply(false, []))
    ensures Sendable(Plain(MSG_QUERY_PUBLISHED_TOPICS_REPLY, sequence,
              PublishedTopics.ReplyBytes(PublishedTopics.TopicsReply(false, []))))
  {
    PublishedTopics.NoTopics();
    SmallReply(MSG_QUERY_PUBLISHED_TOPICS_REPLY, sequence,
               PublishedTopics.ReplyBytes(PublishedTopics.TopicsReply(false, [])));
  }
}

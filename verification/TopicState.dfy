/** The topic manager's whole state as a value, its representation invariant,
    and the state changes its operations make, each shown to keep the invariant.
  */
module TopicState {
  import opened Base
  import opened TopicKeys
  import opened TopicTables
  import opened TopicIndexes

  /** The six tables of TopicManager, and the two relations they represent. */
  datatype State = State(
    topics: Topics, refs: map<Str, nat>, fdSubs: KeyIndex, fdPubs: KeyIndex,
    counts: map<Fd, nat>, total: nat, slots: Slots, subs: Subs)

  const EMPTY: State := State(map[], map[], map[], map[], map[], 0, map[], map[])

  ghost predicate Wf(s: State) {
    && SlotsHold(s.topics, s.slots) && SubsHold(s.topics, s.subs) && EntriesSound(s.topics)
    && RefsExact(s.refs, s.topics)
    && SubIndexExact(s.fdSubs, s.subs) && PubIndexCovers(s.fdPubs, s.slots)
    && CountsExact(s.counts, s.subs) && s.total == |s.subs|
    && Quotas(s.topics, s.refs, s.fdPubs, s.slots, s.subs)
    && NamesSound(s.slots, s.subs)
  }

  ghost predicate Exact(s: State) {
    PubIndexExact(s.fdPubs, s.slots)
  }

  // ---- Publishing -----------------------------------------------------------------

  function NewRefs(refs: map<Str, nat>, known: bool, topic: Str): map<Str, nat> {
    if known then refs else refs[topic := RefCount(refs, topic) + 1]
  }

  ghost function Publish(s: State, id: SlotId, slot: Slot): State {
    var k := EntryKey(id.service, id.topic);
    s.(topics := PutSlot(s.topics, id.service, id.topic, id.inst, slot),
       refs := NewRefs(s.refs, k in s.topics, id.topic),
       fdPubs := AddKey(s.fdPubs, slot.fd, k),
       slots := s.slots[id := slot])
  }

  /** The limits registerPublisher checks, on the represented relations. */
  ghost predicate RoomToPublish(s: State, id: SlotId, fd: Fd) {
    && (id.topic in s.refs || |s.refs| < MAX_TOPICS_GLOBAL)
    && (|| EntryKey(id.service, id.topic) in KeysOf(s.fdPubs, fd)
        || |KeysOf(s.fdPubs, fd)| < MAX_PUBLICATIONS_PER_CONNECTION)
    && var others := Published(s.slots, id.service) - {id.topic};
       |others| + 1 <= MAX_PUBLISHED_TOPICS && TotalLength(others) + |id.topic| <= MAX_PUBLISHED_TOPICS_BYTES
  }

  predicate ValidTopic(topic: Str) {
    0 < |topic| <= MAX_NAME_LENGTH
  }

  lemma RefsOfPut(topics: Topics, refs: map<Str, nat>, service: Str, topic: Str, e': TopicEntry)
    requires RefsExact(refs, topics) && EntriesSound(topics) && e'.topic == topic
    requires |refs| <= MAX_TOPICS_GLOBAL && (topic in refs || |refs| < MAX_TOPICS_GLOBAL)
    ensures var k := EntryKey(service, topic);
            var refs' := NewRefs(refs, k in topics, topic);
            RefsExact(refs', topics[k := e']) && |refs'| <= MAX_TOPICS_GLOBAL
  {
    hide EntryKey;
    hide RefsExact;
    var k := EntryKey(service, topic);
    var refs' := NewRefs(refs, k in topics, topic);
    if k in topics {
      KeyInjective(service, topic);
      SameEntryRefs(topics, refs, k, e');
    } else {
      NewEntryRefs(topics, refs, k, e');
      assert refs'.Keys == refs.Keys + {topic};
      assert topic in refs ==> refs.Keys + {topic} == refs.Keys;
    }
  }

  lemma PublishTables(s: State, id: SlotId, slot: Slot)
    requires SlotsHold(s.topics, s.slots) && SubsHold(s.topics, s.subs)
    requires EntriesSound(s.topics) && RefsExact(s.refs, s.topics)
    requires |s.refs| <= MAX_TOPICS_GLOBAL && (id.topic in s.refs || |s.refs| < MAX_TOPICS_GLOBAL)
    ensures var s' := Publish(s, id, slot);
            && SlotsHold(s'.topics, s'.slots) && SubsHold(s'.topics, s'.subs)
            && EntriesSound(s'.topics) && RefsExact(s'.refs, s'.topics) && |s'.refs| <= MAX_TOPICS_GLOBAL
  {
    hide EntryKey;
    hide SlotsHold;
    hide SubsHold;
    hide RefsExact;
    PutSlotHolds(s.topics, s.slots, s.subs, id.service, id.topic, id.inst, slot);
    var e := EntryFor(s.topics, id.service, id.topic);
    assert e.topic == id.topic by { KeyInjective(id.service, id.topic); }
    RefsOfPut(s.topics, s.refs, id.service, id.topic, e.(publishers := e.publishers[id.inst := slot]));
  }

  lemma SlotNamesAdded(slots: Slots, subs: Subs, id: SlotId, slot: Slot)
    requires NamesSound(slots, subs)
    requires ValidTopic(id.topic) && 0 < |id.service| <= MAX_NAME_LENGTH
    requires slot.info.name == id.service && slot.info.inst == id.inst
    ensures NamesSound(slots[id := slot], subs)
  {
    hide SelectorKey;
  }

  lemma PublishKeepsWf(s: State, id: SlotId, slot: Slot)
    requires Wf(s) && RoomToPublish(s, id, slot.fd)
    requires ValidTopic(id.topic) && 0 < |id.service| <= MAX_NAME_LENGTH
    requires slot.info.name == id.service && slot.info.inst == id.inst
    ensures Wf(Publish(s, id, slot))
  {
    hide EntryKey;
    hide SlotsHold;
    hide SubsHold;
    hide EntriesSound;
    hide RefsExact;
    hide SubIndexExact;
    hide PubIndexCovers;
    hide CountsExact;
    hide PubQuota;
    hide SubQuota;
    hide EntryQuota;
    hide ServiceQuota;
    hide Published;
    hide NamesSound;
    hide PutSlot;
    hide AddKey;
    PublishTables(s, id, slot);
    PubIndexAdded(s.fdPubs, s.slots, id, slot);
    PubQuotaAdded(s.fdPubs, slot.fd, EntryKey(id.service, id.topic));
    EntryQuotaSlot(s.topics, id.service, id.topic, id.inst, slot);
    ServiceQuotaAdded(s.slots, id, slot);
    SlotNamesAdded(s.slots, s.subs, id, slot);
  }

  // ---- Subscribing ----------------------------------------------------------------

  ghost function Subscribe(s: State, id: SubId, sel: Selector): State {
    var k := EntryKey(id.service, id.topic);
    s.(topics := PutSub(s.topics, id.service, id.topic, id.fd, id.key, sel),
       refs := NewRefs(s.refs, k in s.topics, id.topic),
       fdSubs := AddKey(s.fdSubs, id.fd, k),
       counts := s.counts[id.fd := CountOf(s.counts, id.fd) + 1],
       total := s.total + 1,
       subs := s.subs[id := sel])
  }

  /** The limits addSubscriber checks. */
  ghost predicate RoomToSubscribe(s: State, id: SubId) {
    && |SubsOfFd(s.subs, id.fd)| < MAX_SUBSCRIPTIONS_PER_CONNECTION
    && |s.subs| < MAX_SUBSCRIPTIONS_GLOBAL
    && (id.topic in s.refs || |s.refs| < MAX_TOPICS_GLOBAL)
    && (|| id.fd in EntryFor(s.topics, id.service, id.topic).subscribers
        || |EntryFor(s.topics, id.service, id.topic).subscribers| < MAX_SUBSCRIBERS_PER_TOPIC)
  }

  lemma SubscribeTables(s: State, id: SubId, sel: Selector)
    requires SlotsHold(s.topics, s.slots) && SubsHold(s.topics, s.subs)
    requires EntriesSound(s.topics) && RefsExact(s.refs, s.topics)
    requires |s.refs| <= MAX_TOPICS_GLOBAL && (id.topic in s.refs || |s.refs| < MAX_TOPICS_GLOBAL)
    ensures var s' := Subscribe(s, id, sel);
            && SlotsHold(s'.topics, s'.slots) && SubsHold(s'.topics, s'.subs)
            && EntriesSound(s'.topics) && RefsExact(s'.refs, s'.topics) && |s'.refs| <= MAX_TOPICS_GLOBAL
  {
    hide EntryKey;
    hide SlotsHold;
    hide SubsHold;
    hide RefsExact;
    PutSubKeepsRest(s.topics, s.slots, id.service, id.topic, id.fd, id.key, sel);
    PutSubHolds(s.topics, s.subs, id.service, id.topic, id.fd, id.key, sel);
    var e := EntryFor(s.topics, id.service, id.topic);
    var mine := SubsOf(s.topics, EntryKey(id.service, id.topic), id.fd);
    assert e.topic == id.topic by { KeyInjective(id.service, id.topic); }
    RefsOfPut(s.topics, s.refs, id.service, id.topic,
              e.(subscribers := e.subscribers[id.fd := mine[id.key := sel]]));
  }

  lemma NamesAdded(slots: Slots, subs: Subs, id: SubId, sel: Selector)
    requires NamesSound(slots, subs)
    requires ValidTopic(id.topic) && id.service == sel.service && id.key == SelectorKey(sel)
    ensures NamesSound(slots, subs[id := sel])
  {
    hide SelectorKey;
  }

  lemma SubscribeKeepsWf(s: State, id: SubId, sel: Selector)
    requires Wf(s) && RoomToSubscribe(s, id) && id !in s.subs
    requires ValidTopic(id.topic) && id.service == sel.service && id.key == SelectorKey(sel)
    ensures Wf(Subscribe(s, id, sel))
  {
    hide EntryKey;
    hide SlotsHold;
    hide SubsHold;
    hide EntriesSound;
    hide RefsExact;
    hide SubIndexExact;
    hide PubIndexCovers;
    hide CountsExact;
    hide PubQuota;
    hide SubQuota;
    hide EntryQuota;
    hide ServiceQuota;
    hide SelectorKey;
    hide NamesSound;
    hide PutSub;
    hide AddKey;
    SubscribeTables(s, id, sel);
    SubIndexAdded(s.fdSubs, s.subs, id, sel);
    CountsAdded(s.counts, s.subs, id, sel);
    EntryQuotaSub(s.topics, id.service, id.topic, id.fd, id.key, sel);
    SubQuotaAdded(s.subs, id, sel);
    NamesAdded(s.slots, s.subs, id, sel);
  }

  // ---- Removing -------------------------------------------------------------------

  /** All slots of a connection leave one entry. */
  ghost function DropPublisher(s: State, k: Str, fd: Fd): State
    requires k in s.topics
  {
    var e := s.topics[k];
    var e' := EntryWithoutPublisher(e, fd);
    s.(topics := Settle(s.topics, k, e'),
       refs := SettleRefs(s.refs, e'),
       fdPubs := if e'.publishers == e.publishers then s.fdPubs else DropKey(s.fdPubs, fd, k),
       slots := SlotsWithout(s.slots, e.service, e.topic, fd))
  }

  lemma AnySlotDropped(topics: Topics, slots: Slots, k: Str, fd: Fd)
    requires SlotsHold(topics, slots) && EntriesSound(topics) && k in topics
    ensures Publishes(slots, topics[k].service, topics[k].topic, fd)
       <==> WithoutFd(topics[k].publishers, fd) != topics[k].publishers
  {
    hide EntryKey;
    var e := topics[k];
    if Publishes(slots, e.service, e.topic, fd) {
      var id :| id in slots && id.service == e.service && id.topic == e.topic && slots[id].fd == fd;
      assert id.inst in Pubs(topics, k) && id.inst !in WithoutFd(e.publishers, fd);
    }
    if WithoutFd(e.publishers, fd) != e.publishers {
      var i :| i in e.publishers && e.publishers[i].fd == fd;
      var id := SlotId(e.service, e.topic, i);
      assert id.inst in Pubs(topics, EntryKey(id.service, id.topic));
      assert id in slots && slots[id].fd == fd;
    }
  }

  lemma SettleShrinks(topics: Topics, refs: map<Str, nat>, k: Str, e: TopicEntry)
    requires k in topics && e.subscribers.Keys <= topics[k].subscribers.Keys
    ensures SettleRefs(refs, e).Keys <= refs.Keys
    ensures forall k' :: k' in Settle(topics, k, e) ==>
              k' in topics && Settle(topics, k, e)[k'].subscribers.Keys <= topics[k'].subscribers.Keys
  {
  }

  lemma DropPublisherTables(s: State, k: Str, fd: Fd)
    requires SlotsHold(s.topics, s.slots) && SubsHold(s.topics, s.subs)
    requires EntriesSound(s.topics) && RefsExact(s.refs, s.topics) && k in s.topics
    ensures var s' := DropPublisher(s, k, fd);
            && SlotsHold(s'.topics, s'.slots) && SubsHold(s'.topics, s'.subs)
            && EntriesSound(s'.topics) && RefsExact(s'.refs, s'.topics)
            && s'.refs.Keys <= s.refs.Keys
    ensures forall k' :: k' in DropPublisher(s, k, fd).topics ==>
              k' in s.topics && DropPublisher(s, k, fd).topics[k'].subscribers.Keys <= s.topics[k'].subscribers.Keys
  {
    hide EntryKey;
    hide SlotsHold;
    hide SubsHold;
    hide RefsExact;
    hide Settle;
    hide SettleRefs;
    var e' := EntryWithoutPublisher(s.topics[k], fd);
    DropPublisherHolds(s.topics, s.slots, s.subs, k, fd);
    SettleSound(s.topics, k, e');
    SettleRefsExact(s.topics, s.refs, k, e');
    SettleShrinks(s.topics, s.refs, k, e');
  }

  lemma DropPublisherIndex(s: State, k: Str, fd: Fd)
    requires SlotsHold(s.topics, s.slots) && EntriesSound(s.topics) && k in s.topics
    requires PubIndexCovers(s.fdPubs, s.slots)
    ensures var s' := DropPublisher(s, k, fd);
            PubIndexCovers(s'.fdPubs, s'.slots) && (Exact(s) ==> Exact(s'))
    ensures forall f :: KeysOf(DropPublisher(s, k, fd).fdPubs, f) <= KeysOf(s.fdPubs, f)
  {
    hide EntryKey;
    hide SlotsHold;
    hide PubIndexCovers;
    hide PubIndexExact;
    hide Publishes;
    var e := s.topics[k];
    AnySlotDropped(s.topics, s.slots, k, fd);
    PubIndexDropped(s.fdPubs, s.slots, e.service, e.topic, fd);
  }

  lemma DropPublisherKeepsWf(s: State, k: Str, fd: Fd)
    requires Wf(s) && k in s.topics
    ensures Wf(DropPublisher(s, k, fd))
    ensures Exact(s) ==> Exact(DropPublisher(s, k, fd))
  {
    hide EntryKey;
    hide SlotsHold;
    hide SubsHold;
    hide EntriesSound;
    hide RefsExact;
    hide SubIndexExact;
    hide PubIndexCovers;
    hide PubIndexExact;
    hide CountsExact;
    hide Quotas;
    hide NamesSound;
    hide Settle;
    hide SettleRefs;
    hide DropKey;
    hide KeysOf;
    var s' := DropPublisher(s, k, fd);
    DropPublisherTables(s, k, fd);
    DropPublisherIndex(s, k, fd);
    NamesShrink(s.slots, s.subs, s'.slots, s'.subs);
    QuotasShrink(s.topics, s.refs, s.fdPubs, s.slots, s.subs, s'.topics, s'.refs, s'.fdPubs, s'.slots, s'.subs);
  }

  /** Some or all subscriptions of a connection leave one entry. */
  ghost function DropSubs(s: State, k: Str, fd: Fd, e': TopicEntry, gone: set<SubId>): State
    requires k in s.topics
    requires |gone| <= s.total
  {
    s.(topics := Settle(s.topics, k, e'),
       refs := SettleRefs(s.refs, e'),
       fdSubs := if fd in e'.subscribers then s.fdSubs else DropKey(s.fdSubs, fd, k),
       counts := Discount(s.counts, fd, |gone|),
       total := s.total - |gone|,
       subs := s.subs - gone)
  }

  /** `e'` is entry `k` without exactly the subscriptions `gone` of `fd`. */
  ghost predicate Loses(s: State, k: Str, fd: Fd, e': TopicEntry, gone: set<SubId>)
    requires k in s.topics
  {
    var e := s.topics[k];
    && gone <= s.subs.Keys
    && (forall id: SubId :: id in gone ==> id.service == e.service && id.topic == e.topic && id.fd == fd)
    && e'.service == e.service && e'.topic == e.topic && e'.publishers == e.publishers
    && e'.subscribers.Keys <= e.subscribers.Keys
    && (forall f :: f in e.subscribers && f != fd ==> f in e'.subscribers && e'.subscribers[f] == e.subscribers[f])
    && (fd in e'.subscribers ==> e'.subscribers[fd] != map[])
    && (fd in e'.subscribers ==> forall x :: x in e'.subscribers[fd] ==>
          x in e.subscribers[fd] && e'.subscribers[fd][x] == e.subscribers[fd][x])
    && (fd in e.subscribers ==> forall x :: x in e.subscribers[fd] ==>
          (SubId(e.service, e.topic, fd, x) in gone <==> !(fd in e'.subscribers && x in e'.subscribers[fd])))
  }

  lemma DropSubsTables(s: State, k: Str, fd: Fd, e': TopicEntry, gone: set<SubId>)
    requires SlotsHold(s.topics, s.slots) && SubsHold(s.topics, s.subs) && EntriesSound(s.topics)
    requires k in s.topics && Loses(s, k, fd, e', gone)
    ensures SlotsHold(Settle(s.topics, k, e'), s.slots) && SubsHold(Settle(s.topics, k, e'), s.subs - gone)
    ensures fd in e'.subscribers <==> Subscribes(s.subs - gone, e'.service, e'.topic, fd)
  {
    hide EntryKey;
    var e := s.topics[k];
    var subs' := s.subs - gone;
    forall id: SubId | id.service == e.service && id.topic == e.topic && id.fd == fd
      ensures id in s.subs <==> fd in e.subscribers && id.key in e.subscribers[fd]
      ensures id in subs' <==> fd in e'.subscribers && id.key in e'.subscribers[fd]
    {
      assert id in s.subs <==> id.key in SubsOf(s.topics, k, fd);
      assert id == SubId(e.service, e.topic, fd, id.key);
    }
    if fd in e'.subscribers {
      var x :| x in e'.subscribers[fd];
      assert SubId(e.service, e.topic, fd, x) in subs';
    }
    hide SlotsHold;
    SubsSettled(s.topics, s.subs, subs', s.slots, k, e', fd);
  }

  lemma LosesFacts(s: State, k: Str, fd: Fd, e': TopicEntry, gone: set<SubId>)
    requires EntriesSound(s.topics) && k in s.topics && Loses(s, k, fd, e', gone)
    ensures var e := s.topics[k];
            && e'.service == e.service && e'.topic == e.topic && k == EntryKey(e.service, e.topic)
            && e'.subscribers.Keys <= e.subscribers.Keys
            && gone <= s.subs.Keys && |gone| <= |s.subs|
            && LostSubs(s.subs, s.subs - gone, e.service, e.topic, fd)
    ensures forall id: SubId :: id in gone ==> id.fd == fd
    ensures forall f :: f in e'.subscribers ==> e'.subscribers[f] != map[]
  {
    hide EntryKey;
    SmallerSubset(gone, s.subs.Keys);
  }

  lemma NamesShrink(slots: Slots, subs: Subs, slots': Slots, subs': Subs)
    requires NamesSound(slots, subs)
    requires slots'.Keys <= slots.Keys && forall id :: id in slots' ==> slots'[id] == slots[id]
    requires subs'.Keys <= subs.Keys && forall id :: id in subs' ==> subs'[id] == subs[id]
    ensures NamesSound(slots', subs')
  {
    hide SelectorKey;
  }

  lemma DropSubsKeepsWf(s: State, k: Str, fd: Fd, e': TopicEntry, gone: set<SubId>)
    requires Wf(s) && k in s.topics && Loses(s, k, fd, e', gone)
    ensures |gone| <= s.total && Wf(DropSubs(s, k, fd, e', gone))
    ensures Exact(s) ==> Exact(DropSubs(s, k, fd, e', gone))
  {
    hide EntryKey;
    hide SlotsHold;
    hide SubsHold;
    hide EntriesSound;
    hide RefsExact;
    hide SubIndexExact;
    hide PubIndexCovers;
    hide PubIndexExact;
    hide CountsExact;
    hide Quotas;
    hide NamesSound;
    hide Settle;
    hide SettleRefs;
    hide Subscribes;
    hide Loses;
    hide LostSubs;
    hide Discount;
    hide DropKey;
    var e := s.topics[k];
    LosesFacts(s, k, fd, e', gone);
    var s' := DropSubs(s, k, fd, e', gone);
    DropSubsTables(s, k, fd, e', gone);
    SettleSound(s.topics, k, e');
    SettleRefsExact(s.topics, s.refs, k, e');
    SubIndexDropped(s.fdSubs, s.subs, s'.subs, e.service, e.topic, fd);
    CountsDropped(s.counts, s.subs, gone, fd);
    SettleShrinks(s.topics, s.refs, k, e');
    NamesShrink(s.slots, s.subs, s'.slots, s'.subs);
    QuotasShrink(s.topics, s.refs, s.fdPubs, s.slots, s.subs, s'.topics, s'.refs, s'.fdPubs, s'.slots, s'.subs);
  }
}

/** The tables of the topic manager as values: the nested topic table, the flat
    relations it stands for, and the indexes derived from them
    (service_manager/topic_manager.h, topic_manager.cpp).
  */
module TopicTables {
  import opened Base
  import opened TopicKeys
  import opened ServiceCodec

  /** One publisher instance of a topic. */
  datatype Slot = Slot(fd: Fd, info: ServiceInfo, hash: u32)

  /** TopicEntry: all publishers and subscribers of one (service, topic). */
  datatype TopicEntry = TopicEntry(
    service: Str, topic: Str, publishers: map<Str, Slot>, subscribers: map<Fd, map<Str, Selector>>)

  type Topics = map<Str, TopicEntry>

  /** Identity of a publisher slot and of a subscription in the flat view. */
  datatype SlotId = SlotId(service: Str, topic: Str, inst: Str)
  datatype SubId = SubId(service: Str, topic: Str, fd: Fd, key: Str)

  type Slots = map<SlotId, Slot>
  type Subs = map<SubId, Selector>
  type KeyIndex = map<Fd, set<Str>>

  // ---- The nested table and its flat view --------------------------------------

  function Pubs(topics: Topics, key: Str): map<Str, Slot> {
    if key in topics then topics[key].publishers else map[]
  }

  function SubsOf(topics: Topics, key: Str, fd: Fd): map<Str, Selector> {
    if key in topics && fd in topics[key].subscribers then topics[key].subscribers[fd] else map[]
  }

  ghost predicate SlotsHold(topics: Topics, slots: Slots) {
    && (forall id: SlotId :: id in slots <==> id.inst in Pubs(topics, EntryKey(id.service, id.topic)))
    && (forall id: SlotId :: id in slots ==> slots[id] == Pubs(topics, EntryKey(id.service, id.topic))[id.inst])
  }

  ghost predicate SubsHold(topics: Topics, subs: Subs) {
    && (forall id: SubId :: id in subs <==> id.key in SubsOf(topics, EntryKey(id.service, id.topic), id.fd))
    && (forall id: SubId :: id in subs ==>
          subs[id] == SubsOf(topics, EntryKey(id.service, id.topic), id.fd)[id.key])
  }

  predicate Unused(e: TopicEntry) {
    e.publishers == map[] && e.subscribers == map[]
  }

  /** Entries sit under their own key, none is empty, none keeps an empty subscriber. */
  ghost predicate EntriesSound(topics: Topics) {
    forall k :: k in topics ==>
      && k == EntryKey(topics[k].service, topics[k].topic)
      && !Unused(topics[k])
      && (forall fd :: fd in topics[k].subscribers ==> topics[k].subscribers[fd] != map[])
  }

  lemma KeyInjective(service: Str, topic: Str)
    ensures forall s, t :: EntryKey(s, t) == EntryKey(service, topic) ==> s == service && t == topic
  {
    forall s, t | EntryKey(s, t) == EntryKey(service, topic)
      ensures s == service && t == topic
    {
      EntryKeyInjective(s, t, service, topic);
    }
  }

  // ---- Index by topic name -------------------------------------------------------

  ghost function EntriesNamed(topics: Topics, name: Str): set<Str> {
    set k | k in topics && topics[k].topic == name
  }

  function RefCount(refs: map<Str, nat>, name: Str): nat {
    if name in refs then refs[name] else 0
  }

  /** topic_name_refs_ counts the entries of each topic name. */
  ghost predicate RefsExact(refs: map<Str, nat>, topics: Topics) {
    && (forall name :: RefCount(refs, name) == |EntriesNamed(topics, name)|)
    && (forall name :: name in refs ==> refs[name] > 0)
  }

  // ---- Indexes by connection -----------------------------------------------------

  function KeysOf(index: KeyIndex, fd: Fd): set<Str> {
    if fd in index then index[fd] else {}
  }

  function AddKey(index: KeyIndex, fd: Fd, key: Str): KeyIndex {
    index[fd := KeysOf(index, fd) + {key}]
  }

  function DropKey(index: KeyIndex, fd: Fd, key: Str): KeyIndex {
    var keys := KeysOf(index, fd) - {key};
    if keys == {} then index - {fd} else index[fd := keys]
  }

  predicate NoEmptySets(index: KeyIndex) {
    forall fd :: fd in index ==> index[fd] != {}
  }

  /** The entries in which a connection publishes, or subscribes. */
  ghost function PubKeys(slots: Slots, fd: Fd): set<Str> {
    set id | id in slots && slots[id].fd == fd :: EntryKey(id.service, id.topic)
  }

  ghost function SubKeys(subs: Subs, fd: Fd): set<Str> {
    set id | id in subs && id.fd == fd :: EntryKey(id.service, id.topic)
  }

  ghost predicate SubIndexExact(index: KeyIndex, subs: Subs) {
    NoEmptySets(index) && forall fd :: KeysOf(index, fd) == SubKeys(subs, fd)
  }

  ghost predicate PubIndexCovers(index: KeyIndex, slots: Slots) {
    NoEmptySets(index) && forall fd :: PubKeys(slots, fd) <= KeysOf(index, fd)
  }

  ghost predicate PubIndexExact(index: KeyIndex, slots: Slots) {
    forall fd :: KeysOf(index, fd) == PubKeys(slots, fd)
  }

  // ---- Counters -------------------------------------------------------------------

  ghost function SubsOfFd(subs: Subs, fd: Fd): set<SubId> {
    set id | id in subs && id.fd == fd
  }

  function CountOf(counts: map<Fd, nat>, fd: Fd): nat {
    if fd in counts then counts[fd] else 0
  }

  ghost predicate CountsExact(counts: map<Fd, nat>, subs: Subs) {
    && (forall fd :: CountOf(counts, fd) == |SubsOfFd(subs, fd)|)
    && (forall fd :: fd in counts ==> counts[fd] > 0)
  }

  /** fd_subscription_counts_ after `n` subscriptions of a connection went away. */
  function Discount(counts: map<Fd, nat>, fd: Fd, n: nat): map<Fd, nat> {
    if fd in counts then (if counts[fd] > n then counts[fd := counts[fd] - n] else counts - {fd}) else counts
  }

  // ---- Limits ---------------------------------------------------------------------

  /** The topics a service publishes. */
  ghost function Published(slots: Slots, service: Str): set<Str> {
    set id | id in slots && id.service == service :: id.topic
  }

  ghost function TotalLength(names: set<Str>): nat {
    if names == {} then 0 else
      var n :| n in names;
      |n| + TotalLength(names - {n})
  }

  lemma {:induction false} TotalLengthRemove(names: set<Str>, x: Str)
    requires x in names
    ensures TotalLength(names) == |x| + TotalLength(names - {x})
  {
    var n :| n in names && TotalLength(names) == |n| + TotalLength(names - {n});
    if n != x {
      TotalLengthRemove(names - {n}, x);
      TotalLengthRemove(names - {x}, n);
      assert names - {n} - {x} == names - {x} - {n};
    }
  }

  lemma {:induction false} TotalLengthSubset(a: set<Str>, b: set<Str>)
    requires a <= b
    ensures TotalLength(a) <= TotalLength(b)
  {
    if a != b {
      var x :| x in b && x !in a;
      TotalLengthRemove(b, x);
      TotalLengthSubset(a, b - {x});
    }
  }

  ghost predicate ServiceWithinLimits(slots: Slots, service: Str) {
    && |Published(slots, service)| <= MAX_PUBLISHED_TOPICS
    && TotalLength(Published(slots, service)) <= MAX_PUBLISHED_TOPICS_BYTES
  }

  ghost predicate PubQuota(fdPubs: KeyIndex) {
    forall fd :: |KeysOf(fdPubs, fd)| <= MAX_PUBLICATIONS_PER_CONNECTION
  }

  ghost predicate SubQuota(subs: Subs) {
    && |subs| <= MAX_SUBSCRIPTIONS_GLOBAL
    && forall fd :: |SubsOfFd(subs, fd)| <= MAX_SUBSCRIPTIONS_PER_CONNECTION
  }

  ghost predicate EntryQuota(topics: Topics) {
    forall k :: k in topics ==> |topics[k].subscribers| <= MAX_SUBSCRIBERS_PER_TOPIC
  }

  ghost predicate ServiceQuota(slots: Slots) {
    forall service :: ServiceWithinLimits(slots, service)
  }

  ghost predicate Quotas(topics: Topics, refs: map<Str, nat>, fdPubs: KeyIndex, slots: Slots, subs: Subs) {
    && |refs| <= MAX_TOPICS_GLOBAL
    && PubQuota(fdPubs) && SubQuota(subs) && EntryQuota(topics) && ServiceQuota(slots)
  }

  /** What the manager checks of the names it stores. */
  ghost predicate NamesSound(slots: Slots, subs: Subs) {
    && (forall id :: id in slots ==>
          && 0 < |id.topic| <= MAX_NAME_LENGTH && 0 < |id.service| <= MAX_NAME_LENGTH
          && slots[id].info.name == id.service && slots[id].info.inst == id.inst)
    && (forall id :: id in subs ==>
          0 < |id.topic| <= MAX_NAME_LENGTH && id.service == subs[id].service && id.key == SelectorKey(subs[id]))
  }

  // ---- Changing one entry -----------------------------------------------------------

  /** The flat slots follow a change of one entry's publishers. */
  lemma SlotsFollow(topics: Topics, slots: Slots, topics': Topics, slots': Slots, service: Str, topic: Str)
    requires SlotsHold(topics, slots)
    requires forall k :: k != EntryKey(service, topic) ==> Pubs(topics', k) == Pubs(topics, k)
    requires forall id: SlotId :: (id.service == service && id.topic == topic) ==>
               (id in slots' <==> id.inst in Pubs(topics', EntryKey(service, topic)))
    requires forall id: SlotId :: (id.service == service && id.topic == topic) && id in slots' ==>
               slots'[id] == Pubs(topics', EntryKey(service, topic))[id.inst]
    requires forall id: SlotId :: !(id.service == service && id.topic == topic) ==> (id in slots' <==> id in slots)
    requires forall id: SlotId :: !(id.service == service && id.topic == topic) && id in slots ==>
             slots'[id] == slots[id]
    ensures SlotsHold(topics', slots')
  {
    hide EntryKey;
    KeyInjective(service, topic);
  }

  /** The flat subscriptions follow a change of one connection's selectors in one entry. */
  lemma SubsFollow(topics: Topics, subs: Subs, topics': Topics, subs': Subs, service: Str, topic: Str, fd: Fd)
    requires SubsHold(topics, subs)
    requires forall k, f :: !(k == EntryKey(service, topic) && f == fd) ==>
             SubsOf(topics', k, f) == SubsOf(topics, k, f)
    requires forall id: SubId :: (id.service == service && id.topic == topic && id.fd == fd) ==>
               (id in subs' <==> id.key in SubsOf(topics', EntryKey(service, topic), fd))
    requires forall id: SubId :: (id.service == service && id.topic == topic && id.fd == fd) && id in subs' ==>
               subs'[id] == SubsOf(topics', EntryKey(service, topic), fd)[id.key]
    requires forall id: SubId :: !(id.service == service && id.topic == topic && id.fd == fd) ==>
               (id in subs' <==> id in subs)
    requires forall id: SubId :: !(id.service == service && id.topic == topic && id.fd == fd) && id in subs ==>
               subs'[id] == subs[id]
    ensures SubsHold(topics', subs')
  {
    hide EntryKey;
    KeyInjective(service, topic);
  }

  function EntryFor(topics: Topics, service: Str, topic: Str): TopicEntry {
    var k := EntryKey(service, topic);
    if k in topics then topics[k] else TopicEntry(service, topic, map[], map[])
  }

  function PutSlot(topics: Topics, service: Str, topic: Str, inst: Str, slot: Slot): Topics {
    var e := EntryFor(topics, service, topic);
    topics[EntryKey(service, topic) := e.(publishers := e.publishers[inst := slot])]
  }

  function PutSub(topics: Topics, service: Str, topic: Str, fd: Fd, key: Str, sel: Selector): Topics {
    var e := EntryFor(topics, service, topic);
    var mine := SubsOf(topics, EntryKey(service, topic), fd);
    topics[EntryKey(service, topic) := e.(subscribers := e.subscribers[fd := mine[key := sel]])]
  }

  lemma PutSlotKeepsRest(topics: Topics, subs: Subs, service: Str, topic: Str, inst: Str, slot: Slot)
    requires SubsHold(topics, subs) && EntriesSound(topics)
    ensures var topics' := PutSlot(topics, service, topic, inst, slot);
            SubsHold(topics', subs) && EntriesSound(topics')
  {
    hide EntryKey;
    hide SubsHold;
    var topics' := PutSlot(topics, service, topic, inst, slot);
    PutSlotKeepsSubs(topics, subs, service, topic, inst, slot);
    assert inst in topics'[EntryKey(service, topic)].publishers;
  }

  lemma PutSlotKeepsSubs(topics: Topics, subs: Subs, service: Str, topic: Str, inst: Str, slot: Slot)
    requires SubsHold(topics, subs)
    ensures SubsHold(PutSlot(topics, service, topic, inst, slot), subs)
  {
    hide EntryKey;
    var topics' := PutSlot(topics, service, topic, inst, slot);
    assert forall k', f :: SubsOf(topics', k', f) == SubsOf(topics, k', f);
  }

  lemma PutSlotHolds(topics: Topics, slots: Slots, subs: Subs, service: Str, topic: Str, inst: Str, slot: Slot)
    requires SlotsHold(topics, slots) && SubsHold(topics, subs) && EntriesSound(topics)
    ensures var topics' := PutSlot(topics, service, topic, inst, slot);
            && SlotsHold(topics', slots[SlotId(service, topic, inst) := slot])
            && SubsHold(topics', subs) && EntriesSound(topics')
  {
    hide EntryKey;
    hide SubsHold;
    var topics' := PutSlot(topics, service, topic, inst, slot);
    var slots' := slots[SlotId(service, topic, inst) := slot];
    var k := EntryKey(service, topic);
    assert Pubs(topics', k) == Pubs(topics, k)[inst := slot];
    assert forall id: SlotId :: (id.service == service && id.topic == topic) ==>
        (id in slots <==> id.inst in Pubs(topics, k));
    PutSlotKeepsRest(topics, subs, service, topic, inst, slot);
    SlotsFollow(topics, slots, topics', slots', service, topic);
  }

  lemma PutSubKeepsRest(topics: Topics, slots: Slots, service: Str, topic: Str, fd: Fd, key: Str, sel: Selector)
    requires SlotsHold(topics, slots) && EntriesSound(topics)
    ensures var topics' := PutSub(topics, service, topic, fd, key, sel);
            SlotsHold(topics', slots) && EntriesSound(topics')
  {
    hide EntryKey;
    var topics' := PutSub(topics, service, topic, fd, key, sel);
    assert SlotsHold(topics', slots) by {
      assert forall k' :: Pubs(topics', k') == Pubs(topics, k');
    }
    var e' := topics'[EntryKey(service, topic)];
    assert fd in e'.subscribers && key in e'.subscribers[fd];
  }

  lemma PutSubHolds(topics: Topics, subs: Subs, service: Str, topic: Str, fd: Fd, key: Str, sel: Selector)
    requires SubsHold(topics, subs)
    ensures SubsHold(PutSub(topics, service, topic, fd, key, sel), subs[SubId(service, topic, fd, key) := sel])
  {
    hide EntryKey;
    var topics' := PutSub(topics, service, topic, fd, key, sel);
    var subs' := subs[SubId(service, topic, fd, key) := sel];
    var k := EntryKey(service, topic);
    assert SubsOf(topics', k, fd) == SubsOf(topics, k, fd)[key := sel];
    assert forall k', f :: !(k' == k && f == fd) ==> SubsOf(topics', k', f) == SubsOf(topics, k', f);
    SubsFollow(topics, subs, topics', subs', service, topic, fd);
  }

  // ---- Removing from one entry --------------------------------------------------------

  /** eraseEntryIfUnused: an entry stays only while it has a publisher or a subscriber. */
  function Settle(topics: Topics, k: Str, e: TopicEntry): Topics {
    if Unused(e) then topics - {k} else topics[k := e]
  }

  function Release(refs: map<Str, nat>, name: Str): map<Str, nat> {
    if name in refs then (if refs[name] > 1 then refs[name := refs[name] - 1] else refs - {name}) else refs
  }

  function SettleRefs(refs: map<Str, nat>, e: TopicEntry): map<Str, nat> {
    if Unused(e) then Release(refs, e.topic) else refs
  }

  lemma SettleKeys(topics: Topics, k: Str, e: TopicEntry)
    requires k in topics
    ensures Settle(topics, k, e).Keys <= topics.Keys
  {
  }

  lemma SettleLooksUp(topics: Topics, k: Str, e: TopicEntry)
    ensures Pubs(Settle(topics, k, e), k) == e.publishers
    ensures forall k' :: k' != k ==> Pubs(Settle(topics, k, e), k') == Pubs(topics, k')
    ensures forall f :: SubsOf(Settle(topics, k, e), k, f) == if f in e.subscribers then e.subscribers[f] else map[]
    ensures forall k', f :: k' != k ==> SubsOf(Settle(topics, k, e), k', f) == SubsOf(topics, k', f)
  {
  }

  lemma SettleSound(topics: Topics, k: Str, e: TopicEntry)
    requires EntriesSound(topics)
    requires k in topics && e.service == topics[k].service && e.topic == topics[k].topic
    requires forall fd :: fd in e.subscribers ==> e.subscribers[fd] != map[]
    ensures EntriesSound(Settle(topics, k, e))
  {
    hide EntryKey;
  }

  lemma ReleaseExact(topics: Topics, refs: map<Str, nat>, k: Str)
    requires RefsExact(refs, topics) && k in topics
    ensures RefsExact(Release(refs, topics[k].topic), topics - {k})
  {
    var mine := topics[k].topic;
    assert k in EntriesNamed(topics, mine);
    forall name
      ensures RefCount(Release(refs, mine), name) == |EntriesNamed(topics - {k}, name)|
    {
      if name == mine {
        assert EntriesNamed(topics - {k}, name) == EntriesNamed(topics, name) - {k};
      } else {
        assert EntriesNamed(topics - {k}, name) == EntriesNamed(topics, name);
      }
    }
  }

  /** The reference count follows an erased entry. */
  lemma SettleRefsExact(topics: Topics, refs: map<Str, nat>, k: Str, e: TopicEntry)
    requires RefsExact(refs, topics)
    requires k in topics && e.topic == topics[k].topic
    ensures RefsExact(SettleRefs(refs, e), Settle(topics, k, e))
  {
    hide RefsExact;
    hide Release;
    if Unused(e) {
      ReleaseExact(topics, refs, k);
    } else {
      SameEntryRefs(topics, refs, k, e);
    }
  }

  /** One more entry of a name: one more reference. */
  lemma NewEntryRefs(topics: Topics, refs: map<Str, nat>, k: Str, e: TopicEntry)
    requires RefsExact(refs, topics) && k !in topics
    ensures RefsExact(refs[e.topic := RefCount(refs, e.topic) + 1], topics[k := e])
  {
    var topics' := topics[k := e];
    var refs' := refs[e.topic := RefCount(refs, e.topic) + 1];
    forall name
      ensures RefCount(refs', name) == |EntriesNamed(topics', name)|
    {
      if name == e.topic {
        assert EntriesNamed(topics', name) == EntriesNamed(topics, name) + {k};
      } else {
        assert EntriesNamed(topics', name) == EntriesNamed(topics, name);
      }
    }
  }

  lemma SameEntryRefs(topics: Topics, refs: map<Str, nat>, k: Str, e: TopicEntry)
    requires RefsExact(refs, topics) && k in topics && topics[k].topic == e.topic
    ensures RefsExact(refs, topics[k := e])
  {
    forall name
      ensures EntriesNamed(topics[k := e], name) == EntriesNamed(topics, name)
    {
    }
  }

  function WithoutFd(pubs: map<Str, Slot>, fd: Fd): map<Str, Slot> {
    map i | i in pubs && pubs[i].fd != fd :: pubs[i]
  }

  function EntryWithoutPublisher(e: TopicEntry, fd: Fd): TopicEntry {
    e.(publishers := WithoutFd(e.publishers, fd))
  }

  function EntryWithoutSubscriber(e: TopicEntry, fd: Fd): TopicEntry {
    e.(subscribers := e.subscribers - {fd})
  }

  function EntryWithoutSelector(e: TopicEntry, fd: Fd, key: Str): TopicEntry
    requires fd in e.subscribers
  {
    var mine := e.subscribers[fd] - {key};
    e.(subscribers := if mine == map[] then e.subscribers - {fd} else e.subscribers[fd := mine])
  }

  /** The slots that are not `fd`'s in entry (service, topic). */
  ghost function SlotsWithout(slots: Slots, service: Str, topic: Str, fd: Fd): Slots {
    map id | id in slots && !(id.service == service && id.topic == topic && slots[id].fd == fd) :: slots[id]
  }

  ghost function SubsWithout(subs: Subs, service: Str, topic: Str, fd: Fd): Subs {
    map id | id in subs && !(id.service == service && id.topic == topic && id.fd == fd) :: subs[id]
  }

  lemma DropPublisherHolds(topics: Topics, slots: Slots, subs: Subs, k: Str, fd: Fd)
    requires SlotsHold(topics, slots) && SubsHold(topics, subs) && EntriesSound(topics) && k in topics
    ensures var e := topics[k];
            var topics' := Settle(topics, k, EntryWithoutPublisher(e, fd));
            SlotsHold(topics', SlotsWithout(slots, e.service, e.topic, fd)) && SubsHold(topics', subs)
  {
    hide EntryKey;
    var e := topics[k];
    var e' := EntryWithoutPublisher(e, fd);
    var topics' := Settle(topics, k, e');
    SettleLooksUp(topics, k, e');
    assert SubsHold(topics', subs) by {
      assert forall k', f :: SubsOf(topics', k', f) == SubsOf(topics, k', f);
    }
    hide SubsHold;
    hide Settle;
    var slots' := SlotsWithout(slots, e.service, e.topic, fd);
    assert Pubs(topics, k) == e.publishers;
    SlotsFollow(topics, slots, topics', slots', e.service, e.topic);
  }

  lemma SubsSettled(topics: Topics, subs: Subs, subs': Subs, slots: Slots, k: Str, e': TopicEntry, fd: Fd)
    requires SlotsHold(topics, slots) && SubsHold(topics, subs) && EntriesSound(topics) && k in topics
    requires e'.publishers == topics[k].publishers
    requires forall f :: f != fd ==> (f in e'.subscribers <==> f in topics[k].subscribers)
    requires forall f :: f != fd && f in e'.subscribers ==> e'.subscribers[f] == topics[k].subscribers[f]
    requires forall id: SubId :: (id.service == topics[k].service && id.topic == topics[k].topic && id.fd == fd) ==>
               (id in subs' <==> fd in e'.subscribers && id.key in e'.subscribers[fd])
    requires forall id: SubId :: id in subs' ==> id in subs && subs'[id] == subs[id]
    requires forall id: SubId :: !(id.service == topics[k].service && id.topic == topics[k].topic && id.fd == fd) ==>
               (id in subs' <==> id in subs)
    requires fd in e'.subscribers ==> fd in topics[k].subscribers
    requires fd in e'.subscribers ==> forall x :: x in e'.subscribers[fd] ==>
               x in topics[k].subscribers[fd] && e'.subscribers[fd][x] == topics[k].subscribers[fd][x]
    ensures SlotsHold(Settle(topics, k, e'), slots) && SubsHold(Settle(topics, k, e'), subs')
  {
    hide EntryKey;
    var topics' := Settle(topics, k, e');
    SettleLooksUp(topics, k, e');
    hide Settle;
    assert SlotsHold(topics', slots) by {
      assert forall k' :: Pubs(topics', k') == Pubs(topics, k');
    }
    hide SlotsHold;
    var service, topic := topics[k].service, topics[k].topic;
    assert SubsOf(topics, k, fd) == if fd in topics[k].subscribers then topics[k].subscribers[fd] else map[];
    SubsFollow(topics, subs, topics', subs', service, topic, fd);
  }
}

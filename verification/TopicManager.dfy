/** Topics, their publishers and their subscribers
    (service_manager/topic_manager.cpp).

    The abstract value is a pair of flat relations, `slots` and `subs`; every
    operation is specified on them, and `Valid` says that the nested table, the
    reference counts, both reverse indexes, the counters and all limits agree
    with them.
  */
module TopicManagement {
  import opened Base
  import opened SeqUtil
  import opened TopicKeys
  import opened ServiceCodec
  import opened TopicTables
  import opened TopicIndexes
  import opened TopicState

  /** What a subscriber learns of a publisher. */
  datatype PublisherView = PublisherView(info: ServiceInfo, hash: u32)

  function ViewOf(slot: Slot): PublisherView {
    PublisherView(slot.info, slot.hash)
  }

  /** A live publisher of the topic that the selector matches. */
  predicate WantedSlot(slots: Slots, id: SlotId, topic: Str, sel: Selector) {
    id in slots && id.topic == topic && Asks(sel, id.service, id.inst)
  }

  /** Slots outside a condition on topic, service and connection. */
  ghost function SlotsOfOthers(slots: Slots, topic: Str, fd: Fd): Slots {
    map id | id in slots && !(id.topic == topic && slots[id].fd == fd) :: slots[id]
  }

  ghost function SlotsOfOtherServices(slots: Slots, service: Str, fd: Fd): Slots {
    map id | id in slots && !(id.service == service && slots[id].fd == fd) :: slots[id]
  }

  ghost function SlotsOutside(slots: Slots, dead: set<Fd>): Slots {
    map id | id in slots && slots[id].fd !in dead :: slots[id]
  }

  ghost function SubsOutside(subs: Subs, dead: set<Fd>): Subs {
    map id | id in subs && id.fd !in dead :: subs[id]
  }

  /** A live subscription of `fd` to `topic` that wants this publisher. */
  ghost predicate Wants(subs: Subs, fd: Fd, topic: Str, name: Str, inst: Str) {
    exists id: SubId :: id in subs && id.fd == fd && id.topic == topic && Asks(subs[id], name, inst)
  }

  class TopicManager {
    var topics: Topics
    var refs: map<Str, nat>
    var fdSubs: KeyIndex
    var fdPubs: KeyIndex
    var counts: map<Fd, nat>
    var total: nat
    ghost var slots: Slots
    ghost var subs: Subs

    ghost function S(): State
      reads this
    {
      State(topics, refs, fdSubs, fdPubs, counts, total, slots, subs)
    }

    ghost predicate Valid()
      reads this
    {
      Wf(S())
    }

    /** The publication index is exact, not only a superset. */
    ghost predicate ExactIndex()
      reads this
    {
      PubIndexExact(fdPubs, slots)
    }

    constructor ()
      ensures Valid() && ExactIndex() && slots == map[] && subs == map[]
    {
      topics, refs, fdSubs, fdPubs, counts, total := map[], map[], map[], map[], map[], 0;
      slots, subs := map[], map[];
      new;
      EmptyIsWf();
    }

    /** The scan of registerPublisher over the whole table. */
    static method ScanService(topics: Topics, service: Str, except: Str) returns (count: nat, bytes: nat)
      requires EntriesSound(topics)
      ensures var found := ScannedTopics(topics, topics.Keys, service, except);
              count == |found| && bytes == TotalLength(found)
    {
      ScanNone(topics, service, except);
      hide EntryKey;
      hide EntriesSound;
      hide ScannedTopics;
      hide TotalLength;
      count, bytes := 0, 0;
      var todo := topics.Keys;
      assert topics.Keys - todo == {};
      while todo != {}
        invariant todo <= topics.Keys
        invariant count == |ScannedTopics(topics, topics.Keys - todo, service, except)|
        invariant bytes == TotalLength(ScannedTopics(topics, topics.Keys - todo, service, except))
      {
        var k := Pick(todo);
        ghost var seen := topics.Keys - todo;
        todo := todo - {k};
        assert topics.Keys - todo == seen + {k} && k !in seen;
        ScanOne(topics, seen, service, except, k);
        if k != except && topics[k].service == service && topics[k].publishers != map[] {
          count, bytes := count + 1, bytes + |topics[k].topic|;
        }
      }
      assert topics.Keys - todo == topics.Keys;
    }

    static lemma ScanNone(topics: Topics, service: Str, except: Str)
      ensures ScannedTopics(topics, {}, service, except) == {} && TotalLength({}) == 0
    {
    }

    static lemma ScanOne(topics: Topics, seen: set<Str>, service: Str, except: Str, k: Str)
      requires EntriesSound(topics) && k in topics && k !in seen && seen <= topics.Keys
      ensures var before := ScannedTopics(topics, seen, service, except);
              var after := ScannedTopics(topics, seen + {k}, service, except);
              if k != except && topics[k].service == service && topics[k].publishers != map[] then
                |after| == |before| + 1 && TotalLength(after) == TotalLength(before) + |topics[k].topic|
              else after == before
    {
      hide EntryKey;
      var before := ScannedTopics(topics, seen, service, except);
      var after := ScannedTopics(topics, seen + {k}, service, except);
      if k != except && topics[k].service == service && topics[k].publishers != map[] {
        var t := topics[k].topic;
        assert t !in before;
        assert after == before + {t};
        hide ScannedTopics;
        hide EntriesSound;
        TotalLengthRemove(after, t);
        assert after - {t} == before;
      } else {
        assert after == before;
      }
    }

    /** registerPublisher: a new publisher slot, or an update of the same one.
        Refused requests change nothing. */
    method RegisterPublisher(topic: Str, info: ServiceInfo, fd: Fd, hash: u32) returns (ok: bool)
      requires Valid()
      modifies this
      ensures Valid()
      ensures !ok ==> S() == old(S())
      ensures ok <==> ValidTopic(topic) && 0 < |info.name| <= MAX_NAME_LENGTH
                      && RoomToPublish(old(S()), SlotId(info.name, topic, info.inst), fd)
      ensures ok ==> slots == old(slots)[SlotId(info.name, topic, info.inst) := Slot(fd, info, hash)]
      ensures subs == old(subs)
      ensures !ok && old(ExactIndex()) ==> ExactIndex()
      ensures ok && old(ExactIndex()) ==>
                var id := SlotId(info.name, topic, info.inst);
                ExactIndex() <==> (id in old(slots) && old(slots)[id].fd != fd ==>
                                     AlsoPublishes(old(slots), id, old(slots)[id].fd))
    {
      hide Wf;
      hide EntryKey;
      hide SlotsHold;
      hide EntriesSound;
      hide Published;
      hide PubIndexExact;
      hide AlsoPublishes;
      if !ValidTopic(topic) || |info.name| == 0 || |info.name| > MAX_NAME_LENGTH { return false; }
      var k := EntryKey(info.name, topic);
      var known := k in topics;
      if known { KnownTopicCounted(S(), info.name, topic); }
      if !known && topic !in refs && |refs| >= MAX_TOPICS_GLOBAL { return false; }
      if k !in KeysOf(fdPubs, fd) && fd in fdPubs && |fdPubs[fd]| >= MAX_PUBLICATIONS_PER_CONNECTION {
        return false;
      }
      WfTable(S());
      var count, bytes := ScanService(topics, info.name, k);
      ScanSeesPublished(topics, slots, info.name, topic);
      if 1 + count > MAX_PUBLISHED_TOPICS || |topic| + bytes > MAX_PUBLISHED_TOPICS_BYTES { return false; }

      ghost var id, slot := SlotId(info.name, topic, info.inst), Slot(fd, info, hash);
      PublishKeepsWf(S(), id, slot);
      if ExactIndex() { PubIndexExactIff(fdPubs, slots, id, slot); }
      topics := PutSlot(topics, info.name, topic, info.inst, Slot(fd, info, hash));
      refs := NewRefs(refs, known, topic);
      fdPubs := AddKey(fdPubs, fd, k);
      slots := slots[id := slot];
      ok := true;
      assert S() == Publish(old(S()), id, slot);
    }

    /** addSubscriber: one more selector of a connection.  Refused requests,
        a repeated selector included, change nothing. */
    method AddSubscriber(topic: Str, sel: Selector, fd: Fd) returns (ok: bool)
      requires Valid()
      modifies this
      ensures Valid()
      ensures !ok ==> S() == old(S())
      ensures ok <==> ValidTopic(topic) && |sel.service| <= MAX_NAME_LENGTH
                      && SubId(sel.service, topic, fd, SelectorKey(sel)) !in old(subs)
                      && RoomToSubscribe(old(S()), SubId(sel.service, topic, fd, SelectorKey(sel)))
      ensures ok ==> subs == old(subs)[SubId(sel.service, topic, fd, SelectorKey(sel)) := sel]
      ensures slots == old(slots) && (old(ExactIndex()) ==> ExactIndex())
    {
      hide Wf;
      hide EntryKey;
      hide PubIndexExact;
      hide SelectorKey;
      hide SubsOfFd;
      hide PutSub;
      hide AddKey;
      hide NewRefs;
      if !ValidTopic(topic) || |sel.service| > MAX_NAME_LENGTH { return false; }
      var selKey := SelectorKey(sel);
      ghost var id := SubId(sel.service, topic, fd, selKey);
      SubscriptionFacts(S(), id);
      var fdCount := CountOf(counts, fd);
      if fdCount >= MAX_SUBSCRIPTIONS_PER_CONNECTION { return false; }
      if total >= MAX_SUBSCRIPTIONS_GLOBAL { return false; }
      var k := EntryKey(sel.service, topic);
      var known := k in topics;
      if known { KnownTopicCounted(S(), sel.service, topic); }
      if !known && topic !in refs && |refs| >= MAX_TOPICS_GLOBAL { return false; }
      var e := EntryFor(topics, sel.service, topic);
      if fd in e.subscribers && selKey in e.subscribers[fd] { return false; }
      if fd !in e.subscribers && |e.subscribers| >= MAX_SUBSCRIBERS_PER_TOPIC { return false; }

      SubscribeKeepsWf(S(), id, sel);
      topics := PutSub(topics, sel.service, topic, fd, selKey, sel);
      refs := NewRefs(refs, known, topic);
      fdSubs := AddKey(fdSubs, fd, k);
      counts := counts[fd := fdCount + 1];
      total := total + 1;
      subs := subs[id := sel];
      ok := true;
      assert S() == Subscribe(old(S()), id, sel);
    }

    /** The inner loop of the three removals: the publishers of one entry. */
    static method EraseSlots(pubs: map<Str, Slot>, fd: Fd) returns (rest: map<Str, Slot>, any: bool)
      ensures rest == WithoutFd(pubs, fd)
      ensures any <==> rest != pubs
    {
      rest, any := pubs, false;
      var todo := pubs.Keys;
      while todo != {}
        invariant todo <= pubs.Keys
        invariant rest == map i | i in pubs && !(pubs[i].fd == fd && i !in todo) :: pubs[i]
        invariant any <==> exists i :: i in pubs && i !in rest
      {
        var i := Pick(todo);
        if pubs[i].fd == fd {
          rest, any := rest - {i}, true;
          assert i in pubs && i !in rest;
        }
        todo := todo - {i};
      }
      assert rest == WithoutFd(pubs, fd);
      assert rest != pubs ==> exists i :: i in pubs && i !in rest;
    }

    /** A connection's slots leave one entry; an emptied entry goes with its
        reference.  (The program erases emptied entries in a second pass in
        removePublishersByService; the outcome is the same.) */
    method DropPublisherAt(k: Str, fd: Fd) returns (any: bool)
      requires Valid() && k in topics
      modifies this`topics, this`refs, this`fdPubs, this`slots
      ensures Valid() && (old(ExactIndex()) ==> ExactIndex())
      ensures slots == SlotsWithout(old(slots), old(topics)[k].service, old(topics)[k].topic, fd)
      ensures topics.Keys <= old(topics).Keys
      ensures any <==> exists id :: id in old(slots) && id !in slots
    {
      hide Wf;
      hide EntryKey;
      hide PubIndexExact;
      var e := topics[k];
      var rest;
      rest, any := EraseSlots(e.publishers, fd);
      var e' := e.(publishers := rest);
      DropPublisherKeepsWf(S(), k, fd);
      AnyMeansChange(S(), k, fd);
      slots := SlotsWithout(slots, e.service, e.topic, fd);
      if any {
        fdPubs := DropKey(fdPubs, fd, k);
      }
      if Unused(e') {
        refs := Release(refs, e'.topic);
        topics := topics - {k};
      } else {
        topics := topics[k := e'];
      }
      assert S() == DropPublisher(old(S()), k, fd);
    }

    /** The common tail of the subscription removals: counters, index, entry. */
    method SettleSubscriber(k: Str, fd: Fd, e': TopicEntry, removed: nat, ghost gone: set<SubId>)
      requires Valid() && k in topics && Loses(S(), k, fd, e', gone) && removed == |gone|
      modifies this`topics, this`refs, this`fdSubs, this`counts, this`total, this`subs
      ensures Valid() && (old(ExactIndex()) ==> ExactIndex())
      ensures subs == old(subs) - gone && topics.Keys <= old(topics).Keys
    {
      hide Wf;
      hide Loses;
      hide EntryKey;
      hide PubIndexExact;
      hide Discount;
      hide DropKey;
      hide Settle;
      hide SettleRefs;
      hide SubsOf;
      hide Pubs;
      ghost var s := S();
      DropSubsKeepsWf(S(), k, fd, e', gone);
      SettleKeys(topics, k, e');
      var index := if fd !in e'.subscribers then DropKey(fdSubs, fd, k) else fdSubs;
      total, counts, fdSubs, refs, topics, subs :=
        total - removed, Discount(counts, fd, removed), index, SettleRefs(refs, e'), Settle(topics, k, e'), subs - gone;
      assert S() == DropSubs(s, k, fd, e', gone);
    }

    /** removeSubscriber with a selector: one subscription, if it is there. */
    method RemoveSubscriber(topic: Str, sel: Selector, fd: Fd) returns (ok: bool)
      requires Valid()
      modifies this
      ensures Valid() && slots == old(slots) && (old(ExactIndex()) ==> ExactIndex())
      ensures ok <==> SubId(sel.service, topic, fd, SelectorKey(sel)) in old(subs)
      ensures subs == old(subs) - {SubId(sel.service, topic, fd, SelectorKey(sel))}
    {
      hide Wf;
      hide Loses;
      hide EntryKey;
      hide SelectorKey;
      hide PubIndexExact;
      ghost var id := SubId(sel.service, topic, fd, SelectorKey(sel));
      SubscriptionFacts(S(), id);
      if id in subs { SubscribedTopicValid(S(), id); }
      if !ValidTopic(topic) { assert subs == subs - {id}; return false; }
      var k := EntryKey(sel.service, topic);
      if k !in topics || fd !in topics[k].subscribers || SelectorKey(sel) !in topics[k].subscribers[fd] {
        assert subs == subs - {id};
        return false;
      }
      LosesOne(S(), k, id);
      SettleSubscriber(k, fd, EntryWithoutSelector(topics[k], fd, SelectorKey(sel)), 1, {id});
      ok := true;
    }

    /** A connection's subscriptions leave one entry. */
    method DropSubscriberAt(k: Str, fd: Fd)
      requires Valid() && k in topics
      modifies this`topics, this`refs, this`fdSubs, this`counts, this`total, this`subs
      ensures Valid() && (old(ExactIndex()) ==> ExactIndex())
      ensures subs == SubsWithout(old(subs), old(topics)[k].service, old(topics)[k].topic, fd)
      ensures topics.Keys <= old(topics).Keys
    {
      hide Wf;
      hide Loses;
      hide PubIndexExact;
      var e := topics[k];
      ghost var gone := AllOf(subs, e.service, e.topic, fd);
      LosesAll(S(), k, fd);
      assert subs - gone == SubsWithout(subs, e.service, e.topic, fd);
      if fd in e.subscribers {
        SettleSubscriber(k, fd, EntryWithoutSubscriber(e, fd), |e.subscribers[fd]|, gone);
      }
    }

    /** removePublisher(topic, fd), through removePublisherSlots. */
    method RemovePublisher(topic: Str, fd: Fd) returns (ok: bool)
      requires Valid()
      modifies this
      ensures Valid() && subs == old(subs) && (old(ExactIndex()) ==> ExactIndex())
      ensures slots == SlotsOfOthers(old(slots), topic, fd)
      ensures ok <==> exists id :: id in old(slots) && id !in slots
    {
      hide Wf;
      hide EntryKey;
      hide PubIndexExact;
      if !ValidTopic(topic) {
        PublishedTopicsValid(S());
        assert slots == SlotsOfOthers(slots, topic, fd);
        return false;
      }
      ghost var before := slots;
      ghost var hit := set id | id in before && id.topic == topic && before[id].fd == fd;
      var keys := topics.Keys;
      var todo := keys;
      ok := false;
      SlotKeysKnown(S());
      KeptAll(before, hit, keys);
      hide Kept;
      while todo != {}
        invariant todo <= keys && topics.Keys <= keys
        invariant Valid() && subs == old(subs) && (old(ExactIndex()) ==> ExactIndex())
        invariant slots == Kept(before, hit, todo) && slots.Keys <= before.Keys
        invariant ok <==> exists id :: id in before && id !in slots
      {
        var k := Pick(todo);
        if k in topics && topics[k].topic == topic {
          KeptDrop(S(), before, hit, todo, k, fd);
          var any := DropPublisherAt(k, fd);
          ok := ok || any;
        } else {
          KeptSkip(S(), before, hit, todo, k);
        }
        todo := todo - {k};
      }
      KeptNone(before, hit);
      assert slots == SlotsOfOthers(before, topic, fd);
    }

    /** removePublishersByService: a service's publications on one connection. */
    method RemovePublishersByService(service: Str, fd: Fd)
      requires Valid()
      modifies this
      ensures Valid() && subs == old(subs) && (old(ExactIndex()) ==> ExactIndex())
      ensures slots == SlotsOfOtherServices(old(slots), service, fd)
    {
      hide Wf;
      hide EntryKey;
      hide PubIndexExact;
      ghost var before := slots;
      ghost var hit := set id | id in before && id.service == service && before[id].fd == fd;
      var keys := topics.Keys;
      var todo := keys;
      SlotKeysKnown(S());
      KeptAll(before, hit, keys);
      hide Kept;
      while todo != {}
        invariant todo <= keys && topics.Keys <= keys
        invariant Valid() && subs == old(subs) && (old(ExactIndex()) ==> ExactIndex())
        invariant slots == Kept(before, hit, todo)
      {
        var k := Pick(todo);
        if k in topics && topics[k].service == service {
          KeptDrop(S(), before, hit, todo, k, fd);
          var _ := DropPublisherAt(k, fd);
        } else {
          KeptSkip(S(), before, hit, todo, k);
        }
        todo := todo - {k};
      }
      KeptNone(before, hit);
      assert slots == SlotsOfOtherServices(before, service, fd);
    }

    /** removeByFd: everything of one connection, found through the two indexes. */
    method RemoveByFd(fd: Fd)
      requires Valid()
      modifies this
      ensures Valid() && (old(ExactIndex()) ==> ExactIndex())
      ensures slots == SlotsOutside(old(slots), {fd})
      ensures subs == SubsOutside(old(subs), {fd})
      ensures fd !in fdPubs && fd !in fdSubs
    {
      hide Wf;
      hide PubIndexExact;
      RemovePublicationsOf(fd);
      RemoveSubscriptionsOf(fd);
      NoRowLeft(S(), fd);
    }

    method RemovePublicationsOf(fd: Fd)
      requires Valid()
      modifies this
      ensures Valid() && subs == old(subs) && (old(ExactIndex()) ==> ExactIndex())
      ensures slots == SlotsOutside(old(slots), {fd}) && fd !in fdPubs
    {
      hide Wf;
      hide EntryKey;
      hide PubIndexExact;
      ghost var before := slots;
      ghost var hit := set id | id in before && before[id].fd == fd;
      var keys := KeysOf(fdPubs, fd);
      var todo := keys;
      PublicationsIndexed(S(), fd);
      KeptAll(before, hit, keys);
      hide Kept;
      while todo != {}
        invariant todo <= keys
        invariant Valid() && subs == old(subs) && (old(ExactIndex()) ==> ExactIndex())
        invariant slots == Kept(before, hit, todo)
      {
        var k := Pick(todo);
        if k in topics {
          KeptDrop(S(), before, hit, todo, k, fd);
          var _ := DropPublisherAt(k, fd);
        } else {
          KeptSkip(S(), before, hit, todo, k);
        }
        todo := todo - {k};
      }
      KeptNone(before, hit);
      assert slots == SlotsOutside(before, {fd});
      RowDropped(S(), fd);
      fdPubs := fdPubs - {fd};
    }

    method RemoveSubscriptionsOf(fd: Fd)
      requires Valid()
      modifies this
      ensures Valid() && slots == old(slots) && (old(ExactIndex()) ==> ExactIndex())
      ensures subs == SubsOutside(old(subs), {fd}) && fdPubs == old(fdPubs)
    {
      hide Wf;
      hide EntryKey;
      hide PubIndexExact;
      ghost var before := subs;
      var keys := KeysOf(fdSubs, fd);
      var todo := keys;
      PublicationsIndexed(S(), fd);
      while todo != {}
        invariant todo <= keys
        invariant Valid() && slots == old(slots) && (old(ExactIndex()) ==> ExactIndex()) && fdPubs == old(fdPubs)
        invariant subs == map id | id in before && !(id.fd == fd
                             && EntryKey(id.service, id.topic) !in todo) :: before[id]
      {
        var k := Pick(todo);
        if k in topics {
          EntryKeyKnown(S(), k);
          DropSubscriberAt(k, fd);
        } else {
          GoneKeyHasNoSlots(S(), k);
        }
        todo := todo - {k};
      }
      assert subs == SubsOutside(before, {fd});
    }

    /** getMatchingSubscribers: the connections with a selector that wants this
        publisher, each once. */
    method GetMatchingSubscribers(topic: Str, info: ServiceInfo) returns (fds: seq<Fd>)
      requires Valid()
      ensures NoDup(fds)
      ensures forall fd :: fd in fds <==> Wants(subs, fd, topic, info.name, info.inst)
    {
      hide Wf;
      hide EntryKey;
      WfTable(S());
      fds := [];
      var todo := topics.Keys;
      while todo != {}
        invariant todo <= topics.Keys && NoDup(fds)
        invariant forall fd :: fd in fds <==> WantsIn(topics, topics.Keys - todo, fd, topic, info)
      {
        var k := Pick(todo);
        ghost var done := topics.Keys - todo;
        todo := todo - {k};
        assert topics.Keys - todo == done + {k};
        if topics[k].topic == topic {
          fds := AddWanting(topics[k].subscribers, info, fds);
        }
      }
      assert topics.Keys - todo == topics.Keys;
      forall fd
        ensures fd in fds <==> Wants(subs, fd, topic, info.name, info.inst)
      {
        WantsBothWays(S(), fd, topic, info);
      }
    }

    /** The two inner loops over one entry's subscribers and selectors. */
    static method AddWanting(subscribers: map<Fd, map<Str, Selector>>, info: ServiceInfo, fds0: seq<Fd>)
      returns (fds: seq<Fd>)
      requires NoDup(fds0)
      ensures NoDup(fds)
      ensures forall fd :: fd in fds <==> fd in fds0 || (fd in subscribers && AnyMatches(subscribers[fd], info))
    {
      hide AnyMatches;
      fds := fds0;
      var todo := subscribers.Keys;
      while todo != {}
        invariant todo <= subscribers.Keys
        invariant NoDup(fds)
        invariant forall fd :: fd in fds ==> fd in fds0 || (fd in subscribers && AnyMatches(subscribers[fd], info))
        invariant forall fd :: fd in fds0 ==> fd in fds
        invariant forall fd :: fd in subscribers && fd !in todo && AnyMatches(subscribers[fd], info) ==> fd in fds
      {
        var fd := Pick(todo);
        if AnyMatches(subscribers[fd], info) && fd !in fds {
          fds := fds + [fd];
        }
        todo := todo - {fd};
      }
    }

    /** getMatchingPublishers: every live publisher of the topic the selector wants. */
    method GetMatchingPublishers(topic: Str, sel: Selector) returns (views: seq<PublisherView>, ghost ids: seq<SlotId>)
      requires Valid()
      ensures ListsOnce(slots, topic, sel, views, ids)
      ensures forall id :: id in ids <==> WantedSlot(slots, id, topic, sel)
    {
      hide Wf;
      hide EntryKey;
      hide WantedSlot;
      views, ids := [], [];
      var todo := topics.Keys;
      SlotKeysKnown(S());
      forall id | WantedSlot(slots, id, topic, sel)
        ensures EntryKey(id.service, id.topic) in topics.Keys
      {
        WantedListed(S(), id, topic, sel);
      }
      while todo != {}
        invariant todo <= topics.Keys && ListsOnce(slots, topic, sel, views, ids)
        invariant forall id :: id in ids <==>
                  WantedSlot(slots, id, topic, sel) && EntryKey(id.service, id.topic) !in todo
      {
        var k := Pick(todo);
        var more, moreIds := ViewsOf(topics[k], topic, sel, S(), k);
        ListsBoth(slots, topic, sel, views, ids, more, moreIds);
        views, ids := views + more, ids + moreIds;
        todo := todo - {k};
      }
    }

    /** The inner loop over one entry's publishers. */
    static method ViewsOf(e: TopicEntry, topic: Str, sel: Selector, ghost s: State, ghost k: Str)
      returns (views: seq<PublisherView>, ghost ids: seq<SlotId>)
      requires Wf(s) && k in s.topics && e == s.topics[k]
      ensures ListsOnce(s.slots, topic, sel, views, ids)
      ensures forall id :: id in ids <==> WantedSlot(s.slots, id, topic, sel) && EntryKey(id.service, id.topic) == k
    {
      hide Wf;
      hide EntryKey;
      EntryKeyKnown(s, k);
      EntrySlots(s, k);
      views, ids := [], [];
      if e.topic != topic || (!sel.mode.TopicOnly? && e.service != sel.service) { return; }
      var todo := e.publishers.Keys;
      while todo != {}
        invariant todo <= e.publishers.Keys && ListsOnce(s.slots, topic, sel, views, ids)
        invariant forall id :: id in ids <==>
                    && id == SlotId(e.service, e.topic, id.inst) && id.inst in e.publishers && id.inst !in todo
                    && Asks(sel, e.service, id.inst)
      {
        var i := Pick(todo);
        var slot := e.publishers[i];
        if !(sel.mode.ByInstance? && !SelectorMatches(sel, slot.info.name, slot.info.inst)) {
          ghost var id := SlotId(e.service, e.topic, i);
          assert WantedSlot(s.slots, id, topic, sel);
          ListsBoth(s.slots, topic, sel, views, ids, [ViewOf(slot)], [id]);
          views, ids := views + [ViewOf(slot)], ids + [id];
        }
        todo := todo - {i};
      }
    }
  }

  /** The views are those of the slots named, which the selector wants and none
      of which is named twice. */
  ghost predicate ListsOnce(slots: Slots, topic: Str, sel: Selector, views: seq<PublisherView>, ids: seq<SlotId>) {
    && |views| == |ids|
    && (forall i :: 0 <= i < |ids| ==> WantedSlot(slots, ids[i], topic, sel) && views[i] == ViewOf(slots[ids[i]]))
    && (forall i, j :: 0 <= i < j < |ids| ==> ids[i] != ids[j])
  }

  lemma ListsBoth(slots: Slots, topic: Str, sel: Selector, views: seq<PublisherView>, ids: seq<SlotId>,
                  more: seq<PublisherView>, moreIds: seq<SlotId>)
    requires ListsOnce(slots, topic, sel, views, ids) && ListsOnce(slots, topic, sel, more, moreIds)
    requires forall id :: id in ids ==> id !in moreIds
    ensures ListsOnce(slots, topic, sel, views + more, ids + moreIds)
  {
    hide WantedSlot;
    forall i, j | 0 <= i < j < |ids + moreIds|
      ensures (ids + moreIds)[i] != (ids + moreIds)[j]
    {
      if i < |ids| <= j { assert ids[i] in ids && moreIds[j - |ids|] in moreIds; }
    }
  }

  /** Every wanted slot has its view listed, and every view listed is one. */
  lemma ViewsListed(slots: Slots, topic: Str, sel: Selector, views: seq<PublisherView>, ids: seq<SlotId>)
    requires ListsOnce(slots, topic, sel, views, ids) && forall id :: id in ids <==> WantedSlot(slots, id, topic, sel)
    ensures forall id :: WantedSlot(slots, id, topic, sel) ==> ViewOf(slots[id]) in views
    ensures forall v :: v in views ==> exists id :: WantedSlot(slots, id, topic, sel) && v == ViewOf(slots[id])
  {
    forall id | WantedSlot(slots, id, topic, sel)
      ensures ViewOf(slots[id]) in views
    {
      var i :| 0 <= i < |ids| && ids[i] == id;
      assert views[i] in views;
    }
  }

  lemma WantedListed(s: State, id: SlotId, topic: Str, sel: Selector)
    requires WantedSlot(s.slots, id, topic, sel)
    requires forall x :: x in s.slots ==> EntryKey(x.service, x.topic) in s.topics
    ensures EntryKey(id.service, id.topic) in s.topics
  {
    hide EntryKey;
  }

  predicate AnyMatches(mine: map<Str, Selector>, info: ServiceInfo) {
    exists x :: x in mine && SelectorMatches(mine[x], info.name, info.inst)
  }

  /** Some entry of the topic, among `keys`, has a wanting selector of `fd`. */
  ghost predicate WantsIn(topics: Topics, keys: set<Str>, fd: Fd, topic: Str, info: ServiceInfo) {
    exists k :: k in keys && k in topics && topics[k].topic == topic
      && fd in topics[k].subscribers && AnyMatches(topics[k].subscribers[fd], info)
  }

  lemma WantsBothWays(s: State, fd: Fd, topic: Str, info: ServiceInfo)
    requires Wf(s)
    ensures WantsIn(s.topics, s.topics.Keys, fd, topic, info) <==> Wants(s.subs, fd, topic, info.name, info.inst)
  {
    hide Wf;
    hide EntryKey;
    if WantsIn(s.topics, s.topics.Keys, fd, topic, info) {
      var k :| k in s.topics && s.topics[k].topic == topic
            && fd in s.topics[k].subscribers && AnyMatches(s.topics[k].subscribers[fd], info);
      var e := s.topics[k];
      var x :| x in e.subscribers[fd] && SelectorMatches(e.subscribers[fd][x], info.name, info.inst);
      EntrySubs(s, k, fd);
      var id := SubId(e.service, e.topic, fd, x);
      SubValue(s, id);
      EntryKeyKnown(s, k);
      assert id in s.subs;
    }
    if Wants(s.subs, fd, topic, info.name, info.inst) {
      var id: SubId :| id in s.subs && id.fd == fd && id.topic == topic
          && Asks(s.subs[id], info.name, info.inst);
      SubValue(s, id);
      var k := EntryKey(id.service, id.topic);
      EntryKeyKnown(s, k);
      assert AnyMatches(s.topics[k].subscribers[fd], info);
    }
  }

  lemma SubValue(s: State, id: SubId)
    requires Wf(s) && id in s.subs
    ensures var k := EntryKey(id.service, id.topic);
            && k in s.topics && id.fd in s.topics[k].subscribers
            && id.key in s.topics[k].subscribers[id.fd]
            && s.subs[id] == s.topics[k].subscribers[id.fd][id.key]
  {
    hide EntryKey;
    WfTable(s);
    assert id.key in SubsOf(s.topics, EntryKey(id.service, id.topic), id.fd);
  }

  /** The publishers of one entry, in both representations. */
  lemma EntrySlots(s: State, k: Str)
    requires Wf(s) && k in s.topics
    ensures forall i :: SlotId(s.topics[k].service, s.topics[k].topic, i) in s.slots <==> i in s.topics[k].publishers
    ensures forall i :: i in s.topics[k].publishers ==>
              && s.slots[SlotId(s.topics[k].service, s.topics[k].topic, i)] == s.topics[k].publishers[i]
              && s.topics[k].publishers[i].info.name == s.topics[k].service
              && s.topics[k].publishers[i].info.inst == i
  {
    hide EntryKey;
    WfTable(s);
    hide Wf;
    hide SubsHold;
    var e := s.topics[k];
    forall i
      ensures SlotId(e.service, e.topic, i) in s.slots <==> i in e.publishers
      ensures i in e.publishers ==> s.slots[SlotId(e.service, e.topic, i)] == e.publishers[i]
    {
      var id := SlotId(e.service, e.topic, i);
      assert id in s.slots <==> id.inst in Pubs(s.topics, EntryKey(id.service, id.topic));
    }
  }

  lemma PublicationsIndexed(s: State, fd: Fd)
    requires Wf(s)
    ensures forall id :: id in s.slots && s.slots[id].fd == fd ==>
            EntryKey(id.service, id.topic) in KeysOf(s.fdPubs, fd)
    ensures forall id :: id in s.subs && id.fd == fd ==> EntryKey(id.service, id.topic) in KeysOf(s.fdSubs, fd)
  {
    hide EntryKey;
    assert PubKeys(s.slots, fd) <= KeysOf(s.fdPubs, fd) && SubKeys(s.subs, fd) == KeysOf(s.fdSubs, fd);
    forall id | id in s.slots && s.slots[id].fd == fd
      ensures EntryKey(id.service, id.topic) in KeysOf(s.fdPubs, fd)
    {
      assert EntryKey(id.service, id.topic) in PubKeys(s.slots, fd);
    }
    forall id | id in s.subs && id.fd == fd
      ensures EntryKey(id.service, id.topic) in KeysOf(s.fdSubs, fd)
    {
      assert EntryKey(id.service, id.topic) in SubKeys(s.subs, fd);
    }
  }

  /** A connection without slots needs no row in the publication index. */
  lemma RowDropped(s: State, fd: Fd)
    requires Wf(s) && forall id :: id in s.slots ==> s.slots[id].fd != fd
    ensures Wf(s.(fdPubs := s.fdPubs - {fd}))
    ensures Exact(s) ==> Exact(s.(fdPubs := s.fdPubs - {fd}))
  {
    hide EntryKey;
    hide SlotsHold;
    hide SubsHold;
    hide EntriesSound;
    hide RefsExact;
    hide CountsExact;
    hide SubIndexExact;
    hide NamesSound;
    hide SubQuota;
    hide EntryQuota;
    hide ServiceQuota;
    hide PubQuota;
    hide PubIndexCovers;
    hide PubIndexExact;
    RowDroppedIndex(s.fdPubs, s.slots, fd);
  }

  lemma RowDroppedIndex(fdPubs: KeyIndex, slots: Slots, fd: Fd)
    requires PubIndexCovers(fdPubs, slots) && PubQuota(fdPubs)
    requires forall id :: id in slots ==> slots[id].fd != fd
    ensures PubIndexCovers(fdPubs - {fd}, slots) && PubQuota(fdPubs - {fd})
    ensures PubIndexExact(fdPubs, slots) ==> PubIndexExact(fdPubs - {fd}, slots)
  {
    hide EntryKey;
    forall f
      ensures KeysOf(fdPubs - {fd}, f) == if f == fd then {} else KeysOf(fdPubs, f)
    {
    }
    assert PubKeys(slots, fd) == {};
  }

  /** `topics[k]` is the only entry whose key is `k`. */
  lemma EntryKeyKnown(s: State, k: Str)
    requires Wf(s) && k in s.topics
    ensures k == EntryKey(s.topics[k].service, s.topics[k].topic)
    ensures forall service, topic :: EntryKey(service, topic) == k ==>
              service == s.topics[k].service && topic == s.topics[k].topic
  {
    hide EntryKey;
    KeyInjective(s.topics[k].service, s.topics[k].topic);
  }

  /** The slots left while the entries in `todo` still hold theirs of `hit`. */
  ghost function Kept(before: Slots, hit: set<SlotId>, todo: set<Str>): Slots {
    map id | id in before && !(id in hit && EntryKey(id.service, id.topic) !in todo) :: before[id]
  }

  lemma KeptAll(before: Slots, hit: set<SlotId>, keys: set<Str>)
    requires forall id :: id in before && id in hit ==> EntryKey(id.service, id.topic) in keys
    ensures Kept(before, hit, keys) == before
  {
    hide EntryKey;
  }

  lemma KeptNone(before: Slots, hit: set<SlotId>)
    ensures Kept(before, hit, {}) == map id | id in before && id !in hit :: before[id]
  {
    hide EntryKey;
  }

  lemma KeptDrop(s: State, before: Slots, hit: set<SlotId>, todo: set<Str>, k: Str, fd: Fd)
    requires Wf(s) && k in s.topics && s.slots == Kept(before, hit, todo)
    requires forall id :: id in before && id.service == s.topics[k].service && id.topic == s.topics[k].topic ==>
               (id in hit <==> before[id].fd == fd)
    ensures SlotsWithout(s.slots, s.topics[k].service, s.topics[k].topic, fd) == Kept(before, hit, todo - {k})
  {
    hide Wf;
    hide EntryKey;
    EntryKeyKnown(s, k);
  }

  lemma KeptSkip(s: State, before: Slots, hit: set<SlotId>, todo: set<Str>, k: Str)
    requires Wf(s) && s.slots == Kept(before, hit, todo)
    requires k in s.topics ==> forall id :: id in hit && id in before ==>
               !(id.service == s.topics[k].service && id.topic == s.topics[k].topic)
    ensures s.slots == Kept(before, hit, todo - {k})
  {
    hide Wf;
    hide EntryKey;
    if k in s.topics {
      EntryKeyKnown(s, k);
    } else {
      GoneKeyHasNoSlots(s, k);
    }
  }

  lemma GoneKeyHasNoSlots(s: State, k: Str)
    requires Wf(s) && k !in s.topics
    ensures forall id :: id in s.slots ==> EntryKey(id.service, id.topic) != k
    ensures forall id :: id in s.subs ==> EntryKey(id.service, id.topic) != k
  {
    hide EntryKey;
  }

  /** A connection without subscriptions has no row. */
  lemma NoRowLeft(s: State, fd: Fd)
    requires Wf(s) && forall id :: id in s.subs ==> id.fd != fd
    ensures fd !in s.fdSubs
  {
    assert SubIndexExact(s.fdSubs, s.subs) && SubKeys(s.subs, fd) == {};
    assert KeysOf(s.fdSubs, fd) == {};
  }

  /** A slot's description names the instance it is filed under. */
  lemma SlotsNamed(s: State)
    requires Wf(s)
    ensures forall id :: id in s.slots ==> s.slots[id].info.name == id.service && s.slots[id].info.inst == id.inst
  {
    hide EntryKey;
    forall id | id in s.slots
      ensures s.slots[id].info.name == id.service && s.slots[id].info.inst == id.inst
    {
      SlotKeysKnown(s);
      var k := EntryKey(id.service, id.topic);
      EntryKeyKnown(s, k);
      EntrySlots(s, k);
      hide Wf;
      assert id == SlotId(s.topics[k].service, s.topics[k].topic, id.inst);
    }
  }

  lemma SlotKeysKnown(s: State)
    requires Wf(s)
    ensures forall id :: id in s.slots ==> EntryKey(id.service, id.topic) in s.topics
    ensures forall id :: id in s.subs ==> EntryKey(id.service, id.topic) in s.topics
  {
    hide EntryKey;
  }

  lemma PublishedTopicsValid(s: State)
    requires Wf(s)
    ensures forall id :: id in s.slots ==> ValidTopic(id.topic)
  {
    hide EntryKey;
  }

  lemma SubscribedTopicValid(s: State, id: SubId)
    requires Wf(s) && id in s.subs
    ensures ValidTopic(id.topic)
  {
    hide EntryKey;
  }

  lemma AnyMeansChange(s: State, k: Str, fd: Fd)
    requires Wf(s) && k in s.topics
    ensures WithoutFd(s.topics[k].publishers, fd) != s.topics[k].publishers
       <==> exists id :: id in s.slots && id !in SlotsWithout(s.slots, s.topics[k].service, s.topics[k].topic, fd)
  {
    hide Wf;
    hide EntryKey;
    WfTable(s);
    AnySlotDropped(s.topics, s.slots, k, fd);
  }

  ghost function AllOf(subs: Subs, service: Str, topic: Str, fd: Fd): set<SubId> {
    set id | id in subs && id.service == service && id.topic == topic && id.fd == fd
  }

  /** The subscriptions of one connection in one entry, in both representations. */
  lemma EntrySubs(s: State, k: Str, fd: Fd)
    requires Wf(s) && k in s.topics
    ensures forall x :: SubId(s.topics[k].service, s.topics[k].topic, fd, x) in s.subs
                   <==> fd in s.topics[k].subscribers && x in s.topics[k].subscribers[fd]
  {
    hide EntryKey;
    WfTable(s);
    hide Wf;
    hide SlotsHold;
    hide NamesSound;
    var e := s.topics[k];
    forall x
      ensures SubId(e.service, e.topic, fd, x) in s.subs <==> fd in e.subscribers && x in e.subscribers[fd]
    {
      var id := SubId(e.service, e.topic, fd, x);
      assert id in s.subs <==> id.key in SubsOf(s.topics, EntryKey(id.service, id.topic), id.fd);
    }
  }

  /** Dropping a subscriber from an entry loses exactly its subscriptions there. */
  lemma LosesAll(s: State, k: Str, fd: Fd)
    requires Wf(s) && k in s.topics
    ensures var e := s.topics[k];
            var gone := AllOf(s.subs, e.service, e.topic, fd);
            if fd in e.subscribers then
              Loses(s, k, fd, EntryWithoutSubscriber(e, fd), gone) && |gone| == |e.subscribers[fd]|
            else gone == {}
  {
    hide Wf;
    EntrySubs(s, k, fd);
    var e := s.topics[k];
    var gone := AllOf(s.subs, e.service, e.topic, fd);
    assert forall id :: id in gone ==> id == SubId(e.service, e.topic, fd, id.key);
    if fd in e.subscribers {
      var keys := e.subscribers[fd].Keys;
      assert gone == set x | x in keys :: SubId(e.service, e.topic, fd, x);
      SubIdCount(keys, e.service, e.topic, fd);
    }
  }

  /** Dropping one selector loses exactly its subscription. */
  lemma LosesOne(s: State, k: Str, id: SubId)
    requires Wf(s) && k == EntryKey(id.service, id.topic) && id in s.subs
    ensures k in s.topics && id.fd in s.topics[k].subscribers
    ensures Loses(s, k, id.fd, EntryWithoutSelector(s.topics[k], id.fd, id.key), {id})
  {
    hide Wf;
    hide EntryKey;
    SlotKeysKnown(s);
    EntryKeyKnown(s, k);
    EntrySubs(s, k, id.fd);
    var e := s.topics[k];
    assert id == SubId(e.service, e.topic, id.fd, id.key);
    var mine := e.subscribers[id.fd] - {id.key};
    assert forall x :: x in mine <==> x in e.subscribers[id.fd] && x != id.key;
    assert mine == map[] ==> forall x :: x in e.subscribers[id.fd] ==> x == id.key;
  }

  /** What the counters and the table tell about one prospective subscription. */
  lemma SubscriptionFacts(s: State, id: SubId)
    requires Wf(s)
    ensures CountOf(s.counts, id.fd) == |SubsOfFd(s.subs, id.fd)| && s.total == |s.subs|
    ensures var e := EntryFor(s.topics, id.service, id.topic);
            id in s.subs <==> id.fd in e.subscribers && id.key in e.subscribers[id.fd]
  {
    hide EntryKey;
    hide SlotsHold;
    hide Quotas;
    hide NamesSound;
    hide RefsExact;
    assert id in s.subs <==> id.key in SubsOf(s.topics, EntryKey(id.service, id.topic), id.fd);
  }

  lemma EmptyLimits()
    ensures Quotas(map[], map[], map[], map[], map[])
  {
    forall service
      ensures ServiceWithinLimits(map[], service)
    {
      assert Published(map[], service) == {};
    }
    forall fd
      ensures SubsOfFd(map[], fd) == {}
    {
    }
  }

  lemma EmptyIndexes()
    ensures RefsExact(map[], map[]) && CountsExact(map[], map[])
    ensures SubIndexExact(map[], map[]) && PubIndexCovers(map[], map[]) && PubIndexExact(map[], map[])
  {
    forall name
      ensures EntriesNamed(map[], name) == {}
    {
    }
    forall fd
      ensures SubKeys(map[], fd) == {} && PubKeys(map[], fd) == {} && SubsOfFd(map[], fd) == {}
    {
    }
  }

  lemma EmptyIsWf()
    ensures Wf(EMPTY) && Exact(EMPTY)
  {
    hide EntryKey;
    hide Quotas;
    hide RefsExact;
    hide CountsExact;
    hide SubIndexExact;
    hide PubIndexCovers;
    hide PubIndexExact;
    EmptyLimits();
    EmptyIndexes();
  }

  lemma WfTable(s: State)
    requires Wf(s)
    ensures SlotsHold(s.topics, s.slots) && SubsHold(s.topics, s.subs)
    ensures EntriesSound(s.topics) && NamesSound(s.slots, s.subs)
  {
  }

  /** An entry in the table holds a reference on its topic name. */
  lemma KnownTopicCounted(s: State, service: Str, topic: Str)
    requires Wf(s) && EntryKey(service, topic) in s.topics
    ensures topic in s.refs
  {
    hide EntryKey;
    hide SlotsHold;
    hide SubsHold;
    hide Quotas;
    hide NamesSound;
    var k := EntryKey(service, topic);
    KeyInjective(service, topic);
    assert k in EntriesNamed(s.topics, topic);
  }
}

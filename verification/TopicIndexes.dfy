/** How the indexes, counters and limits of the topic manager follow each kind
    of change of the relations they are derived from.
  */
module TopicIndexes {
  import opened Base
  import opened TopicKeys
  import opened TopicTables

  // ---- Subscription index ----------------------------------------------------------

  lemma SubIndexAdded(index: KeyIndex, subs: Subs, id: SubId, sel: Selector)
    requires SubIndexExact(index, subs)
    ensures SubIndexExact(AddKey(index, id.fd, EntryKey(id.service, id.topic)), subs[id := sel])
  {
    hide EntryKey;
    var k := EntryKey(id.service, id.topic);
    var index', subs' := AddKey(index, id.fd, k), subs[id := sel];
    forall fd
      ensures KeysOf(index', fd) == SubKeys(subs', fd)
    {
      if fd == id.fd {
        assert id in subs' && id.fd == fd;
        assert SubKeys(subs', fd) == SubKeys(subs, fd) + {k};
      } else {
        assert SubKeys(subs', fd) == SubKeys(subs, fd);
      }
    }
  }

  /** A subset of the subscriptions that lost some of `fd` in entry (service, topic) only. */
  ghost predicate LostSubs(subs: Subs, subs': Subs, service: Str, topic: Str, fd: Fd) {
    && (forall id :: id in subs' ==> id in subs && subs'[id] == subs[id])
    && (forall id: SubId :: id in subs && id !in subs' ==> id.service == service && id.topic == topic && id.fd == fd)
  }

  ghost predicate Subscribes(subs: Subs, service: Str, topic: Str, fd: Fd) {
    exists id: SubId :: id in subs && id.service == service && id.topic == topic && id.fd == fd
  }

  lemma SubIndexDropped(index: KeyIndex, subs: Subs, subs': Subs, service: Str, topic: Str, fd: Fd)
    requires SubIndexExact(index, subs) && LostSubs(subs, subs', service, topic, fd)
    ensures SubIndexExact(if Subscribes(subs', service, topic, fd) then index
                          else DropKey(index, fd, EntryKey(service, topic)), subs')
  {
    hide EntryKey;
    var k := EntryKey(service, topic);
    var index' := if Subscribes(subs', service, topic, fd) then index else DropKey(index, fd, k);
    KeyInjective(service, topic);
    forall f
      ensures KeysOf(index', f) == SubKeys(subs', f)
    {
      if f != fd {
        assert SubKeys(subs', f) == SubKeys(subs, f);
      } else if Subscribes(subs', service, topic, fd) {
        assert SubKeys(subs', f) == SubKeys(subs, f);
      } else {
        assert SubKeys(subs', f) == SubKeys(subs, f) - {k};
      }
    }
  }

  // ---- Publication index -----------------------------------------------------------

  lemma PubIndexAdded(index: KeyIndex, slots: Slots, id: SlotId, slot: Slot)
    requires PubIndexCovers(index, slots)
    ensures PubIndexCovers(AddKey(index, slot.fd, EntryKey(id.service, id.topic)), slots[id := slot])
  {
    hide EntryKey;
    var k := EntryKey(id.service, id.topic);
    var index', slots' := AddKey(index, slot.fd, k), slots[id := slot];
    forall fd
      ensures PubKeys(slots', fd) <= KeysOf(index', fd)
    {
      assert PubKeys(slots', fd) <= PubKeys(slots, fd) + {k};
      assert fd != slot.fd ==> PubKeys(slots', fd) <= PubKeys(slots, fd);
    }
  }

  /** Some other slot of `fd` in the same entry. */
  ghost predicate AlsoPublishes(slots: Slots, id: SlotId, fd: Fd) {
    exists other: SlotId :: other in slots && other != id
      && other.service == id.service && other.topic == id.topic && slots[other].fd == fd
  }

  /** Overwriting a slot is what can make the publication index inexact: it
      stays exact exactly when no other connection loses its last slot in the
      entry that way. */
  lemma PubIndexExactIff(index: KeyIndex, slots: Slots, id: SlotId, slot: Slot)
    requires PubIndexExact(index, slots)
    ensures PubIndexExact(AddKey(index, slot.fd, EntryKey(id.service, id.topic)), slots[id := slot])
       <==> (id in slots && slots[id].fd != slot.fd ==> AlsoPublishes(slots, id, slots[id].fd))
  {
    hide EntryKey;
    var k := EntryKey(id.service, id.topic);
    var index', slots' := AddKey(index, slot.fd, k), slots[id := slot];
    KeyInjective(id.service, id.topic);
    forall fd
      ensures fd == slot.fd ==> KeysOf(index', fd) == PubKeys(slots', fd)
      ensures fd != slot.fd && !(id in slots && slots[id].fd == fd) ==> KeysOf(index', fd) == PubKeys(slots', fd)
    {
      if fd == slot.fd {
        assert id in slots' && slots'[id].fd == fd;
        assert PubKeys(slots', fd) == PubKeys(slots, fd) + {k};
      } else if !(id in slots && slots[id].fd == fd) {
        assert PubKeys(slots', fd) == PubKeys(slots, fd);
      }
    }
    if id in slots && slots[id].fd != slot.fd {
      OverwrittenKey(index, slots, id, slot);
    }
  }

  lemma OverwrittenKey(index: KeyIndex, slots: Slots, id: SlotId, slot: Slot)
    requires PubIndexExact(index, slots) && id in slots && slots[id].fd != slot.fd
    ensures var fd := slots[id].fd;
            var index' := AddKey(index, slot.fd, EntryKey(id.service, id.topic));
            KeysOf(index', fd) == PubKeys(slots[id := slot], fd) <==> AlsoPublishes(slots, id, fd)
  {
    hide EntryKey;
    var k := EntryKey(id.service, id.topic);
    KeyInjective(id.service, id.topic);
    var fd := slots[id].fd;
    var slots' := slots[id := slot];
    assert k in PubKeys(slots, fd);
    if AlsoPublishes(slots, id, fd) {
      assert PubKeys(slots', fd) == PubKeys(slots, fd);
    } else {
      assert k !in PubKeys(slots', fd);
    }
  }

  ghost predicate Publishes(slots: Slots, service: Str, topic: Str, fd: Fd) {
    exists id: SlotId :: id in slots && id.service == service && id.topic == topic && slots[id].fd == fd
  }

  lemma PubIndexDropped(index: KeyIndex, slots: Slots, service: Str, topic: Str, fd: Fd)
    requires PubIndexCovers(index, slots)
    ensures var index' := if Publishes(slots, service, topic, fd)
                          then DropKey(index, fd, EntryKey(service, topic)) else index;
            var slots' := SlotsWithout(slots, service, topic, fd);
            && PubIndexCovers(index', slots')
            && (PubIndexExact(index, slots) ==> PubIndexExact(index', slots'))
  {
    hide EntryKey;
    var k := EntryKey(service, topic);
    KeyInjective(service, topic);
    var slots' := SlotsWithout(slots, service, topic, fd);
    if Publishes(slots, service, topic, fd) {
      forall f
        ensures PubKeys(slots', f) == if f == fd then PubKeys(slots, f) - {k} else PubKeys(slots, f)
      {
        if f == fd {
          assert PubKeys(slots', f) == PubKeys(slots, f) - {k};
        } else {
          assert PubKeys(slots', f) == PubKeys(slots, f);
        }
      }
    } else {
      assert slots' == slots;
    }
  }

  // ---- Counters --------------------------------------------------------------------

  lemma CountsAdded(counts: map<Fd, nat>, subs: Subs, id: SubId, sel: Selector)
    requires CountsExact(counts, subs) && id !in subs
    ensures CountsExact(counts[id.fd := CountOf(counts, id.fd) + 1], subs[id := sel])
    ensures |subs[id := sel]| == |subs| + 1
    ensures SubsOfFd(subs[id := sel], id.fd) == SubsOfFd(subs, id.fd) + {id}
    ensures forall fd :: fd != id.fd ==> SubsOfFd(subs[id := sel], fd) == SubsOfFd(subs, fd)
  {
    var subs' := subs[id := sel];
    assert SubsOfFd(subs', id.fd) == SubsOfFd(subs, id.fd) + {id};
    forall fd | fd != id.fd
      ensures SubsOfFd(subs', fd) == SubsOfFd(subs, fd)
    {
    }
  }

  lemma CountsDropped(counts: map<Fd, nat>, subs: Subs, gone: set<SubId>, fd: Fd)
    requires CountsExact(counts, subs)
    requires gone <= subs.Keys && forall id :: id in gone ==> id.fd == fd
    ensures CountsExact(Discount(counts, fd, |gone|), subs - gone)
    ensures |subs - gone| == |subs| - |gone|
  {
    var subs' := subs - gone;
    assert |subs'| == |subs| - |gone| by {
      assert subs'.Keys == subs.Keys - gone;
    }
    FdSubsDropped(subs, gone, fd);
    var counts' := Discount(counts, fd, |gone|);
    forall f
      ensures CountOf(counts', f) == |SubsOfFd(subs', f)|
    {
      if f != fd { assert CountOf(counts', f) == CountOf(counts, f); }
    }
  }

  lemma FdSubsDropped(subs: Subs, gone: set<SubId>, fd: Fd)
    requires gone <= subs.Keys && forall id :: id in gone ==> id.fd == fd
    ensures gone <= SubsOfFd(subs, fd) && |SubsOfFd(subs - gone, fd)| == |SubsOfFd(subs, fd)| - |gone|
    ensures forall f :: f != fd ==> SubsOfFd(subs - gone, f) == SubsOfFd(subs, f)
  {
    assert SubsOfFd(subs - gone, fd) == SubsOfFd(subs, fd) - gone;
    assert gone <= SubsOfFd(subs, fd);
    forall f | f != fd
      ensures SubsOfFd(subs - gone, f) == SubsOfFd(subs, f)
    {
    }
  }

  /** A connection's subscriptions in one entry, counted through their selector keys. */
  lemma {:induction false} SubIdCount(keys: set<Str>, service: Str, topic: Str, fd: Fd)
    ensures |set x | x in keys :: SubId(service, topic, fd, x)| == |keys|
  {
    if keys != {} {
      var y :| y in keys;
      SubIdCount(keys - {y}, service, topic, fd);
      assert (set x | x in keys :: SubId(service, topic, fd, x))
          == (set x | x in keys - {y} :: SubId(service, topic, fd, x)) + {SubId(service, topic, fd, y)};
    }
  }

  // ---- Limits ----------------------------------------------------------------------

  lemma SmallerSubset<T>(a: set<T>, b: set<T>)
    requires a <= b
    ensures |a| <= |b|
  {
    assert b == a + (b - a);
  }

  /** Removing slots never breaks a service's limits. */
  lemma LimitsShrink(slots: Slots, slots': Slots, service: Str)
    requires ServiceWithinLimits(slots, service) && slots'.Keys <= slots.Keys
    ensures ServiceWithinLimits(slots', service)
  {
    assert Published(slots', service) <= Published(slots, service);
    SmallerSubset(Published(slots', service), Published(slots, service));
    TotalLengthSubset(Published(slots', service), Published(slots, service));
  }

  /** Registering a slot adds at most its topic to its service's list. */
  lemma LimitsGrow(slots: Slots, id: SlotId, slot: Slot, service: Str)
    requires ServiceWithinLimits(slots, service)
    requires service == id.service ==>
               var others := Published(slots, service) - {id.topic};
               |others| + 1 <= MAX_PUBLISHED_TOPICS && TotalLength(others) + |id.topic| <= MAX_PUBLISHED_TOPICS_BYTES
    ensures ServiceWithinLimits(slots[id := slot], service)
  {
    var slots' := slots[id := slot];
    if service == id.service {
      var others := Published(slots, service) - {id.topic};
      assert id in slots';
      assert Published(slots', service) == others + {id.topic};
      TotalLengthRemove(others + {id.topic}, id.topic);
      assert others + {id.topic} - {id.topic} == others;
    } else {
      assert Published(slots', service) == Published(slots, service);
    }
  }

  /** The topics under which a scan of the table, skipping entry `except`, finds
      publishers of a service. */
  ghost function ScannedTopics(topics: Topics, keys: set<Str>, service: Str, except: Str): set<Str> {
    set k | k in keys && k in topics && k != except
            && topics[k].service == service && topics[k].publishers != map[] :: topics[k].topic
  }

  /** The scan sees exactly the service's other published topics. */
  lemma ScanSeesPublished(topics: Topics, slots: Slots, service: Str, topic: Str)
    requires SlotsHold(topics, slots) && EntriesSound(topics)
    ensures ScannedTopics(topics, topics.Keys, service, EntryKey(service, topic))
         == Published(slots, service) - {topic}
  {
    hide EntryKey;
    KeyInjective(service, topic);
    var scanned := ScannedTopics(topics, topics.Keys, service, EntryKey(service, topic));
    forall t | t in scanned
      ensures t in Published(slots, service) - {topic}
    {
      var k :| k in topics && k != EntryKey(service, topic)
            && topics[k].service == service && topics[k].publishers != map[] && topics[k].topic == t;
      var i :| i in topics[k].publishers;
      assert k == EntryKey(service, t);
      assert i in Pubs(topics, EntryKey(service, t));
      assert SlotId(service, t, i) in slots;
    }
    forall t | t in Published(slots, service) - {topic}
      ensures t in scanned
    {
      var id :| id in slots && id.service == service && id.topic == t;
      var k := EntryKey(id.service, id.topic);
      assert id.inst in Pubs(topics, k);
      KeyInjective(id.service, id.topic);
      assert k in topics && k == EntryKey(topics[k].service, topics[k].topic);
      assert topics[k].service == id.service && topics[k].topic == id.topic;
    }
  }

  lemma PubQuotaAdded(fdPubs: KeyIndex, fd: Fd, k: Str)
    requires PubQuota(fdPubs)
    requires k in KeysOf(fdPubs, fd) || |KeysOf(fdPubs, fd)| < MAX_PUBLICATIONS_PER_CONNECTION
    ensures PubQuota(AddKey(fdPubs, fd, k))
  {
    var fdPubs' := AddKey(fdPubs, fd, k);
    forall f
      ensures |KeysOf(fdPubs', f)| <= MAX_PUBLICATIONS_PER_CONNECTION
    {
      if f != fd {
        assert KeysOf(fdPubs', f) == KeysOf(fdPubs, f);
      } else if k in KeysOf(fdPubs, fd) {
        assert KeysOf(fdPubs', fd) == KeysOf(fdPubs, fd);
      } else {
        assert KeysOf(fdPubs', fd) == KeysOf(fdPubs, fd) + {k};
      }
    }
  }

  lemma ServiceQuotaAdded(slots: Slots, id: SlotId, slot: Slot)
    requires ServiceQuota(slots)
    requires var others := Published(slots, id.service) - {id.topic};
             |others| + 1 <= MAX_PUBLISHED_TOPICS && TotalLength(others) + |id.topic| <= MAX_PUBLISHED_TOPICS_BYTES
    ensures ServiceQuota(slots[id := slot])
  {
    hide ServiceWithinLimits;
    var slots' := slots[id := slot];
    forall service
      ensures ServiceWithinLimits(slots', service)
    {
      LimitsGrow(slots, id, slot, service);
    }
  }

  lemma EntryQuotaSlot(topics: Topics, service: Str, topic: Str, inst: Str, slot: Slot)
    requires EntryQuota(topics)
    ensures EntryQuota(PutSlot(topics, service, topic, inst, slot))
  {
    hide EntryKey;
  }

  lemma EntryQuotaSub(topics: Topics, service: Str, topic: Str, fd: Fd, key: Str, sel: Selector)
    requires EntryQuota(topics)
    requires fd in EntryFor(topics, service, topic).subscribers
          || |EntryFor(topics, service, topic).subscribers| < MAX_SUBSCRIBERS_PER_TOPIC
    ensures EntryQuota(PutSub(topics, service, topic, fd, key, sel))
  {
    hide EntryKey;
    var e := EntryFor(topics, service, topic);
    var e' := PutSub(topics, service, topic, fd, key, sel)[EntryKey(service, topic)];
    assert e'.subscribers.Keys == e.subscribers.Keys + {fd};
    assert fd in e.subscribers ==> e.subscribers.Keys + {fd} == e.subscribers.Keys;
  }

  lemma SubQuotaAdded(subs: Subs, id: SubId, sel: Selector)
    requires SubQuota(subs) && id !in subs
    requires |subs| < MAX_SUBSCRIPTIONS_GLOBAL && |SubsOfFd(subs, id.fd)| < MAX_SUBSCRIPTIONS_PER_CONNECTION
    ensures SubQuota(subs[id := sel])
  {
    var subs' := subs[id := sel];
    forall fd
      ensures |SubsOfFd(subs', fd)| <= MAX_SUBSCRIPTIONS_PER_CONNECTION
    {
      if fd == id.fd {
        assert SubsOfFd(subs', fd) == SubsOfFd(subs, fd) + {id};
      } else {
        assert SubsOfFd(subs', fd) == SubsOfFd(subs, fd);
      }
    }
  }

  /** Taking things away never exceeds a limit. */
  lemma QuotasShrink(topics: Topics, refs: map<Str, nat>, fdPubs: KeyIndex, slots: Slots, subs: Subs,
                     topics': Topics, refs': map<Str, nat>, fdPubs': KeyIndex, slots': Slots, subs': Subs)
    requires Quotas(topics, refs, fdPubs, slots, subs)
    requires refs'.Keys <= refs.Keys && slots'.Keys <= slots.Keys && subs'.Keys <= subs.Keys
    requires forall fd :: KeysOf(fdPubs', fd) <= KeysOf(fdPubs, fd)
    requires forall k :: k in topics' ==> k in topics && topics'[k].subscribers.Keys <= topics[k].subscribers.Keys
    ensures Quotas(topics', refs', fdPubs', slots', subs')
  {
    hide ServiceWithinLimits;
    SmallerSubset(refs'.Keys, refs.Keys);
    SmallerSubset(subs'.Keys, subs.Keys);
    forall fd
      ensures |KeysOf(fdPubs', fd)| <= MAX_PUBLICATIONS_PER_CONNECTION
      ensures |SubsOfFd(subs', fd)| <= MAX_SUBSCRIPTIONS_PER_CONNECTION
    {
      SmallerSubset(KeysOf(fdPubs', fd), KeysOf(fdPubs, fd));
      assert SubsOfFd(subs', fd) <= SubsOfFd(subs, fd);
      SmallerSubset(SubsOfFd(subs', fd), SubsOfFd(subs, fd));
    }
    forall k | k in topics'
      ensures |topics'[k].subscribers| <= MAX_SUBSCRIBERS_PER_TOPIC
    {
      SmallerSubset(topics'[k].subscribers.Keys, topics[k].subscribers.Keys);
    }
    forall service
      ensures ServiceWithinLimits(slots', service)
    {
      LimitsShrink(slots, slots', service);
    }
  }
}

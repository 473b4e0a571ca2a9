/** What the invariant between events means to the parties: consequences that
    hold in every state any run can reach.
  */
module Guarantees {
  import opened Base
  import opened TopicKeys
  import opened Wire
  import opened Frames
  import opened ServiceCodec
  import opened Registry
  import opened Watching
  import opened TopicTables
  import opened TopicManagement
  import opened Outboxes
  import opened Notifications
  import opened ControlPlane
  import opened Invariants
  import opened StateInvariant
  import opened ServiceManagement
  import opened RegistryHandlers
  import opened TopicHandlers

  // ---- Closed connections leave no trace ----------------------------------------------------

  /** Purging a connection that is closed changes nothing: no table mentions it. */
  lemma NothingDangles(s: Sm, clean: bool, f: Fd)
    requires Inv(s, clean) && f !in s.clients
    ensures Purge(s.tabs, {f}) == s.tabs
  {
    hide Rendezvous;
    hide SinceOk;
    hide OnlyWatched;
    hide ReportedOnline;
    hide NoStaleOnline;
    var t := s.tabs;
    assert PairsOutside(t.pids, {f}) == t.pids;
    forall pid: Pid
      ensures !Vanishes(t.pids, {f}, pid)
    {
    }
    hide Vanishes;
    assert OwnedOutside(t.reg, {f}) == t.reg;
    assert WatchedOutside(t.watches, {f}) == t.watches;
    assert SlotsOutside(t.slots, {f}) == t.slots;
    assert SubsOutside(t.subs, {f}) == t.subs;
    assert WatchPairsOutside(t.pw, t.pids, {f}) == t.pw;
    assert WatchPairsOutside(t.wp, t.pids, {f}) == t.wp;
  }

  /** In a cascade, a surviving group is newly told that an instance is offline
      exactly when the instance was lost and the group watches it. */
  lemma OfflineMeansLost(s: Sm, t: Sm, clean: bool, k: WatchKey, key: Ident)
    requires Inv(s, clean) && Shrinks(s, t, {}) && Buried(s, t, {})
    requires k in t.tabs.watches && k.fd in t.clients
    ensures k.fd in s.clients
    ensures SaidOffline(s.clients[k.fd].out.frames, t.clients[k.fd].out.frames, k.id, key)
       <==> key in s.tabs.reg && key !in t.tabs.reg && GroupMatches(t.tabs.watches[k], key)
  {
    GroupSurvives(s, t, {}, k);
    assert SinceOk(s) && (key in s.tabs.reg ==> Told(s, key, true)) by { hide Rendezvous; hide LastTold; }
    hide Inv;
    hide Purge;
    hide PurgeSessions;
    hide GroupMatches;
    var before, after := s.clients[k.fd].out.frames, t.clients[k.fd].out.frames;
    if SaidOffline(before, after, k.id, key) {
      var i :| |before| <= i < |after| && About(after[i], k.id, key) && !after[i].online;
      assert Extra(k.fd, after[i], s.tabs.reg, t.tabs, {});
    }
    if key in s.tabs.reg && key !in t.tabs.reg && GroupMatches(t.tabs.watches[k], key) {
      hide Extra;
      hide SaidOffline;
      assert LastTold(s, k, key) == Some(true) && LastTold(t, k, key) == Some(false);
      LastWordChanged(before, after, s.since[k], k.id, key);
    }
  }

  /** Cascades are confluent: who survived determines the tables and which losses
      each watcher was told of, in whatever order sends failed and connections
      were closed. */
  lemma SurvivorsDetermineOutcome(s: Sm, t: Sm, u: Sm, clean: bool)
    requires Inv(s, clean) && Shrinks(s, t, {}) && Buried(s, t, {}) && Shrinks(s, u, {}) && Buried(s, u, {})
    requires t.clients.Keys == u.clients.Keys
    ensures t.tabs == u.tabs && t.sessions == u.sessions && t.since == u.since
    ensures forall k, key :: k in t.tabs.watches && k.fd in t.clients ==>
              (SaidOffline(s.clients[k.fd].out.frames, t.clients[k.fd].out.frames, k.id, key) <==>
               SaidOffline(s.clients[k.fd].out.frames, u.clients[k.fd].out.frames, k.id, key))
  {
    hide Purge;
    hide PurgeSessions;
    hide Extra;
    hide Inv;
    hide Buried;
    hide SaidOffline;
    hide GroupMatches;
    forall k, key | k in t.tabs.watches && k.fd in t.clients
      ensures SaidOffline(s.clients[k.fd].out.frames, t.clients[k.fd].out.frames, k.id, key) <==>
              SaidOffline(s.clients[k.fd].out.frames, u.clients[k.fd].out.frames, k.id, key)
    {
      OfflineMeansLost(s, t, clean, k, key);
      OfflineMeansLost(s, u, clean, k, key);
    }
  }

  // ---- Sessions ---------------------------------------------------------------------------------

  /** No two live connections that said hello share a session key. */
  lemma SessionsDiffer(s: Sm, clean: bool, f: Fd, g: Fd)
    requires Inv(s, clean) && f in s.clients && g in s.clients && f != g
    requires s.clients[f].hello && s.clients[g].hello
    ensures s.clients[f].sessionKey != s.clients[g].sessionKey
  {
    hide Live;
    hide Rendezvous;
    hide OnlyWatched;
    hide ReportedOnline;
    hide NoStaleOnline;
    assert s.sessions[s.clients[f].sessionKey] == f && s.sessions[s.clients[g].sessionKey] == g;
  }

  // ---- Watchers ----------------------------------------------------------------------------------

  /** Whatever failed: a registered instance was last reported online to every
      live group that watches it.  Unless an event left watchers with stale
      news, what was last reported online is registered. */
  lemma WatchersKnow(s: Sm, clean: bool, k: WatchKey, key: Ident)
    requires Inv(s, clean) && k in s.tabs.watches && GroupMatches(s.tabs.watches[k], key)
    ensures k.fd in s.clients && k in s.since
    ensures key in s.tabs.reg ==> LastTold(s, k, key) == Some(true)
    ensures clean ==> (LastTold(s, k, key) == Some(true) <==> key in s.tabs.reg)
  {
    hide Rendezvous;
    hide GroupMatches;
    hide LastSince;
    assert key in s.tabs.reg ==> Told(s, key, true);
  }

  /** End to end: once nothing is pending, a watcher that reads what it got last read
      of a registered instance that it is online; and, unless an event left
      watchers with stale news, of registered instances only. */
  lemma WatcherBelieves(sm: ServiceManager, k: WatchKey, key: Ident)
    requires sm.Sound() && k in sm.V().tabs.watches && GroupMatches(sm.V().tabs.watches[k], key)
    ensures k.fd in sm.clients && k in sm.since && OutboxOk(sm.clients[k.fd].out)
    ensures Pending(sm.clients[k.fd].out) == [] ==>
              var read := LastRead(CutStream(sm.clients[k.fd].out.taken).messages, sm.since[k], k.id, key);
              && (key in sm.V().tabs.reg ==> read == Some(true))
              && (sm.clean ==> (read == Some(true) <==> key in sm.V().tabs.reg))
  {
    hide ServiceManager.Objects;
    hide OutboxOk;
    hide Inv;
    hide GroupMatches;
    hide CutStream;
    hide LastRead;
    WatchersKnow(sm.V(), sm.clean, k, key);
    assert OutboxOk(sm.clients[k.fd].out) by { assert sm.OutboxesOk(); }
    assert sm.clients[k.fd].out.offset <= |sm.clients[k.fd].out.buffer| by { OutboxOffset(sm.clients[k.fd].out); }
    if key.name == [] {
      NamelessUnread(CutStream(sm.clients[k.fd].out.taken).messages, sm.since[k], k.id, key);
      NamelessUnregistered(sm, key);
    } else if Pending(sm.clients[k.fd].out) == [] {
      WatcherReads(sm.clients[k.fd].out, sm.since[k], k.id, key);
    }
  }

  lemma NamelessUnregistered(sm: ServiceManager, key: Ident)
    requires sm.Objects() && key.name == []
    ensures key !in sm.V().tabs.reg
  {
    sm.TablesValid();
    hide ServiceManager.Objects;
    ValidEntries(sm.registry);
  }

  lemma OutboxOffset(o: Outbox)
    requires OutboxOk(o)
    ensures o.offset <= |o.buffer|
  {
  }

  // ---- Publishers and subscribers -----------------------------------------------------------------

  /** Only messages that serialize are ever sent. */
  lemma HeardFits(o: Outbox, topic: Str, info: ServiceInfo, hash: u32)
    requires OutboxOk(o) && Heard(o.frames, topic, info, hash)
    ensures NotifyFits(topic, info, hash)
  {
    hide Stream;
    hide WireFrames;
    hide Sendable;
    var i :| 0 <= i < |o.frames| && IsPublisherNotify(o.frames[i], topic, info, hash);
    assert Sendable(o.frames[i]);
    FitsWhatever(o.frames[i].sequence, topic, info, hash);
  }

  /** Rendezvous: a live subscriber whose selector matches a live publisher has
      been sent that publisher, since both were there, exactly when the
      notification fits in a frame. */
  lemma RendezvousIffFits(sm: ServiceManager, slot: SlotId, sub: SubId)
    requires sm.Sound() && slot in sm.V().tabs.slots && sub in sm.V().tabs.subs && slot.topic == sub.topic
    requires Asks(sm.V().tabs.subs[sub], slot.service, slot.inst)
    ensures sub.fd in sm.clients && Pair(slot, sub) in sm.met
            && sm.met[Pair(slot, sub)] <= |sm.clients[sub.fd].out.frames|
    ensures var p, n := sm.V().tabs.slots[slot], sm.met[Pair(slot, sub)];
            Heard(sm.clients[sub.fd].out.frames[n..], slot.topic, p.info, p.hash) <==>
                NotifyFits(slot.topic, p.info, p.hash)
  {
    hide OutboxOk;
    hide Heard;
    hide NotifyFits;
    hide ServiceManager.Objects;
    hide Inv;
    MatchKnows(sm.V(), sm.clean, slot, sub);
    assert OutboxOk(sm.clients[sub.fd].out);
    var p, frames := sm.V().tabs.slots[slot], sm.clients[sub.fd].out.frames;
    var n := sm.met[Pair(slot, sub)];
    if Heard(frames[n..], slot.topic, p.info, p.hash) {
      HeardPart(frames[..n], frames[n..], slot.topic, p.info, p.hash);
      assert frames == frames[..n] + frames[n..];
      HeardFits(sm.clients[sub.fd].out, slot.topic, p.info, p.hash);
    }
  }

  lemma MatchKnows(s: Sm, clean: bool, slot: SlotId, sub: SubId)
    requires Inv(s, clean) && slot in s.tabs.slots && sub in s.tabs.subs && slot.topic == sub.topic
    requires Asks(s.tabs.subs[sub], slot.service, slot.inst)
    ensures sub.fd in s.clients && Knows(s, slot, sub)
  {
    hide Knows;
    hide OnlyWatched;
    hide ReportedOnline;
    hide NoStaleOnline;
  }

  /** End to end: once nothing is pending, the subscriber reads the publisher in what
      it got. */
  lemma SubscriberLearns(o: Outbox, topic: Str, info: ServiceInfo, hash: u32)
    requires OutboxOk(o) && Pending(o) == [] && Heard(o.frames, topic, info, hash)
    ensures exists m :: m in CutStream(o.taken).messages && m.header.mtype == MSG_TOPIC_PUBLISHER_NOTIFY
                        && ReadPublisherNotify(m.payload) == Some(PublisherEvent(topic, OnWire(info), hash))
  {
    PeerReceives(o);
    hide CutStream;
    hide ReadPublisherNotify;
    var i :| 0 <= i < |o.frames| && IsPublisherNotify(o.frames[i], topic, info, hash);
    assert ReceivedAll(o.frames)[i] == Received(o.frames[i]);
    assert Received(o.frames[i]) in CutStream(o.taken).messages;
    PublisherNotifyRoundTrip(o.frames[i]);
    ReceivedPayload(o.frames[i]);
  }

  /** The exception is real: an instance with a very long host registers in one
      frame and publishes in another, but its notification fits in none. */
  lemma NotificationMayNotFit(topic: Str, hash: u32) returns (registered: ServiceInfo, claimed: ServiceInfo)
    requires 0 < |topic| <= MAX_NAME_LENGTH
    ensures Acceptable(registered) && Encodable(registered) && FitsFrame(EncService(registered))
    ensures claimed.name == registered.name && Encodable(claimed) && FitsFrame(EncString(topic) + EncService(claimed))
    ensures !NotifyFits(topic, Authoritative(claimed, registered), hash)
  {
    claimed := ServiceInfo([115], [], 0, [], [], 0, 0, []);
    var host: Str := seq(MAX_MESSAGE_SIZE - MESSAGE_HEADER_SIZE - |EncService(claimed)|, i => 104);
    registered := claimed.(host := host);
    assert |EncService(registered)| == |EncService(claimed)| + |host|;
    assert Authoritative(claimed, registered) == registered;
  }

  // ---- Exact publication index ----------------------------------------------------------------------

  /** Each publisher slot belongs to the connection that owns the instance, so no
      slot is ever overwritten by another connection, and fd_publications_ lists
      exactly what each connection publishes. */
  lemma PublicationsExact(sm: ServiceManager, id: SlotId)
    requires sm.Sound() && id in sm.V().tabs.slots
    ensures var key := Ident(id.service, id.inst);
            key in sm.V().tabs.reg && sm.V().tabs.reg[key].fd == sm.V().tabs.slots[id].fd
    ensures EntryKey(id.service, id.topic) in KeysOf(sm.topicManager.fdPubs, sm.V().tabs.slots[id].fd)
    ensures PubIndexExact(sm.topicManager.fdPubs, sm.topicManager.slots)
  {
    hide Rendezvous;
    hide OnlyWatched;
    hide ReportedOnline;
    hide NoStaleOnline;
    hide TopicManager.Valid;
    hide EntryKey;
  }
}

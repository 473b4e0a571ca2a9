/** The handlers of service_manager/sm_registry.cpp.  Requests arrive decoded;
    None stands for a payload that does not decode.
  */
module RegistryHandlers {
  import opened Base
  import opened Wire
  import opened ServiceCodec
  import opened Registry
  import opened Watching
  import opened TopicManagement
  import opened Outboxes
  import opened ControlPlane
  import opened Commands
  import opened Invariants
  import opened StateInvariant
  import opened ProcessTables
  import opened ServiceManagement

  const MSG_REGISTER_REPLY: PlainType := 0x0002
  const MSG_UNREGISTER_REPLY: PlainType := 0x0004

  // ---- Registering ------------------------------------------------------------------------

  /** The effect of a registration on the tables: the instance now belongs to
      its new connection, and a connection it was taken from no longer
      publishes under that service name. */
  ghost function Registered(s: Sm, entry: ServiceEntry): Sm {
    var displaced := DisplacedBy(s, entry);
    if displaced.Some? then WithoutPublisher(Added(s, entry), entry.info.name, displaced.value) else Added(s, entry)
  }

  ghost function Added(s: Sm, entry: ServiceEntry): Sm {
    s.(tabs := s.tabs.(reg := s.tabs.reg[KeyOf(entry.info) := entry]))
  }

  /** The other connection the instance belonged to, if any. */
  ghost function DisplacedBy(s: Sm, entry: ServiceEntry): Option<Fd> {
    var key := KeyOf(entry.info);
    if key in s.tabs.reg && s.tabs.reg[key].fd != entry.fd then Some(s.tabs.reg[key].fd) else None
  }

  ghost function WithoutPublisher(s: Sm, service: Str, f: Fd): Sm {
    s.(tabs := s.tabs.(slots := SlotsOfOtherServices(s.tabs.slots, service, f)))
  }

  lemma RegisteredOwned(s: Sm, entry: ServiceEntry)
    requires Owned(s)
    ensures OwnedBut(Registered(s, entry), {})
  {
  }

  lemma RegisteredLive(s: Sm, entry: ServiceEntry)
    requires entry.fd in s.clients && Live(s) && PidsExact(s) && SessionsOk(s)
    ensures var t := Registered(s, entry); Live(t) && PidsExact(t) && SessionsOk(t)
  {
  }

  lemma RegisteredInv(s: Sm, entry: ServiceEntry, clean: bool)
    requires Inv(s, clean) && entry.fd in s.clients
    ensures var t := Registered(s, entry);
            InvBut(t, clean, {KeyOf(entry.info)}) && OwnedBut(t, {}) && Rendezvous(t)
  {
    hide Live;
    hide PidsExact;
    hide SessionsOk;
    hide Owned;
    hide Rendezvous;
    hide SinceOk;
    hide OnlyWatched;
    hide ReportedBut;
    hide ReportedOnline;
    hide NoStaleBut;
    hide NoStaleOnline;
    var t, key := Registered(s, entry), KeyOf(entry.info);
    RegisteredOwned(s, entry);
    RegisteredLive(s, entry);
    RendezvousLess(s, t);
    ReportsKept(s, t, {key}, clean);
  }

  /** Removing a connection's publications after a cascade or before it is the same. */
  lemma PublisherLater(s: Sm, t: Sm, a: set<Says>, service: Str, f: Fd)
    requires Shrinks(s, t, a)
    ensures Shrinks(WithoutPublisher(s, service, f), WithoutPublisher(t, service, f), a)
    ensures f in s.clients && f !in t.clients ==> WithoutPublisher(t, service, f) == t
  {
    hide Vanishes;
    var s', t' := WithoutPublisher(s, service, f), WithoutPublisher(t, service, f);
    var dead := s.clients.Keys - t.clients.Keys;
    assert t'.tabs.slots == SlotsOutside(s'.tabs.slots, dead);
    forall g | g in t.clients
      ensures Continues(g, s.clients[g], t.clients[g], s.tabs.reg, t'.tabs, a)
    {
      hide Shrinks;
    }
    if f in dead { assert t'.tabs.slots == t.tabs.slots; }
  }

  /** A registration is settled once the instance, if it is still there, was
      announced online. */
  lemma RegisterSettles(s: Sm, entry: ServiceEntry, v: Sm, a: set<Says>, clean: bool, clean': bool)
    requires Inv(s, clean) && entry.fd in s.clients && Shrinks(Registered(s, entry), v, a)
    requires forall y :: y in a ==> y.Says? && y.key == KeyOf(entry.info)
    requires clean' ==> clean && Buried(Registered(s, entry), v, {KeyOf(entry.info)}) && entry.fd in v.clients
    requires KeyOf(entry.info) in v.tabs.reg ==> Told(v, KeyOf(entry.info), true)
    ensures Inv(v, clean')
  {
    var r, key := Registered(s, entry), KeyOf(entry.info);
    RegisteredInv(s, entry, clean);
    Cascade(r, v, a, {key}, clean, clean');
    ShrinksKeepsOwned(r, v, a, {});
    ShrinksKeepsRendezvous(r, v, a);
    if clean' { OwnerAlive(r, v, a, key); }
    ExceptionGone(v, clean', key);
  }

  /** A registration that changes nothing for watchers leaves all as reported. */
  lemma RenewedInv(s: Sm, entry: ServiceEntry, clean: bool)
    requires Inv(s, clean) && KeyOf(entry.info) in s.tabs.reg && s.tabs.reg[KeyOf(entry.info)].fd == entry.fd
    ensures Inv(Added(s, entry), clean)
  {
    hide Inv;
    hide InvBut;
    hide OwnedBut;
    hide Rendezvous;
    hide Told;
    var key, r := KeyOf(entry.info), Added(s, entry);
    assert Live(s) && ReportedOnline(s) by { InvLive(s, clean); }
    RegisteredInv(s, entry, clean);
    ToldSame(s, r, key, true);
    ExceptionGone(r, clean, key);
  }

  /** An instance stays registered while its connection lives. */
  lemma OwnerAlive(s: Sm, t: Sm, a: set<Says>, key: Ident)
    requires Shrinks(s, t, a) && key in s.tabs.reg && s.tabs.reg[key].fd in t.clients
    ensures key in t.tabs.reg
  {
    hide Extra;
    hide PurgeSessions;
    hide Vanishes;
  }

  /** Whether a registration is news to watchers: a new instance, or one whose
      connection, port or host changed. */
  predicate Moved(before: Option<ServiceEntry>, info: ServiceInfo, fd: Fd) {
    before.None? || before.value.fd != fd || before.value.info.port != info.port
    || before.value.info.hostId != info.hostId
  }

  /** Every group still watching the instance was told, after the messages it
      had been sent in `s`, that the instance is offline. */
  ghost predicate HeardOffline(s: Sm, t: Sm, key: Ident) {
    forall k :: k in t.tabs.watches && k.fd in t.clients && GroupMatches(t.tabs.watches[k], key) ==>
      k.fd in s.clients && SaidOffline(s.clients[k.fd].out.frames, t.clients[k.fd].out.frames, k.id, key)
  }

  ghost predicate SaidOffline(before: seq<Msg>, after: seq<Msg>, id: u64, key: Ident) {
    exists i :: |before| <= i < |after| && About(after[i], id, key) && !after[i].online
  }

  /** If the last word changed to offline, an offline message was added. */
  lemma {:induction false} LastWordChanged(before: seq<Msg>, after: seq<Msg>, since: nat, id: u64, key: Ident)
    requires before <= after && since <= |before|
    requires LastSince(before, since, id, key) != Some(false) && LastSince(after, since, id, key) == Some(false)
    ensures SaidOffline(before, after, id, key)
  {
    assert |before| == |after| ==> before == after;
    var i := |after| - 1;
    if !About(after[i], id, key) {
      LastWordChanged(before, after[..i], since, id, key);
      var j :| |before| <= j < i && About(after[..i][j], id, key) && !after[..i][j].online;
      assert after[j] == after[..i][j];
    }
  }

  lemma OfflineHeard(s: Sm, t: Sm, a: set<Says>, key: Ident)
    requires Shrinks(s, t, a) && SinceOk(s) && Told(s, key, true) && Told(t, key, false)
    ensures HeardOffline(s, t, key)
  {
    forall k | k in t.tabs.watches && k.fd in t.clients && GroupMatches(t.tabs.watches[k], key)
      ensures k.fd in s.clients && SaidOffline(s.clients[k.fd].out.frames, t.clients[k.fd].out.frames, k.id, key)
    {
      GroupSurvives(s, t, a, k);
      hide Purge;
      hide PurgeSessions;
      hide SaidOffline;
      assert LastTold(s, k, key) == Some(true) && LastTold(t, k, key) == Some(false);
      LastWordChanged(s.clients[k.fd].out.frames, t.clients[k.fd].out.frames, s.since[k], k.id, key);
    }
  }

  lemma HeardOfflineLater(s: Sm, t: Sm, u: Sm, a: set<Says>, key: Ident)
    requires HeardOffline(s, t, key) && Shrinks(t, u, a)
    ensures HeardOffline(s, u, key)
  {
    forall k | k in u.tabs.watches && k.fd in u.clients && GroupMatches(u.tabs.watches[k], key)
      ensures k.fd in s.clients && SaidOffline(s.clients[k.fd].out.frames, u.clients[k.fd].out.frames, k.id, key)
    {
      GroupSurvives(t, u, a, k);
      hide Purge;
      hide PurgeSessions;
      var before, mid := s.clients[k.fd].out.frames, t.clients[k.fd].out.frames;
      var i :| |before| <= i < |mid| && About(mid[i], k.id, key) && !mid[i].online;
      assert u.clients[k.fd].out.frames[i] == mid[i];
    }
  }

  /** The notifications of handleRegister: online, or offline and then online. */
  method Announce(sm: ServiceManager, before: Option<ServiceEntry>, info: ServiceInfo, fd: Fd)
    requires sm.Ready() && Acceptable(info)
    requires before.Some? ==> KeyOf(before.value.info) == KeyOf(info) && Acceptable(before.value.info)
    requires before.Some? && KeyOf(info) in sm.V().tabs.reg ==> Told(sm.V(), KeyOf(info), true)
    modifies sm, sm.registry, sm.watchers, sm.topicManager
    ensures sm.Ready() && Shrinks(old(sm.V()), sm.V(), {Says(KeyOf(info), true), Says(KeyOf(info), false)})
    ensures Buried(old(sm.V()), sm.V(), {KeyOf(info)})
    ensures Moved(before, info, fd) && (KeyOf(info) in sm.V().tabs.reg || KeyOf(info) !in old(sm.V()).tabs.reg) ==>
              Told(sm.V(), KeyOf(info), true)
    ensures !Moved(before, info, fd) ==> sm.V() == old(sm.V())
    ensures before.Some? && Moved(before, info, fd) && KeyOf(info) in sm.V().tabs.reg ==>
              HeardOffline(old(sm.V()), sm.V(), KeyOf(info))
    ensures sm.clean == old(sm.clean)
    ensures old(sm.Smooth()) ==> sm.Smooth() && sm.clients.Keys == old(sm.clients.Keys)
  {
    hide ServiceManager.Objects;
    hide ServiceRegistry.Valid;
    hide WatchNotifier.Valid;
    hide TopicManager.Valid;
    hide TopicManager.ExactIndex;
    hide ServiceManager.OutboxesOk;
    hide PidsExact;
    hide WatchersMirror;
    hide SinceOk;
    hide Shrinks;
    hide Told;
    hide Buried;
    hide Halted;
    hide HeardOffline;
    hide ServiceManager.Smooth;
    var key := KeyOf(info);
    ghost var a := {Says(key, true), Says(key, false)};
    ghost var s := sm.V();
    ShrinksSame(s, a);
    BuriedSame(s, {key});
    if Moved(before, info, fd) {
      if before.Some? {
        sm.NotifyServiceWatch(before.value.Identity(), false);
        ShrinksMore(s, sm.V(), {Says(key, false)}, a);
        RegShrinks(s, sm.V(), a);
        if key in s.tabs.reg { OfflineHeard(s, sm.V(), a, key); }
      }
      ghost var t := sm.V();
      sm.NotifyServiceWatch(ServiceIdentity(info.name, info.hostId, info.inst), true);
      ShrinksMore(t, sm.V(), {Says(key, true)}, a);
      ShrinksTwice(s, t, sm.V(), a);
      BuriedTwice(s, t, sm.V(), a, {key});
      RegShrinks(t, sm.V(), a);
      if before.Some? && key in sm.V().tabs.reg { HeardOfflineLater(s, t, sm.V(), a, key); }
    }
  }

  /** The displaced connection, if it still lives, publishes nothing under the name. */
  ghost function Displaced(s: Sm, displaced: Option<Fd>, name: Str): Sm {
    if displaced.Some? && displaced.value in s.clients then WithoutPublisher(s, name, displaced.value) else s
  }

  /** The displaced connection, if nothing is left to it. */
  ghost function Idle(s: Sm, displaced: Option<Fd>): set<Fd> {
    if displaced.Some? && !OwnsAny(s, displaced.value) then {displaced.value} else {}
  }

  /** The connection owns an instance besides this one. */
  ghost predicate OwnsBesides(s: Sm, f: Fd, key: Ident) {
    exists id :: id in s.tabs.reg && id != key && s.tabs.reg[id].fd == f
  }

  /** Who is left when no send fails. */
  ghost function Remaining(s: Sm, entry: ServiceEntry): set<Fd> {
    var displaced := DisplacedBy(s, entry);
    if displaced.Some? && !OwnsBesides(s, displaced.value, KeyOf(entry.info)) then s.clients.Keys - {displaced.value}
    else s.clients.Keys
  }

  /** Without losses on the way, what was left to the displaced connection at the
      start decides. */
  lemma RemainingAll(s: Sm, entry: ServiceEntry, s2: Sm, t: Sm, a: set<Says>)
    requires Shrinks(Added(s, entry), s2, {}) && Shrinks(s2, t, a) && t.clients.Keys == s.clients.Keys
    ensures t.clients.Keys - Idle(t, DisplacedBy(s, entry)) == Remaining(s, entry)
  {
    ShrinksMore(Added(s, entry), s2, {}, a);
    ShrinksTwice(Added(s, entry), s2, t, a);
    hide Extra;
    hide PurgeSessions;
    var displaced, key := DisplacedBy(s, entry), KeyOf(entry.info);
    assert Added(s, entry).clients.Keys - t.clients.Keys == {};
    PurgeNothing(Added(s, entry).tabs);
    assert t.tabs.reg == Added(s, entry).tabs.reg;
    hide Shrinks;
    if displaced.Some? {
      if OwnsBesides(s, displaced.value, key) {
        var id :| id in s.tabs.reg && id != key && s.tabs.reg[id].fd == displaced.value;
        assert t.tabs.reg[id].fd == displaced.value;
      }
      assert OwnsAny(t, displaced.value) ==> OwnsBesides(s, displaced.value, key);
    }
  }

  /** The end of handleRegister: the connection an instance was taken from stops
      publishing under that name and is closed if nothing is left to it. */
  method DropDisplaced(sm: ServiceManager, displaced: Option<Fd>, name: Str, fd: Fd)
    requires sm.Ready() && (displaced.Some? ==> 0 <= displaced.value && displaced.value != fd)
    modifies sm, sm.registry, sm.watchers, sm.topicManager
    ensures sm.Ready() && Shrinks(Displaced(old(sm.V()), displaced, name), sm.V(), {})
    ensures Buried(Displaced(old(sm.V()), displaced, name), sm.V(), {})
    ensures displaced.Some? && displaced.value in sm.clients ==>
              exists id :: id in sm.V().tabs.reg && sm.V().tabs.reg[id].fd == displaced.value
    ensures sm.clean == old(sm.clean)
    ensures displaced.None? || displaced.value !in old(sm.clients) || OwnsAny(old(sm.V()), displaced.value) ==>
              sm.V() == Displaced(old(sm.V()), displaced, name)
    ensures old(sm.Smooth()) ==>
              sm.Smooth() && sm.clients.Keys == old(sm.clients.Keys) - Idle(old(sm.V()), displaced)
  {
    hide ServiceManager.Objects;
    hide ServiceRegistry.Valid;
    hide WatchNotifier.Valid;
    hide TopicManager.Valid;
    hide TopicManager.ExactIndex;
    hide ServiceManager.OutboxesOk;
    hide PidsExact;
    hide WatchersMirror;
    hide SinceOk;
    hide Shrinks;
    hide Told;
    hide Buried;
    hide Halted;
    hide ServiceManager.Smooth;
    ghost var s := Displaced(sm.V(), displaced, name);
    ShrinksSame(s, {});
    BuriedSame(s, {});
    if displaced.Some? && displaced.value in sm.clients {
      var d := displaced.value;
      sm.Unpublish(name, d);
      assert sm.V() == s;
      SlotsDoNotMatter(old(sm.V()), s);
      sm.TablesValid();
      var nothing := sm.registry.OwnsNothing(d);
      assert nothing <==> !OwnsAny(old(sm.V()), d);
      if nothing {
        sm.CloseClient(d, true);
      }
    }
  }

  lemma SlotsDoNotMatter(s: Sm, t: Sm)
    requires t == s.(tabs := s.tabs.(slots := t.tabs.slots))
    ensures PidsExact(s) ==> PidsExact(t)
    ensures WatchersMirror(s) ==> WatchersMirror(t)
    ensures SinceOk(s) ==> SinceOk(t)
  {
  }

  /** Reply, announcement and displacement add up to the registration's effect. */
  lemma RegisterAddsUp(s: Sm, entry: ServiceEntry, t: Sm, v: Sm, displaced: Option<Fd>, a: set<Says>)
    requires Live(s) && Shrinks(Added(s, entry), t, a) && Buried(Added(s, entry), t, {KeyOf(entry.info)})
    requires displaced == DisplacedBy(s, entry) && SinceOk(t)
    requires Shrinks(Displaced(t, displaced, entry.info.name), v, {})
    requires Buried(Displaced(t, displaced, entry.info.name), v, {})
    requires KeyOf(entry.info) in t.tabs.reg ==> Told(t, KeyOf(entry.info), true)
    requires forall y :: y in a ==> y.Says? && y.key == KeyOf(entry.info)
    ensures Shrinks(Registered(s, entry), v, a) && Buried(Registered(s, entry), v, {KeyOf(entry.info)})
    ensures KeyOf(entry.info) in v.tabs.reg ==> Told(v, KeyOf(entry.info), true)
  {
    hide Shrinks;
    hide Told;
    hide Live;
    var key, name := KeyOf(entry.info), entry.info.name;
    var t' := Displaced(t, displaced, name);
    if displaced.Some? {
      OwnerLive(s, key);
      PublisherLater(Added(s, entry), t, a, name, displaced.value);
    }
    assert Shrinks(Registered(s, entry), t', a);
    BuriedAlike(Added(s, entry), t, Registered(s, entry), t', {key});
    assert SinceOk(t');
    ShrinksMore(t', v, {}, a);
    ShrinksTwice(Registered(s, entry), t', v, a);
    assert Buried(t', v, {key});
    BuriedTwice(Registered(s, entry), t', v, {}, {key});
    RegShrinks(t', v, {});
    if key in v.tabs.reg {
      ToldSame(t, t', key, true);
      ShrinksKeepsTold(t', v, {}, key, true);
    }
  }

  lemma OwnerLive(s: Sm, key: Ident)
    requires Live(s) && key in s.tabs.reg
    ensures s.tabs.reg[key].fd in s.clients
  {
  }

  /** The registration is announced to watchers. */
  ghost predicate Announced(s: Sm, info: ServiceInfo, fd: Fd) {
    Moved(if KeyOf(info) in s.tabs.reg then Some(s.tabs.reg[KeyOf(info)]) else None, info, fd)
  }

  /** handleRegister.  `mid` is the state after the reply, in which the requester
      may have died.  The announcement is made all the same. */
  method HandleRegister(sm: ServiceManager, fd: Fd, sequence: u32, request: Option<ServiceInfo>)
    returns (handle: u32, ghost mid: Sm)
    requires sm.Sound() && fd in sm.clients
    modifies sm, sm.registry, sm.watchers, sm.topicManager
    ensures sm.Sound()
    ensures Answered(old(sm.V()), sm.V(), fd, Plain(MSG_REGISTER_REPLY, sequence, Le32(handle)))
    ensures handle != INVALID_HANDLE <==>
              && old(sm.clients)[fd].hello && request.Some?
              && 0 < |request.value.name| <= MAX_NAME_LENGTH
              && |request.value.hostId| <= MAX_NAME_LENGTH && |request.value.inst| <= MAX_NAME_LENGTH
    ensures handle == INVALID_HANDLE ==> Shrinks(old(sm.V()), sm.V(), {})
    ensures handle == INVALID_HANDLE && old(sm.Smooth()) ==> sm.Smooth() && sm.clients.Keys == old(sm.clients.Keys)
    ensures handle != INVALID_HANDLE ==> TakesEffect(old(sm.V()), ServiceEntry(request.value, handle, fd), sm.V())
    ensures sm.clean == (old(sm.clean) && !(handle != INVALID_HANDLE && Announced(old(sm.V()), request.value, fd)
                                            && fd !in sm.clients))
    ensures handle != INVALID_HANDLE ==> Shrinks(Added(old(sm.V()), ServiceEntry(request.value, handle, fd)), mid, {})
    ensures handle != INVALID_HANDLE && Announced(old(sm.V()), request.value, fd) && fd !in mid.clients ==>
              KeyOf(request.value) !in sm.V().tabs.reg && Told(sm.V(), KeyOf(request.value), true)
    ensures handle != INVALID_HANDLE && old(sm.Smooth()) ==>
              sm.Smooth() && sm.clients.Keys == Remaining(old(sm.V()), ServiceEntry(request.value, handle, fd))
    ensures handle != INVALID_HANDLE && KeyOf(request.value) !in old(sm.V()).tabs.reg
            && old(sm.answers) == [-1] && old(sm.Unqueued()) ==>
              fd !in mid.clients && sm.Smooth() && sm.clients.Keys == old(sm.clients.Keys) - {fd}
  {
    hide PidTableHolds;
    hide WatcherTableHolds;
    hide ServiceRegistry.Valid;
    hide WatchNotifier.Valid;
    hide TopicManager.Valid;
    hide TopicManager.ExactIndex;
    hide ServiceManager.OutboxesOk;
    hide PidsExact;
    hide WatchersMirror;
    hide SinceOk;
    hide Shrinks;
    hide Told;
    hide Buried;
    hide Halted;
    hide Inv;
    hide Answered;
    hide TakesEffect;
    hide HeardOffline;
    hide ServiceManager.Smooth;
    hide ServiceManager.Unqueued;
    ghost var s, clean := sm.V(), sm.clean;
    handle, mid := INVALID_HANDLE, s;
    SmallReply(MSG_REGISTER_REPLY, sequence, Le32(handle));
    if !sm.clients[fd].hello || request.None? {
      sm.Reply(fd, MSG_REGISTER_REPLY, sequence, Le32(handle));
      SentLast(s, sm.V(), fd, Plain(MSG_REGISTER_REPLY, sequence, Le32(handle)));
      return;
    }
    var info := request.value;
    var before := sm.registry.FindEntry(KeyOf(info));
    var displaced;
    handle, displaced := sm.registry.AddService(info, fd);
    if handle == INVALID_HANDLE {
      assert sm.V() == s;
      sm.Reply(fd, MSG_REGISTER_REPLY, sequence, Le32(handle));
      SentLast(s, sm.V(), fd, Plain(MSG_REGISTER_REPLY, sequence, Le32(handle)));
      return;
    }
    var entry := ServiceEntry(info, handle, fd);
    ghost var s1 := sm.V();
    RegisteringReady(s, s1, clean, entry, before, displaced);
    SmallReply(MSG_REGISTER_REPLY, sequence, Le32(handle));
    sm.SendReply(fd, MSG_REGISTER_REPLY, sequence, Le32(handle));
    SentLast(s1, sm.V(), fd, Plain(MSG_REGISTER_REPLY, sequence, Le32(handle)));
    ghost var s2 := sm.V();
    mid := s2;
    ToldAfterReply(s, s1, s2, clean, KeyOf(info));
    SpreadWord(sm, before, displaced, entry, s, Plain(MSG_REGISTER_REPLY, sequence, Le32(handle)));
  }

  /** The rest of handleRegister, after the reply. */
  method SpreadWord(sm: ServiceManager, before: Option<ServiceEntry>, displaced: Option<Fd>, entry: ServiceEntry,
                    ghost s: Sm, ghost reply: Msg)
    requires sm.Ready() && Inv(s, sm.clean) && entry.fd in s.clients && Acceptable(entry.info)
    requires Shrinks(Added(s, entry), sm.V(), {}) && Buried(Added(s, entry), sm.V(), {})
    requires Answered(Added(s, entry), sm.V(), entry.fd, reply)
    requires before == if KeyOf(entry.info) in s.tabs.reg then Some(s.tabs.reg[KeyOf(entry.info)]) else None
    requires before.Some? ==> KeyOf(before.value.info) == KeyOf(entry.info) && Acceptable(before.value.info)
    requires before.Some? ==> entry.handle == before.value.handle
    requires before.Some? && KeyOf(entry.info) in sm.V().tabs.reg ==> Told(sm.V(), KeyOf(entry.info), true)
    requires displaced == DisplacedBy(s, entry) && (displaced.Some? ==> 0 <= displaced.value)
    modifies sm, sm.registry, sm.watchers, sm.topicManager
    ensures sm.Sound() && Answered(s, sm.V(), entry.fd, reply) && TakesEffect(s, entry, sm.V())
    ensures sm.clean == (old(sm.clean) && !(Announced(s, entry.info, entry.fd) && entry.fd !in sm.clients))
    ensures Announced(s, entry.info, entry.fd) && entry.fd !in old(sm.clients) ==>
              KeyOf(entry.info) !in sm.V().tabs.reg && Told(sm.V(), KeyOf(entry.info), true)
    ensures old(sm.Smooth()) && old(sm.clients.Keys) == s.clients.Keys ==>
              sm.Smooth() && sm.clients.Keys == Remaining(s, entry)
    ensures displaced.None? && old(sm.Smooth()) ==> sm.Smooth() && sm.clients.Keys == old(sm.clients.Keys)
  {
    hide ServiceManager.Objects;
    hide ServiceRegistry.Valid;
    hide WatchNotifier.Valid;
    hide TopicManager.Valid;
    hide TopicManager.ExactIndex;
    hide ServiceManager.OutboxesOk;
    hide ServiceManager.Smooth;
    hide PidsExact;
    hide WatchersMirror;
    hide SinceOk;
    hide Shrinks;
    hide Told;
    hide Buried;
    hide Halted;
    hide Inv;
    hide Answered;
    hide TakesEffect;
    hide HeardOffline;
    hide Remaining;
    hide Idle;
    var info, fd := entry.info, entry.fd;
    ghost var s2, clean := sm.V(), sm.clean;
    Announce(sm, before, info, fd);
    ghost var t := sm.V();
    DropDisplaced(sm, displaced, info.name, fd);
    sm.Record(!Announced(s, info, fd) || fd in sm.clients);
    RegisterDone(s, entry, s2, t, sm.V(), clean, sm.clean);
    if Announced(s, info, fd) && fd !in s2.clients { RegisterStrands(s, entry, s2, t, sm.V()); }
    RegisterHistory(s, entry, s2, t, sm.V(), reply);
    RegisterEffect(s, entry, s2, t, sm.V());
    if t.clients.Keys == s.clients.Keys {
      RemainingAll(s, entry, s2, t, {Says(KeyOf(info), true), Says(KeyOf(info), false)});
    }
  }

  /** What an accepted registration leads to.  An instance that was there already,
      at the same place, is not announced; one that moved to another connection,
      port or host is reported offline before it is online again. */
  ghost predicate TakesEffect(s: Sm, entry: ServiceEntry, t: Sm) {
    var key := KeyOf(entry.info);
    && Shrinks(Registered(s, entry), t, {Says(key, true), Says(key, false)})
    && (key in s.tabs.reg ==>
          var was := s.tabs.reg[key];
          && entry.handle == was.handle
          && (if was.fd == entry.fd && was.info.port == entry.info.port && was.info.hostId == entry.info.hostId
              then Shrinks(Registered(s, entry), t, {})
              else key in t.tabs.reg ==> HeardOffline(s, t, key)))
    && (DisplacedBy(s, entry).Some? && DisplacedBy(s, entry).value in t.clients ==>
          exists id :: id in t.tabs.reg && t.tabs.reg[id].fd == DisplacedBy(s, entry).value)
  }

  lemma RegisteringReady(s: Sm, s1: Sm, clean: bool, entry: ServiceEntry,
                         before: Option<ServiceEntry>, displaced: Option<Fd>)
    requires Inv(s, clean) && entry.fd in s.clients && s1 == Added(s, entry)
    requires before == if KeyOf(entry.info) in s.tabs.reg then Some(s.tabs.reg[KeyOf(entry.info)]) else None
    requires displaced == DisplacedBy(s, entry)
    ensures PidsExact(s1) && WatchersMirror(s1) && SinceOk(s1)
    ensures displaced.Some? ==> 0 <= displaced.value
  {
  }

  /** An instance that was registered is still told online after the reply. */
  lemma ToldAfterReply(s: Sm, s1: Sm, s2: Sm, clean: bool, key: Ident)
    requires Inv(s, clean) && SameReports(s, s1) && SinceOk(s1) && Shrinks(s1, s2, {})
    ensures key in s.tabs.reg && key in s2.tabs.reg ==> Told(s2, key, true)
  {
    hide Shrinks;
    hide Told;
    if key in s.tabs.reg && key in s2.tabs.reg {
      ToldSame(s, s1, key, true);
      ShrinksKeepsTold(s1, s2, {}, key, true);
    }
  }

  lemma RegisterDone(s: Sm, entry: ServiceEntry, s2: Sm, t: Sm, v: Sm, clean: bool, clean': bool)
    requires Inv(s, clean) && entry.fd in s.clients
    requires Shrinks(Added(s, entry), s2, {}) && Buried(Added(s, entry), s2, {}) && SinceOk(s2)
    requires var key := KeyOf(entry.info);
             && Shrinks(s2, t, {Says(key, true), Says(key, false)}) && Buried(s2, t, {key}) && SinceOk(t)
             && (key in t.tabs.reg ==> Told(t, key, true))
             && (!Announced(s, entry.info, entry.fd) ==> t == s2)
    requires var base := Displaced(t, DisplacedBy(s, entry), entry.info.name);
             Shrinks(base, v, {}) && Buried(base, v, {})
    requires clean' ==> clean && (!Announced(s, entry.info, entry.fd) || entry.fd in v.clients)
    ensures Inv(v, clean')
    ensures Shrinks(Registered(s, entry), v, {Says(KeyOf(entry.info), true), Says(KeyOf(entry.info), false)})
  {
    hide Shrinks;
    hide Told;
    hide Inv;
    var key, s1 := KeyOf(entry.info), Added(s, entry);
    var a := {Says(key, true), Says(key, false)};
    ShrinksMore(s1, s2, {}, a);
    ShrinksTwice(s1, s2, t, a);
    assert Buried(s1, s2, {key});
    BuriedTwice(s1, s2, t, a, {key});
    assert Live(s) by { InvLive(s, clean); }
    RegisterAddsUp(s, entry, t, v, DisplacedBy(s, entry), a);
    if Announced(s, entry.info, entry.fd) {
      RegisterSettles(s, entry, v, a, clean, clean');
    } else {
      RenewedInv(s, entry, clean);
      CascadeInv(s1, s2, clean, clean');
      CascadeInv(s2, v, clean', clean');
    }
  }

  /** The requester died before the announcement: whoever still watches the
      instance believes it online, and it is not registered. */
  lemma RegisterStrands(s: Sm, entry: ServiceEntry, s2: Sm, t: Sm, v: Sm)
    requires entry.fd in s.clients && entry.fd !in s2.clients && Shrinks(Added(s, entry), s2, {})
    requires var key := KeyOf(entry.info);
             && Shrinks(s2, t, {Says(key, true), Says(key, false)}) && SinceOk(t)
             && (key !in s2.tabs.reg ==> Told(t, key, true))
    requires Shrinks(Displaced(t, DisplacedBy(s, entry), entry.info.name), v, {})
    ensures KeyOf(entry.info) !in v.tabs.reg && Told(v, KeyOf(entry.info), true)
  {
    var key, base := KeyOf(entry.info), Displaced(t, DisplacedBy(s, entry), entry.info.name);
    OwnerDead(Added(s, entry), s2, {}, key);
    hide Shrinks;
    hide Told;
    RegShrinks(s2, t, {Says(key, true), Says(key, false)});
    RegShrinks(base, v, {});
    ToldSame(t, base, key, true);
    assert SinceOk(base);
    ShrinksKeepsTold(base, v, {}, key, true);
  }

  /** An instance goes with its connection. */
  lemma OwnerDead(s: Sm, t: Sm, a: set<Says>, key: Ident)
    requires Shrinks(s, t, a) && key in s.tabs.reg && s.tabs.reg[key].fd in s.clients
             && s.tabs.reg[key].fd !in t.clients
    ensures key !in t.tabs.reg
  {
    hide Extra;
    hide PurgeSessions;
    hide Vanishes;
  }

  lemma InvLive(s: Sm, clean: bool)
    requires Inv(s, clean)
    ensures Live(s) && ReportedOnline(s)
  {
  }

  /** The reply came first, and the offline notice is in the history. */
  lemma RegisterHistory(s: Sm, entry: ServiceEntry, s2: Sm, t: Sm, v: Sm, m: Msg)
    requires entry.fd in s.clients
    requires Shrinks(Added(s, entry), s2, {}) && Answered(Added(s, entry), s2, entry.fd, m)
    requires Shrinks(s2, t, {Says(KeyOf(entry.info), true), Says(KeyOf(entry.info), false)})
    requires Shrinks(Displaced(t, DisplacedBy(s, entry), entry.info.name), v, {})
    ensures Answered(s, v, entry.fd, m)
    ensures HeardOffline(s2, t, KeyOf(entry.info)) ==> HeardOffline(s, v, KeyOf(entry.info))
  {
    var key := KeyOf(entry.info);
    var base := Displaced(t, DisplacedBy(s, entry), entry.info.name);
    FramesGrow(Added(s, entry), s2, {});
    hide Shrinks;
    AnsweredLater(Added(s, entry), s2, t, entry.fd, m, {Says(key, true), Says(key, false)});
    assert Answered(s, base, entry.fd, m);
    AnsweredLater(s, base, v, entry.fd, m, {});
    if HeardOffline(s2, t, key) {
      HeardOfflineLonger(s, s2, base, key);
      HeardOfflineLater(s, base, v, {}, key);
    }
  }

  lemma HeardOfflineLonger(r: Sm, s: Sm, t: Sm, key: Ident)
    requires HeardOffline(s, t, key)
    requires forall f :: f in s.clients ==> f in r.clients && r.clients[f].out.frames <= s.clients[f].out.frames
    ensures HeardOffline(r, t, key)
  {
    forall k | k in t.tabs.watches && k.fd in t.clients && GroupMatches(t.tabs.watches[k], key)
      ensures k.fd in r.clients && SaidOffline(r.clients[k.fd].out.frames, t.clients[k.fd].out.frames, k.id, key)
    {
      assert SaidOffline(s.clients[k.fd].out.frames, t.clients[k.fd].out.frames, k.id, key);
    }
  }

  lemma RegisterEffect(s: Sm, entry: ServiceEntry, s2: Sm, t: Sm, v: Sm)
    requires Shrinks(Added(s, entry), s2, {}) && (!Announced(s, entry.info, entry.fd) ==> t == s2)
    requires var key := KeyOf(entry.info);
             && Shrinks(Registered(s, entry), v, {Says(key, true), Says(key, false)})
             && Shrinks(Displaced(t, DisplacedBy(s, entry), entry.info.name), v, {})
             && (key in s.tabs.reg ==> entry.handle == s.tabs.reg[key].handle)
             && (key in s.tabs.reg && key in t.tabs.reg && Moved(Some(s.tabs.reg[key]), entry.info, entry.fd) ==>
                   HeardOffline(s, v, key))
             && (DisplacedBy(s, entry).Some? && DisplacedBy(s, entry).value in v.clients ==>
                   exists id :: id in v.tabs.reg && v.tabs.reg[id].fd == DisplacedBy(s, entry).value)
    ensures TakesEffect(s, entry, v)
  {
    hide Shrinks;
    hide HeardOffline;
    RegShrinks(Displaced(t, DisplacedBy(s, entry), entry.info.name), v, {});
    if !Announced(s, entry.info, entry.fd) { ShrinksTwice(Added(s, entry), s2, v, {}); }
  }

  // ---- Unregistering ----------------------------------------------------------------------

  /** The instance is gone, and its connection publishes nothing under that name. */
  ghost function Unregistered(s: Sm, key: Ident, f: Fd): Sm {
    WithoutPublisher(Removed(s, key), key.name, f)
  }

  ghost function Removed(s: Sm, key: Ident): Sm {
    s.(tabs := s.tabs.(reg := s.tabs.reg - {key}))
  }

  lemma UnregisteredInv(s: Sm, key: Ident, f: Fd, clean: bool)
    requires Inv(s, clean) && key in s.tabs.reg && s.tabs.reg[key].fd == f
    ensures var t := Unregistered(s, key, f); InvBut(t, clean, {key}) && OwnedBut(t, {}) && Rendezvous(t)
  {
    hide Rendezvous;
    hide SinceOk;
    hide OnlyWatched;
    hide ReportedBut;
    hide ReportedOnline;
    hide NoStaleBut;
    hide NoStaleOnline;
    var t := Unregistered(s, key, f);
    RendezvousLess(s, t);
    ReportsKept(s, t, {key}, clean);
  }

  /** After the notification and the removal of publications all is in order again. */
  lemma UnregisterSettles(s: Sm, key: Ident, f: Fd, t: Sm, clean: bool)
    requires Inv(s, clean) && key in s.tabs.reg && s.tabs.reg[key].fd == f
    requires Shrinks(Removed(s, key), t, {Says(key, false)}) && Buried(Removed(s, key), t, {key})
    requires Told(t, key, false)
    ensures Shrinks(Unregistered(s, key, f), WithoutPublisher(t, key.name, f), {Says(key, false)})
    ensures Inv(WithoutPublisher(t, key.name, f), clean)
  {
    hide Shrinks;
    hide Inv;
    hide InvBut;
    hide OwnedBut;
    hide Rendezvous;
    hide Told;
    hide Buried;
    var r, t' := Unregistered(s, key, f), WithoutPublisher(t, key.name, f);
    RegShrinks(Removed(s, key), t, {Says(key, false)});
    PublisherLater(Removed(s, key), t, {Says(key, false)}, key.name, f);
    UnregisteredInv(s, key, f, clean);
    BuriedAlike(Removed(s, key), t, r, t', {key});
    Cascade(r, t', {Says(key, false)}, {key}, clean, clean);
    ShrinksKeepsOwned(r, t', {Says(key, false)}, {});
    ShrinksKeepsRendezvous(r, t', {Says(key, false)});
    ToldSame(t, t', key, false);
    ExceptionGone(t', clean, key);
  }

  /** handleUnregister.  `gone` is the instance removed, if the request named one
      of the connection's own. */
  method HandleUnregister(sm: ServiceManager, fd: Fd, sequence: u32, request: Option<Str>) returns (gone: Option<Ident>)
    requires sm.Sound() && fd in sm.clients
    modifies sm, sm.registry, sm.watchers, sm.topicManager
    ensures sm.Sound() && sm.clean == old(sm.clean)
    ensures gone.Some? <==> request.Some? && exists id :: OwnsNamed(old(sm.V()).tabs.reg, id, request.value, fd)
    ensures gone.None? ==> Shrinks(old(sm.V()), sm.V(), {})
    ensures gone.Some? ==> OwnsNamed(old(sm.V()).tabs.reg, gone.value, request.value, fd)
    ensures gone.Some? ==> Shrinks(Unregistered(old(sm.V()), gone.value, fd), sm.V(), {Says(gone.value, false)})
    ensures gone.Some? ==> Told(sm.V(), gone.value, false)
    ensures fd in sm.clients ==> LastSent(sm.V(), fd, Plain(MSG_UNREGISTER_REPLY, sequence, [BoolByte(gone.Some?)]))
    ensures old(sm.Smooth()) ==> sm.Smooth() && sm.clients.Keys == old(sm.clients.Keys)
  {
    hide ServiceManager.Smooth;
    hide ServiceManager.Objects;
    hide ServiceRegistry.Valid;
    hide WatchNotifier.Valid;
    hide TopicManager.Valid;
    hide TopicManager.ExactIndex;
    hide ServiceManager.OutboxesOk;
    hide PidsExact;
    hide WatchersMirror;
    hide SinceOk;
    hide Shrinks;
    hide Told;
    hide Buried;
    hide Halted;
    hide Inv;
    hide LastSent;
    hide Sent;
    ghost var s := sm.V();
    gone := None;
    SmallReply(MSG_UNREGISTER_REPLY, sequence, [BoolByte(false)]);
    SmallReply(MSG_UNREGISTER_REPLY, sequence, [BoolByte(true)]);
    var entry := None;
    sm.TablesValid();
    if request.Some? {
      entry := sm.registry.FindServiceByFdAndName(fd, request.value);
    }
    if entry.None? {
      sm.Reply(fd, MSG_UNREGISTER_REPLY, sequence, [BoolByte(false)]);
      SentLast(s, sm.V(), fd, Plain(MSG_UNREGISTER_REPLY, sequence, [BoolByte(false)]));
      return;
    }
    var key := KeyOf(entry.value.info);
    gone := Some(key);
    assert OwnsNamed(s.tabs.reg, key, request.value, fd);
    UnregisterInstance(sm, fd, sequence, key, entry.value.Identity());
  }

  /** The rest of handleUnregister, for the instance found. */
  method UnregisterInstance(sm: ServiceManager, fd: Fd, sequence: u32, key: Ident, who: ServiceIdentity)
    requires sm.Sound() && fd in sm.clients && key in sm.V().tabs.reg && sm.V().tabs.reg[key].fd == fd
    requires who.Key() == key && ShortNames(who)
    modifies sm, sm.registry, sm.watchers, sm.topicManager
    ensures sm.Sound() && sm.clean == old(sm.clean)
    ensures Shrinks(Unregistered(old(sm.V()), key, fd), sm.V(), {Says(key, false)}) && Told(sm.V(), key, false)
    ensures fd in sm.clients ==> LastSent(sm.V(), fd, Plain(MSG_UNREGISTER_REPLY, sequence, [BoolByte(true)]))
    ensures old(sm.Smooth()) ==> sm.Smooth() && sm.clients.Keys == old(sm.clients.Keys)
  {
    hide ServiceManager.Smooth;
    hide ServiceManager.Objects;
    hide ServiceManager.OutboxesOk;
    hide PidsExact;
    hide WatchersMirror;
    hide SinceOk;
    hide Shrinks;
    hide Told;
    hide Buried;
    hide Halted;
    hide Inv;
    hide LastSent;
    hide Sent;
    ghost var s := sm.V();
    sm.Strike(key);
    RemovedReady(s, key, sm.clean);
    sm.NotifyServiceWatch(who, false);
    ghost var t := sm.V();
    UnregisterSettles(s, key, fd, t, sm.clean);
    sm.Unpublish(key.name, fd);
    ghost var t' := sm.V();
    SlotsDoNotMatter(t, t');
    ToldSame(t, t', key, false);
    if fd !in sm.clients { return; }
    SmallReply(MSG_UNREGISTER_REPLY, sequence, [BoolByte(true)]);
    sm.Reply(fd, MSG_UNREGISTER_REPLY, sequence, [BoolByte(true)]);
    SentLast(t', sm.V(), fd, Plain(MSG_UNREGISTER_REPLY, sequence, [BoolByte(true)]));
    ShrinksMore(t', sm.V(), {}, {Says(key, false)});
    ShrinksTwice(Unregistered(s, key, fd), t', sm.V(), {Says(key, false)});
    ShrinksKeepsTold(t', sm.V(), {}, key, false);
  }

  lemma RemovedReady(s: Sm, key: Ident, clean: bool)
    requires Inv(s, clean)
    ensures var t := Removed(s, key); PidsExact(t) && WatchersMirror(t) && SinceOk(t)
  {
  }
}

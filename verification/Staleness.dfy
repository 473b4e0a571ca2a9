/** The two ways in which watchers come to believe in an instance that is not
    registered: each leaves every group that watches it stale, and each occurs
    in a run from the start (service_manager/sm_registry.cpp, sm_diag.cpp).
  */
module Staleness {
  import opened Base
  import opened ServiceCodec
  import opened Registry
  import opened Watching
  import opened ControlPlane
  import opened Invariants
  import opened StateInvariant
  import opened Closing
  import opened ServiceManagement
  import opened SessionTiming
  import opened RegistryHandlers
  import opened WatchHandlers
  import opened DiagHandlers
  import opened Transitions
  import opened Runs

  /** A live group was last told that the instance is online; it is not registered. */
  ghost predicate Stale(s: Sm, k: WatchKey, key: Ident) {
    && k in s.tabs.watches && k.fd in s.clients && k in s.since
    && LastTold(s, k, key) == Some(true) && key !in s.tabs.reg
  }

  /** There is no third way: in a run from a sound start, a group is stale only
      after an event that stranded watchers. */
  lemma StaleMeansStranded(trail: seq<Sm>, turns: seq<Turn>, n: nat, k: WatchKey, key: Ident)
    requires n < |trail| && n <= |turns| && Inv(trail[n], NoneStrands(trail, turns, n))
    requires Stale(trail[n], k, key)
    ensures exists i :: 0 <= i < n && Strands(trail[i], turns[i].event, trail[i + 1])
  {
    hide LastTold;
    hide Strands;
    hide Rendezvous;
  }

  // ---- Services that go silently -------------------------------------------------------------

  /** A group is left with what it was told of an instance that went silently. */
  lemma SilencedStale(s: Sm, t: Sm, clean: bool, o: Fd, key: Ident, k: WatchKey)
    requires Inv(s, clean) && Shrinks(s, t, {}) && Silent(s, t, o) && o !in t.clients
    requires key in s.tabs.reg && s.tabs.reg[key].fd == o
    requires k in t.tabs.watches && k.fd in t.clients && GroupMatches(t.tabs.watches[k], key)
    ensures Stale(t, k, key)
  {
    hide GroupMatches;
    assert Live(s) && SinceOk(s) && Told(s, key, true) by { hide Rendezvous; }
    hide Inv;
    OwnerDead(s, t, {}, key);
    GroupSurvives(s, t, {}, k);
    FramesGrow(s, t, {});
    assert t.since == s.since;
    hide Shrinks;
    LastUnmoved(s.clients[k.fd].out.frames, t.clients[k.fd].out.frames, s.since[k], k.id, key);
  }

  /** Nothing a cascade sends mends it. */
  lemma StaleLater(s: Sm, t: Sm, k: WatchKey, key: Ident)
    requires Stale(s, k, key) && SinceOk(s) && Shrinks(s, t, {}) && k.fd in t.clients
    ensures Stale(t, k, key)
  {
    GroupSurvives(s, t, {}, k);
    RegShrinks(s, t, {});
    LastToldMoves(s, t, {}, k, key, true);
  }

  /** A process that reconnects strands whoever watches what it had registered. */
  lemma HelloStrands(s: Sm, f: Fd, h: Hello, mid: Sm, clean: bool, key: Ident, k: WatchKey)
    requires Inv(s, clean) && SupersededIn(s, f, h, mid)
    requires Silences(s, f, h) && key in s.tabs.reg && s.tabs.reg[key].fd == Superseded(s, f, h).value
    requires k in mid.tabs.watches && k.fd in mid.clients && GroupMatches(mid.tabs.watches[k], key)
    ensures Stale(mid, k, key)
  {
    hide Inv;
    hide Shrinks;
    hide Silent;
    hide Stale;
    SilencedStale(s, mid, clean, Superseded(s, f, h).value, key, k);
  }

  // ---- Two runs ------------------------------------------------------------------------------

  function FilterFor(info: ServiceInfo): WatchFilter {
    WatchFilter(info.name, [], info.inst)
  }

  lemma FilterFits(info: ServiceInfo)
    requires Acceptable(info)
    ensures GoodFilters([FilterFor(info)]) && GroupMatches([FilterFor(info)], KeyOf(info))
  {
    assert FilterMatches([FilterFor(info)][0], KeyOf(info));
  }

  /** Connection 1 watches the instance, connection 2 said hello, nobody
      registered anything. */
  ghost predicate Staged(s: Sm, info: ServiceInfo, h: Hello, id: u64) {
    && s.clients.Keys == {1, 2} && s.tabs.reg == map[]
    && s.tabs.watches == map[WatchKey(1, id) := [FilterFor(info)]]
    && s.clients[2].hello && s.clients[2].sessionKey == KeyFor(h) && s.clients[2].incarnation == h.incarnation
  }

  lemma StagedFacts(s: Sm, info: ServiceInfo, h: Hello, id: u64)
    requires Staged(s, info, h, id)
    ensures s.clients.Keys == {1, 2} && s.clients[2].hello && s.tabs.reg == map[]
  {
  }

  /** A good hello while every send succeeds. */
  method Greet(sm: ServiceManager, fd: Fd, h: Hello, config: SessionConfig) returns (ghost mid: Sm)
    requires sm.Sound() && sm.Smooth() && fd in sm.clients && GoodHello(Some(h))
    modifies sm, sm.registry, sm.watchers, sm.topicManager
    ensures sm.Sound() && sm.Smooth() && sm.clean == (old(sm.clean) && !Silences(old(sm.V()), fd, h))
    ensures sm.clients.Keys == old(sm.clients.Keys) - Leaving(old(sm.V()), fd, h)
    ensures SupersededIn(old(sm.V()), fd, h, mid)
    ensures if fd in mid.clients then Shrinks(Greeted(mid, fd, h), sm.V(), {}) else sm.V() == mid
  {
    assert h.pid != 0 && h.version == SESSION_PROTOCOL_VERSION;
    assert |h.hostId| <= MAX_NAME_LENGTH && |RuntimeName(h)| <= MAX_NAME_LENGTH;
    hide *;
    var accepted;
    accepted, mid := HandleHello(sm, fd, 0, Some(h), config);
  }

  method Stage(info: ServiceInfo, h: Hello, id: u64, config: SessionConfig) returns (sm: ServiceManager)
    requires Acceptable(info) && GoodHello(Some(h)) && id != 0
    ensures fresh(sm) && fresh(sm.registry) && fresh(sm.watchers) && fresh(sm.topicManager)
    ensures sm.Sound() && sm.clean && sm.Smooth() && Staged(sm.V(), info, h, id)
  {
    hide ServiceManager.Sound;
    hide ServiceManager.Smooth;
    hide Shrinks;
    hide GoodHello;
    hide GoodFilters;
    hide Answered;
    hide KeyFor;
    hide Snapped;
    hide Staged;
    hide SupersededIn;
    sm := Start();
    Accept(sm, 1);
    Accept(sm, 2);
    ghost var s := sm.V();
    ghost var mid := Greet(sm, 2, h, config);
    NobodySuperseded(s, h, mid);
    NobodyDied(Greeted(s, 2, h), sm.V(), {});
    s := sm.V();
    FilterFits(info);
    var subscribed := HandleSubscribeWatch(sm, 1, 0, id, Some([FilterFor(info)]));
    SnappedStaged(s, sm.V(), info, h, id);
  }

  lemma NobodySuperseded(s: Sm, h: Hello, mid: Sm)
    requires s.sessions == map[] && SupersededIn(s, 2, h, mid)
    ensures mid == s
  {
  }

  lemma SnappedStaged(s: Sm, u: Sm, info: ServiceInfo, h: Hello, id: u64)
    requires s.clients.Keys == {1, 2} && s.tabs.reg == map[] && s.tabs.watches == map[] && s.clients[2].hello
    requires s.clients[2].sessionKey == KeyFor(h) && s.clients[2].incarnation == h.incarnation
    requires exists reply, snaps :: Snapped(s, u, WatchKey(1, id), [FilterFor(info)], reply, snaps)
    ensures Staged(u, info, h, id)
  {
    hide Snapshot;
    hide KeyFor;
    var reply, snaps :| Snapped(s, u, WatchKey(1, id), [FilterFor(info)], reply, snaps);
  }

  /** The requester's reply fails, and the registration is announced after its
      instance is gone. */
  method StaleRegistration(info: ServiceInfo, h: Hello, id: u64, config: SessionConfig) returns (sm: ServiceManager)
    requires Acceptable(info) && GoodHello(Some(h)) && id != 0
    ensures sm.Sound() && Stale(sm.V(), WatchKey(1, id), KeyOf(info))
  {
    hide ServiceManager.Sound;
    hide Inv;
    hide GoodHello;
    hide Answered;
    sm := Stage(info, h, id, config);
    ghost var s, key, k := sm.V(), KeyOf(info), WatchKey(1, id);
    SetAnswers(sm, [-1]);
    var handle, mid := HandleRegister(sm, 2, 1, Some(info));
    FilterFits(info);
  }

  /** Connection 1 watches the instance, connection 2 registered it, and another
      one was accepted. */
  ghost predicate Claimed(s: Sm, info: ServiceInfo, h: Hello, id: u64) {
    && s.clients.Keys == {1, 2, 3} && KeyOf(info) in s.tabs.reg && s.tabs.reg[KeyOf(info)].fd == 2
    && s.tabs.watches == map[WatchKey(1, id) := [FilterFor(info)]]
    && KeyFor(h) in s.sessions && s.sessions[KeyFor(h)] == 2 && s.clients[2].incarnation == h.incarnation
  }

  lemma RegisteredClaims(s: Sm, info: ServiceInfo, handle: u32, h: Hello, id: u64, t: Sm, clean: bool)
    requires Staged(s, info, h, id) && TakesEffect(s, ServiceEntry(info, handle, 2), t) && t.clients.Keys == {1, 2}
    requires Inv(t, clean)
    ensures Claimed(t.(clients := t.clients[3 := NEW_CONN]), info, h, id)
  {
    hide KeyFor;
    hide Shrinks;
    hide HeardOffline;
    assert SessionsOk(t) by { hide Rendezvous; hide Told; }
    hide Inv;
    var entry, key := ServiceEntry(info, handle, 2), KeyOf(info);
    assert DisplacedBy(s, entry) == None;
    NobodyDied(Registered(s, entry), t, {Says(key, true), Says(key, false)});
  }

  lemma ClaimedStale(s: Sm, info: ServiceInfo, h: Hello, id: u64, clean: bool, mid: Sm, t: Sm)
    requires Claimed(s, info, h, id) && Acceptable(info) && Inv(s, clean) && SupersededIn(s, 3, h, mid)
    requires t.clients.Keys == {1, 3} && SinceOk(mid)
    requires if 3 in mid.clients then Shrinks(Greeted(mid, 3, h), t, {}) else t == mid
    ensures Stale(t, WatchKey(1, id), KeyOf(info))
  {
    hide Inv;
    hide KeyFor;
    hide Silent;
    hide SinceOk;
    var key, k := KeyOf(info), WatchKey(1, id);
    assert Superseded(s, 3, h) == Some(2) && OwnsAny(s, 2);
    if 3 in mid.clients { ClientSurvived(Greeted(mid, 3, h), t, {}, 1); }
    GroupSurvives(s, mid, {}, k);
    FilterFits(info);
    hide Shrinks;
    HelloStrands(s, 3, h, mid, clean, key, k);
    if 3 in mid.clients {
      var u := Greeted(mid, 3, h);
      assert SinceOk(u) && Stale(u, k, key) by { GreetedAlike(mid, h, k, key); }
      StaleLater(u, t, k, key);
    }
  }

  lemma GreetedAlike(mid: Sm, h: Hello, k: WatchKey, key: Ident)
    requires 3 in mid.clients && SinceOk(mid) && Stale(mid, k, key)
    ensures SinceOk(Greeted(mid, 3, h)) && Stale(Greeted(mid, 3, h), k, key)
  {
  }

  method Claim(info: ServiceInfo, h: Hello, id: u64, config: SessionConfig) returns (sm: ServiceManager)
    requires Acceptable(info) && GoodHello(Some(h)) && id != 0
    ensures fresh(sm) && fresh(sm.registry) && fresh(sm.watchers) && fresh(sm.topicManager)
    ensures sm.Sound() && sm.clean && sm.Smooth() && Claimed(sm.V(), info, h, id)
  {
    hide ServiceManager.Sound;
    hide ServiceManager.Smooth;
    hide Inv;
    hide GoodHello;
    hide Answered;
    hide Staged;
    hide Claimed;
    hide Shrinks;
    hide TakesEffect;
    hide Told;
    sm := Stage(info, h, id, config);
    ghost var s := sm.V();
    StagedFacts(s, info, h, id);
    var handle, _ := HandleRegister(sm, 2, 1, Some(info));
    SoundInv(sm);
    RegisteredClaims(s, info, handle, h, id, sm.V(), sm.clean);
    Accept(sm, 3);
  }

  /** The process reconnects under the same incarnation, and its services go
      without notice. */
  method StaleReconnect(info: ServiceInfo, h: Hello, id: u64, config: SessionConfig) returns (sm: ServiceManager)
    requires Acceptable(info) && GoodHello(Some(h)) && id != 0
    ensures sm.Sound() && Stale(sm.V(), WatchKey(1, id), KeyOf(info))
  {
    hide ServiceManager.Sound;
    hide ServiceManager.Smooth;
    hide Inv;
    hide GoodHello;
    hide Answered;
    hide Stale;
    hide SinceOk;
    hide Silent;
    hide Shrinks;
    hide KeyFor;
    sm := Claim(info, h, id, config);
    ghost var s := sm.V();
    SoundInv(sm);
    InvSince(s, true);
    ghost var mid := Greet(sm, 3, h, config);
    ShrinksKeepsSince(s, mid, {});
    ClaimedStale(s, info, h, id, true, mid, sm.V());
  }
}

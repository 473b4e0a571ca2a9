/** Whom a hello may close (service_manager/sm_diag.cpp handleRuntimeHello): the
    session table never drops the entry of a connection that says hello again
    under another name.  As long as no connection does that, a hello closes only
    an earlier connection of the same runtime; once one does, it need not.
  */
module Identities {
  import opened Base
  import opened Wire
  import opened Registry
  import opened Watching
  import opened TopicTables
  import opened Outboxes
  import opened ControlPlane
  import opened Commands
  import opened Invariants
  import opened StateInvariant
  import opened ServiceManagement
  import opened SessionTiming
  import opened RegistryHandlers
  import opened WatchHandlers
  import opened TopicHandlers
  import opened DiagHandlers
  import opened Transitions
  import opened Runs

  /** A connection that said hello before does so again under another key. */
  ghost predicate Rekeys(s: Sm, e: Event) {
    && e.Received? && e.fd in s.clients && e.request.Greeting? && GoodHello(e.request.hello)
    && s.clients[e.fd].hello && s.clients[e.fd].sessionKey != KeyFor(e.request.hello.value)
  }

  // ---- Session entries stay current ----------------------------------------------------------

  lemma CurrentThrough(s: Sm, s1: Sm, t: Sm, a: set<Says>)
    requires SessionsCurrent(s) && s1.clients == s.clients && s1.sessions == s.sessions && Shrinks(s1, t, a)
    ensures SessionsCurrent(t)
  {
    hide Shrinks;
    ShrinksKeepsCurrent(s1, t, a);
  }

  lemma RegistryKeepsCurrent(s: Sm, fd: Fd, sequence: u32, request: Request, config: SessionConfig, t: Sm)
    requires fd in s.clients && InRegistry(request) && SessionsCurrent(s)
    requires RespondsRegistry(s, fd, sequence, request, config, t)
    ensures SessionsCurrent(t)
  {
    hide Shrinks;
    hide SessionsCurrent;
    hide Answered;
    hide LastSent;
    hide Told;
    hide TakesEffect;
    hide GoodFilters;
    hide Snapshot;
    match request {
      case Register(info) =>
        if s.clients[fd].hello && info.Some? && Acceptable(info.value) {
          var handle: u32 :| TakesEffect(s, ServiceEntry(info.value, handle, fd), t);
          RegisterKeepsCurrent(s, ServiceEntry(info.value, handle, fd), t);
        } else {
          CurrentThrough(s, s, t, {});
        }
      case Unregister(name) =>
        if name.Some? && exists id :: OwnsNamed(s.tabs.reg, id, name.value, fd) {
          var id :| OwnsNamed(s.tabs.reg, id, name.value, fd) && Shrinks(Unregistered(s, id, fd), t, {Says(id, false)});
          CurrentThrough(s, Unregistered(s, id, fd), t, {Says(id, false)});
        } else {
          CurrentThrough(s, s, t, {});
        }
      case SubscribeWatch(id, filters) =>
        if Shrinks(s, t, {}) {
          CurrentThrough(s, s, t, {});
        } else {
          var snaps :| Snapped(s, t, WatchKey(fd, id), filters.value,
            Plain(MSG_SUBSCRIBE_SERVICE_WATCH_REPLY, sequence, [BoolByte(true)]), snaps);
          SameCurrent(s, t);
        }
      case UnsubscribeWatch(watch) => SameCurrent(s, t);
      case _ => CurrentThrough(s, s, t, {});
    }
  }

  lemma RegisterKeepsCurrent(s: Sm, entry: ServiceEntry, t: Sm)
    requires SessionsCurrent(s) && TakesEffect(s, entry, t)
    ensures SessionsCurrent(t)
  {
    hide Shrinks;
    hide SessionsCurrent;
    hide HeardOffline;
    var key := KeyOf(entry.info);
    assert Shrinks(Registered(s, entry), t, {Says(key, true), Says(key, false)});
    CurrentThrough(s, Registered(s, entry), t, {Says(key, true), Says(key, false)});
  }

  lemma SameCurrent(s: Sm, t: Sm)
    requires SessionsCurrent(s) && t.sessions == s.sessions && t.clients.Keys == s.clients.Keys
    requires forall f :: f in s.clients ==> t.clients[f].sessionKey == s.clients[f].sessionKey
    ensures SessionsCurrent(t)
  {
    forall key | key in t.sessions
      ensures key != [] && t.sessions[key] in t.clients && t.clients[t.sessions[key]].sessionKey == key
    {
      var f := s.sessions[key];
      assert f in s.clients && t.clients[f].sessionKey == s.clients[f].sessionKey;
    }
  }

  lemma TopicsKeepCurrent(s: Sm, fd: Fd, sequence: u32, request: Request, t: Sm)
    requires fd in s.clients && InTopics(request) && SessionsCurrent(s)
    requires RespondsTopics(s, fd, sequence, request, t)
    ensures SessionsCurrent(t)
  {
    hide Shrinks;
    hide SessionsCurrent;
    hide Answered;
    hide Introduced;
    hide SentAsSelected;
    hide IsHash;
    hide ReachesSelectors;
    hide OffersFor;
    hide WantedOffers;
    hide Authoritative;
    hide MetSlot;
    hide MetSub;
    match request {
      case Publish(publication) =>
        if Shrinks(s, t, {}) {
          CurrentThrough(s, s, t, {});
        } else {
          var owner :| Publishes(s, fd, publication.value, owner, t);
          var info := Authoritative(publication.value.info, s.tabs.reg[owner].info);
          CurrentThrough(s, WithSlot(s, SlotFor(publication.value, owner), Slot(fd, info, publication.value.hash)), t,
                         OffersFor(s, publication.value.topic, info, publication.value.hash));
        }
      case SubscribeTopic(subscription) =>
        if subscription.None? {
          CurrentThrough(s, s, t, {});
        } else {
          var topic, sel := subscription.value.topic, subscription.value.sel;
          var added :| Shrinks(Subscribed(s, added, topic, sel, fd), t, WantedOffers(s.tabs.slots, fd, topic, sel));
          CurrentThrough(s, Subscribed(s, added, topic, sel, fd), t, WantedOffers(s.tabs.slots, fd, topic, sel));
        }
      case QueryTopics(_) => CurrentThrough(s, s, t, {});
      case _ => SameCurrent(s, t);
    }
  }

  lemma DiagKeepsCurrent(s: Sm, fd: Fd, sequence: u32, request: Request, config: SessionConfig, t: Sm)
    requires fd in s.clients && !InRegistry(request) && !InTopics(request) && SessionsCurrent(s) && SessionsOk(s)
    requires RespondsDiag(s, fd, sequence, request, config, t) && !Rekeys(s, Received(fd, sequence, request))
    ensures SessionsCurrent(t)
  {
    hide Shrinks;
    hide SessionsCurrent;
    hide SessionsOk;
    hide Answered;
    hide Commanded;
    hide Stopped;
    hide KeyFor;
    match request {
      case Greeting(hello) =>
        if GoodHello(hello) {
          var mid :| GreetsThrough(s, fd, sequence, hello.value, config, mid, t);
          GreetingKeepsCurrent(s, fd, sequence, hello.value, config, mid, t);
        } else {
          CurrentThrough(s, s, t, {});
        }
      case SetLogLevel(pid, level) =>
        if level.None? {
          CurrentThrough(s, s, t, {});
        } else {
          var mid, sent :| LevelsThrough(s, fd, sequence, pid, level.value, mid, sent, t);
          CurrentThrough(s, s, mid, {});
          if fd in mid.clients { CurrentThrough(mid, mid, t, {}); }
        }
      case WatchStart(target) =>
        if target.None? {
          CurrentThrough(s, s, t, {});
        } else {
          var mid, started :| StartsThrough(s, fd, sequence, target.value, mid, started, t);
          CurrentThrough(s, s, mid, {});
          if fd in mid.clients {
            CurrentThrough(mid, if started then WithPair(mid, PidFd(target.value, fd)) else mid, t, {});
          }
        }
      case WatchStop(target) =>
        var mid :| StopsThrough(s, fd, sequence, target, mid, t);
        if target.Some? && PidFd(target.value, fd) in s.tabs.wp {
          CurrentThrough(s, WithoutPair(s, PidFd(target.value, fd)), mid, {});
        }
        if fd in mid.clients { CurrentThrough(mid, mid, t, {}); }
      case Other =>
    }
  }

  lemma GreetingKeepsCurrent(s: Sm, fd: Fd, sequence: u32, h: Hello, config: SessionConfig, mid: Sm, t: Sm)
    requires fd in s.clients && SessionsCurrent(s) && SessionsOk(s)
    requires s.clients[fd].hello ==> s.clients[fd].sessionKey == KeyFor(h)
    requires GreetsThrough(s, fd, sequence, h, config, mid, t)
    ensures SessionsCurrent(t)
  {
    hide Answered;
    hide Purge;
    hide Extra;
    hide Buried;
    KeyNotEmpty(h);
    var o := Superseded(s, fd, h);
    if o.Some? { ShrinksKeepsCurrent(s, mid, {}); }
    if fd in mid.clients {
      assert mid.clients[fd].sessionKey == s.clients[fd].sessionKey by {
        if o.Some? { ConnKept(s, mid, fd); }
      }
      hide Shrinks;
      hide SupersededIn;
      assert SessionsCurrent(Greeted(mid, fd, h)) by { hide KeyFor; }
      ShrinksKeepsCurrent(Greeted(mid, fd, h), t, {});
    }
  }

  lemma KeyNotEmpty(h: Hello)
    ensures KeyFor(h) != []
  {
  }

  lemma ConnKept(s: Sm, t: Sm, f: Fd)
    requires Shrinks(s, t, {}) && f in t.clients
    ensures f in s.clients && t.clients[f] == s.clients[f].(out := t.clients[f].out)
  {
    hide Purge;
    hide PurgeSessions;
    hide Extra;
  }

  /** Any event but a hello under a second name keeps the session table current. */
  lemma NextKeepsCurrent(s: Sm, clean: bool, e: Event, config: SessionConfig, t: Sm)
    requires Inv(s, clean) && SessionsCurrent(s) && Next(s, e, config, t) && !Rekeys(s, e)
    ensures SessionsCurrent(t)
  {
    hide Shrinks;
    hide Buried;
    InvSessions(s, clean);
    hide Inv;
    match e {
      case Accepted(fd) => hide SessionsOk;
      case Received(fd, sequence, request) =>
        if fd in s.clients {
          hide SessionsCurrent;
          hide SessionsOk;
          hide RespondsRegistry;
          hide RespondsTopics;
          hide RespondsDiag;
          if InRegistry(request) {
            RegistryKeepsCurrent(s, fd, sequence, request, config, t);
          } else if InTopics(request) {
            TopicsKeepCurrent(s, fd, sequence, request, t);
          } else {
            DiagKeepsCurrent(s, fd, sequence, request, config, t);
          }
        }
      case _ => CurrentThrough(s, s, t, {});
    }
  }

  /** A hello under a second name, if its connection lives through it, leaves an
      entry over. */
  lemma RekeyLeavesOver(s: Sm, clean: bool, e: Event, config: SessionConfig, t: Sm)
    requires Inv(s, clean) && Next(s, e, config, t) && Rekeys(s, e) && e.fd in t.clients
    ensures var key := s.clients[e.fd].sessionKey;
            key in t.sessions && t.sessions[key] == e.fd && t.clients[e.fd].sessionKey != key
    ensures !SessionsCurrent(t)
  {
    InvSessions(s, clean);
    hide Inv;
    hide Answered;
    hide Extra;
    hide Purge;
    hide PurgeSessions;
    hide HelloAck;
    var fd, h, key := e.fd, e.request.hello.value, s.clients[e.fd].sessionKey;
    assert RespondsDiag(s, fd, e.sequence, e.request, config, t);
    var mid :| GreetsThrough(s, fd, e.sequence, h, config, mid, t);
    assert fd in mid.clients;
    EntryKept(s, fd, h, mid, key);
    hide SupersededIn;
    hide KeyFor;
    ShrinksKeepsEntry(Greeted(mid, fd, h), t, key);
    ConnKept(Greeted(mid, fd, h), t, fd);
  }

  lemma EntryKept(s: Sm, fd: Fd, h: Hello, mid: Sm, key: Str)
    requires SupersededIn(s, fd, h, mid) && fd in mid.clients && fd in s.clients
    requires key in s.sessions && s.sessions[key] == fd
    ensures key in mid.sessions && mid.sessions[key] == fd
  {
    hide Buried;
    hide Shrinks;
    if Superseded(s, fd, h).Some? { ShrinksKeepsEntry(s, mid, key); }
  }

  lemma ShrinksKeepsEntry(s: Sm, t: Sm, key: Str)
    requires Shrinks(s, t, {}) && key in s.sessions && s.sessions[key] in t.clients
    ensures key in t.sessions && t.sessions[key] == s.sessions[key]
  {
    hide Purge;
    hide Extra;
  }

  // ---- Whole runs ------------------------------------------------------------------------------

  ghost predicate NoneRekeys(trail: seq<Sm>, turns: seq<Turn>, n: nat)
    requires n < |trail| && n <= |turns|
  {
    forall i :: 0 <= i < n ==> !Rekeys(trail[i], turns[i].event)
  }

  /** In a run from the start in which no connection says hello under two names, no
      hello finds a leftover entry: it closes its own predecessor or nobody. */
  lemma {:induction false} RunKeepsCurrent(trail: seq<Sm>, turns: seq<Turn>, config: SessionConfig, n: nat)
    requires |trail| == |turns| + 1 && n <= |turns| && NoneRekeys(trail, turns, n) && SessionsCurrent(trail[0])
    requires forall i: nat :: i < |turns| ==> Next(trail[i], turns[i].event, config, trail[i + 1])
    requires forall i: nat :: i <= |turns| ==> Inv(trail[i], false)
    ensures SessionsCurrent(trail[n]) && forall f, h :: !Leftover(trail[n], f, h)
  {
    hide Next;
    hide Inv;
    hide Rekeys;
    if n > 0 {
      RunKeepsCurrent(trail, turns, config, n - 1);
      NextKeepsCurrent(trail[n - 1], false, turns[n - 1].event, config, trail[n]);
    }
  }

  lemma InvAnyway(s: Sm, clean: bool)
    requires Inv(s, clean)
    ensures Inv(s, false)
  {
  }

  /** The same of the service manager itself: from the start, through any events. */
  method RunFromStart(turns: seq<Turn>, config: SessionConfig) returns (sm: ServiceManager, ghost trail: seq<Sm>)
    requires forall turn :: turn in turns && turn.event.Accepted? ==> 0 <= turn.event.fd
    ensures sm.Sound() && |trail| == |turns| + 1 && trail[0] == EMPTY_SM && trail[|turns|] == sm.V()
    ensures forall n: nat :: n < |turns| ==> Next(trail[n], turns[n].event, config, trail[n + 1])
    ensures forall n: nat, f, h :: n <= |turns| && NoneRekeys(trail, turns, n) ==> !Leftover(trail[n], f, h)
  {
    hide ServiceManager.Sound;
    hide Next;
    hide Inv;
    hide Strands;
    hide Rekeys;
    hide Leftover;
    sm := Start();
    trail := Run(sm, turns, config);
    forall n: nat | n <= |turns|
      ensures Inv(trail[n], false)
    {
      InvAnyway(trail[n], NoneStrands(trail, turns, n));
    }
    forall n: nat, f, h | n <= |turns| && NoneRekeys(trail, turns, n)
      ensures !Leftover(trail[n], f, h)
    {
      RunKeepsCurrent(trail, turns, config, n);
    }
  }

  // ---- A run in which a stranger is closed --------------------------------------------------------

  /** Connection 1 is alone, and known by these keys. */
  ghost predicate Solo(s: Sm, keys: map<Str, Fd>, key: Str) {
    s.clients.Keys == {1} && s.sessions == keys && s.clients[1].hello && s.clients[1].sessionKey == key
  }

  lemma SoloHello(s: Sm, keys: map<Str, Fd>, h: Hello, mid: Sm, t: Sm)
    requires s.clients.Keys == {1} && s.sessions == keys && KeyFor(h) !in keys
    requires SupersededIn(s, 1, h, mid) && t.clients.Keys == {1}
    requires 1 in mid.clients ==> Shrinks(Greeted(mid, 1, h), t, {})
    ensures Solo(t, keys[KeyFor(h) := 1], KeyFor(h))
  {
    hide Shrinks;
    hide KeyFor;
    assert mid == s;
    NobodyDied(Greeted(s, 1, h), t, {});
  }

  lemma NobodyLeaves(s: Sm, f: Fd, h: Hello)
    requires KeyFor(h) !in s.sessions
    ensures Leaving(s, f, h) == {}
  {
  }

  lemma GoneLeavesOver(s: Sm, keys: map<Str, Fd>, key: Str, old': Str, t: Sm)
    requires Solo(s, keys, key) && old' in keys && keys[old'] == 1 && old' != key
    requires Shrinks(s, t, {}) && t.clients.Keys == {}
    ensures old' in t.sessions && t.sessions[old'] == 1
  {
    hide Purge;
    hide Extra;
  }

  /** Connection 1 says hello under two names and goes; another process gets its
      number; when the first runtime comes back on connection 2, the stranger is
      closed, although it never said hello. */
  method StrangerClosed(a: Hello, b: Hello, config: SessionConfig)
    returns (sm: ServiceManager, ghost before: Sm)
    requires GoodHello(Some(a)) && GoodHello(Some(b)) && KeyFor(a) != KeyFor(b)
    ensures sm.Sound() && sm.Smooth()
    ensures 1 in before.clients && !before.clients[1].hello && 1 !in sm.clients && 2 in sm.clients
  {
    hide ServiceManager.Sound;
    hide ServiceManager.Smooth;
    hide Shrinks;
    hide Buried;
    hide RuntimeName;
    hide KeyFor;
    hide Answered;
    hide SupersededIn;
    hide KnownAs;
    hide ClosesOwn;
    hide Silences;
    hide Leaving;
    hide Greeted;
    var ka, kb := KeyFor(a), KeyFor(b);
    sm := Start();
    Accept(sm, 1);
    ghost var s := sm.V();
    NobodyLeaves(s, 1, a);
    var one, mid := HandleHello(sm, 1, 0, Some(a), config);
    SoloHello(s, map[], a, mid, sm.V());
    s := sm.V();
    NobodyLeaves(s, 1, b);
    var two, mid2 := HandleHello(sm, 1, 1, Some(b), config);
    SoloHello(s, map[ka := 1], b, mid2, sm.V());
    s := sm.V();
    Disconnect(sm, 1);
    GoneLeavesOver(s, map[ka := 1][kb := 1], kb, ka, sm.V());
    Accept(sm, 1);
    Accept(sm, 2);
    before := sm.V();
    assert Leaving(before, 2, a) == {1} by { StrangerLeaves(before, a); }
    var three, mid3 := HandleHello(sm, 2, 0, Some(a), config);
  }

  lemma StrangerLeaves(s: Sm, h: Hello)
    requires KeyFor(h) in s.sessions && s.sessions[KeyFor(h)] == 1
    ensures Leaving(s, 2, h) == {1}
  {
  }
}

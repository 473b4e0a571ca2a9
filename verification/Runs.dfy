/** Whole runs of the service manager: any sequence of events, with every send
    free to fail (service_manager/service_manager_app.cpp).
  */
module Runs {
  import opened Base
  import opened Frames
  import opened Registry
  import opened Watching
  import opened TopicTables
  import opened TopicManagement
  import opened Outboxes
  import opened ControlPlane
  import opened Commands
  import opened Invariants
  import opened StateInvariant
  import opened ProcessTables
  import opened ServiceManagement
  import opened SessionTiming
  import opened RegistryHandlers
  import opened WatchHandlers
  import opened TopicHandlers
  import opened DiagHandlers
  import opened Transitions
  import PublishedTopics

  // ---- Connections come, drain and go -------------------------------------------------------

  lemma AcceptedInv(s: Sm, f: Fd, clean: bool)
    requires Inv(s, clean) && f !in s.clients && 0 <= f
    ensures var t := s.(clients := s.clients[f := NEW_CONN]); Inv(t, clean) && WatchersMirror(t)
  {
    var t := s.(clients := s.clients[f := NEW_CONN]);
    AcceptedReports(s, t, f, clean);
    AcceptedRendezvous(s, t, f);
    hide Rendezvous;
    hide SinceOk;
    hide OnlyWatched;
    hide ReportedOnline;
    hide NoStaleOnline;
  }

  lemma AcceptedReports(s: Sm, t: Sm, f: Fd, clean: bool)
    requires Inv(s, clean) && f !in s.clients && t == s.(clients := s.clients[f := NEW_CONN])
    ensures SinceOk(t) && OnlyWatched(t) && ReportedOnline(t) && (clean ==> NoStaleOnline(t))
  {
    hide GroupMatches;
    hide Rendezvous;
    assert forall k, key :: k in t.tabs.watches && k.fd in t.clients && k in t.since ==>
      k.fd in s.clients && LastTold(t, k, key) == LastTold(s, k, key);
    hide LastTold;
    assert forall key :: Told(s, key, true) ==> Told(t, key, true);
  }

  lemma AcceptedRendezvous(s: Sm, t: Sm, f: Fd)
    requires Live(s) && Rendezvous(s) && f !in s.clients && t == s.(clients := s.clients[f := NEW_CONN])
    ensures Rendezvous(t)
  {
    hide NotifyFits;
    hide Heard;
    forall slot: SlotId, sub: SubId | Meets(t, slot, sub) && sub.fd in t.clients
      ensures Knows(t, slot, sub)
    {
      assert Meets(s, slot, sub);
    }
  }

  lemma NewOutboxOk()
    ensures OutboxOk(EMPTY_OUTBOX)
  {
    assert Stream(WireFrames([])) == [];
  }

  /** onClientAccepted. */
  method Accept(sm: ServiceManager, fd: Fd)
    requires sm.Sound() && 0 <= fd
    modifies sm
    ensures sm.Sound() && sm.clean == old(sm.clean)
    ensures sm.V() == if fd in old(sm.clients) then old(sm.V())
                      else old(sm.V()).(clients := old(sm.clients)[fd := NEW_CONN])
    ensures old(sm.Smooth()) ==> sm.Smooth()
  {
    hide PidTableHolds;
    hide WatcherTableHolds;
    hide ServiceRegistry.Valid;
    hide WatchNotifier.Valid;
    hide TopicManager.Valid;
    hide TopicManager.ExactIndex;
    hide OutboxOk;
    hide PidsExact;
    hide WatchersMirror;
    hide SinceOk;
    hide Inv;
    if fd in sm.clients { return; }
    AcceptedInv(sm.V(), fd, sm.clean);
    InvMirrors(sm.V().(clients := sm.clients[fd := NEW_CONN]), sm.clean);
    NewOutboxOk();
    sm.clients := sm.clients[fd := NEW_CONN];
  }

  /** onClientDisconnected, and the deadlines of hello and session when they fire. */
  method Disconnect(sm: ServiceManager, fd: Fd)
    requires sm.Sound()
    modifies sm, sm.registry, sm.watchers, sm.topicManager
    ensures sm.Sound() && fd !in sm.clients && Shrinks(old(sm.V()), sm.V(), {}) && Buried(old(sm.V()), sm.V(), {})
    ensures fd !in old(sm.clients) ==> sm.V() == old(sm.V())
    ensures sm.clean == old(sm.clean) && Halted(old(sm.V()), sm.V())
    ensures old(sm.Smooth()) ==> sm.Smooth() && sm.clients.Keys == old(sm.clients.Keys) - {fd}
  {
    hide Shrinks;
    hide Buried;
    hide Halted;
    hide Inv;
    hide ServiceManager.Smooth;
    ghost var s := sm.V();
    sm.CloseClient(fd, true);
    CascadeInv(s, sm.V(), sm.clean, sm.clean);
  }

  lemma DrainedShrinks(s: Sm, f: Fd, out: Outbox)
    requires f in s.clients && out.frames == s.clients[f].out.frames
    ensures var t := s.(clients := s.clients[f := s.clients[f].(out := out)]);
            Shrinks(s, t, {}) && Buried(s, t, {})
  {
    hide Purge;
    var t := s.(clients := s.clients[f := s.clients[f].(out := out)]);
    assert t.clients.Keys == s.clients.Keys;
    assert s.clients.Keys - t.clients.Keys == {};
    PurgeNothing(s.tabs);
    assert PurgeSessions(s.clients, s.sessions, {}) == s.sessions;
  }

  /** The write event of onEndpointEvent. */
  method Writable(sm: ServiceManager, fd: Fd)
    requires sm.Sound()
    modifies sm, sm.registry, sm.watchers, sm.topicManager
    ensures sm.Sound() && Shrinks(old(sm.V()), sm.V(), {}) && sm.clean == old(sm.clean)
    ensures fd in sm.clients ==>
              && fd in old(sm.clients) && sm.clients[fd].out.frames == old(sm.clients)[fd].out.frames
              && old(sm.clients)[fd].out.taken <= sm.clients[fd].out.taken
    ensures fd !in old(sm.clients) ==> sm.V() == old(sm.V())
    ensures Buried(old(sm.V()), sm.V(), {}) && Halted(old(sm.V()), sm.V())
    ensures fd in old(sm.clients) ==>
              var o := old(sm.clients)[fd].out;
              && o.offset <= |o.buffer|
              && var f := Flushed(|Pending(o)|, old(sm.answers));
                 && (fd in sm.clients <==> f.ok)
                 && (f.ok ==> sm.answers == f.rest && |sm.clients[fd].out.taken| == |o.taken| + f.sent)
    ensures old(sm.answers) == [] ==> sm.answers == [] && sm.clients.Keys == old(sm.clients.Keys)
    ensures old(sm.answers) == [] && fd in sm.clients ==> !Backlogged(sm.clients[fd].out)
    ensures old(sm.Smooth()) ==> sm.Smooth()
  {
    hide ServiceManager.Objects;
    hide ServiceManager.OutboxesOk;
    hide ServiceManager.Smooth;
    hide PidsExact;
    hide WatchersMirror;
    hide SinceOk;
    hide Shrinks;
    hide Buried;
    hide Halted;
    hide Inv;
    hide Flushed;
    hide Backlogged;
    ghost var s, clean := sm.V(), sm.clean;
    ShrinksSame(s, {});
    BuriedSame(s, {});
    HaltedSame(s, s);
    if fd !in sm.clients { return; }
    var ok := sm.FlushSends(fd);
    if !ok {
      sm.CloseClient(fd, true);
      CascadeInv(s, sm.V(), clean, clean);
      return;
    }
    DrainedShrinks(s, fd, sm.clients[fd].out);
    HaltedSame(s, sm.V());
    CascadeInv(s, sm.V(), clean, clean);
    InvMirrors(sm.V(), clean);
  }

  /** Lookups, lists and the runtime list: one reply, which may be too large to
      send at all. */
  method HandleQuery(sm: ServiceManager, fd: Fd, mtype: PlainType, sequence: u32, body: Option<Bytes>)
    requires sm.Sound() && fd in sm.clients
    modifies sm, sm.registry, sm.watchers, sm.topicManager
    ensures sm.Sound() && Shrinks(old(sm.V()), sm.V(), {}) && sm.clean == old(sm.clean)
    ensures body.None? || !Sendable(Plain(mtype, sequence, body.value)) ==> sm.V() == old(sm.V())
    ensures body.Some? && Sendable(Plain(mtype, sequence, body.value)) ==>
              Answered(old(sm.V()), sm.V(), fd, Plain(mtype, sequence, body.value))
    ensures old(sm.Smooth()) ==> sm.Smooth() && sm.clients.Keys == old(sm.clients.Keys)
  {
    hide ServiceManager.Smooth;
    hide Shrinks;
    hide Sendable;
    hide Inv;
    hide Sent;
    hide Answered;
    ghost var s := sm.V();
    ShrinksSame(s, {});
    if body.None? || !Sendable(Plain(mtype, sequence, body.value)) { return; }
    sm.Reply(fd, mtype, sequence, body.value);
    SentLast(s, sm.V(), fd, Plain(mtype, sequence, body.value));
  }

  // ---- Runs -----------------------------------------------------------------------------------------

  /** dispatchMessage. */
  method Dispatch(sm: ServiceManager, fd: Fd, sequence: u32, request: Request, config: SessionConfig)
    requires sm.Sound() && fd in sm.clients
    modifies sm, sm.registry, sm.watchers, sm.topicManager
    ensures sm.Sound() && Responds(old(sm.V()), fd, sequence, request, config, sm.V())
    ensures sm.clean == (old(sm.clean) && !Strands(old(sm.V()), Received(fd, sequence, request), sm.V()))
    ensures old(sm.Smooth()) ==>
              sm.Smooth() && sm.clients.Keys == old(sm.clients.Keys) - Quits(old(sm.V()), fd, request)
  {
    hide ServiceManager.Smooth;
    hide Quits;
    hide ServiceManager.Sound;
    hide RespondsRegistry;
    hide RespondsTopics;
    hide RespondsDiag;
    hide Announced;
    hide Acceptable;
    hide GoodHello;
    hide Silences;
    if InRegistry(request) {
      DispatchRegistry(sm, fd, sequence, request, config);
    } else if InTopics(request) {
      DispatchTopics(sm, fd, sequence, request);
    } else {
      DispatchDiag(sm, fd, sequence, request, config);
    }
  }

  /** The requests that service_manager/sm_registry.cpp serves. */
  method DispatchRegistry(sm: ServiceManager, fd: Fd, sequence: u32, request: Request, config: SessionConfig)
    requires sm.Sound() && fd in sm.clients && InRegistry(request)
    modifies sm, sm.registry, sm.watchers, sm.topicManager
    ensures sm.Sound() && RespondsRegistry(old(sm.V()), fd, sequence, request, config, sm.V())
    ensures sm.clean == (old(sm.clean) && !StrandsByRegister(old(sm.V()), fd, request, sm.V()))
    ensures old(sm.Smooth()) ==>
              sm.Smooth() && sm.clients.Keys == old(sm.clients.Keys) - Quits(old(sm.V()), fd, request)
  {
    hide ServiceManager.Sound;
    hide ServiceManager.Smooth;
    hide ServiceManager.Unqueued;
    hide Shrinks;
    hide Answered;
    hide Told;
    hide Buried;
    hide Halted;
    hide TakesEffect;
    hide Announced;
    hide Snapped;
    hide LastSent;
    hide Unregistered;
    hide WithoutGroup;
    hide GoodFilters;
    hide Sendable;
    match request {
      case Register(info) =>
        var handle, _ := HandleRegister(sm, fd, sequence, info);
        assert RespondsRegistry(old(sm.V()), fd, sequence, request, config, sm.V());
      case Unregister(name) =>
        var gone := HandleUnregister(sm, fd, sequence, name);
        assert RespondsRegistry(old(sm.V()), fd, sequence, request, config, sm.V());
      case Heartbeat(incarnation) => HandleHeartbeat(sm, fd, sequence, incarnation, config.incarnation);
      case SubscribeWatch(id, filters) => var _ := HandleSubscribeWatch(sm, fd, sequence, id, filters);
      case UnsubscribeWatch(watch) => HandleUnsubscribeWatch(sm, fd, watch);
      case Query(mtype, body) => HandleQuery(sm, fd, mtype, sequence, body);
    }
  }

  method DispatchPublish(sm: ServiceManager, fd: Fd, sequence: u32, publication: Option<PublishRequest>)
    requires sm.Sound() && fd in sm.clients
    modifies sm, sm.registry, sm.watchers, sm.topicManager
    ensures sm.Sound() && RespondsTopics(old(sm.V()), fd, sequence, Publish(publication), sm.V())
    ensures sm.clean == old(sm.clean)
    ensures old(sm.Smooth()) ==>
              sm.Smooth() && sm.clients.Keys == old(sm.clients.Keys) - Quits(old(sm.V()), fd, Publish(publication))
  {
    hide ServiceManager.Sound;
    hide ServiceManager.Smooth;
    hide ServiceManager.Unqueued;
    hide Shrinks;
    hide Answered;
    hide Told;
    hide Buried;
    hide Halted;
    hide Introduced;
    hide SentAsSelected;
    hide Spread;
    hide ReachesSelectors;
    hide WithSlot;
    hide Subscribed;
    hide OffersFor;
    hide WantedOffers;
    hide CanSubscribe;
    hide IsHash;
    hide Authoritative;
    hide Published;
    hide PublishedTopics.StrictlySorted;
    hide PublishedTopics.ReplyBytes;
    hide PublishedTopics.DecodeReply;
    var ok, owner := HandlePublish(sm, fd, sequence, publication);
    assert ok ==> Publishes(old(sm.V()), fd, publication.value, owner.value, sm.V());
  }

  method DispatchSubscribe(sm: ServiceManager, fd: Fd, sequence: u32, subscription: Option<SubscribeRequest>)
    requires sm.Sound() && fd in sm.clients
    modifies sm, sm.registry, sm.watchers, sm.topicManager
    ensures sm.Sound() && RespondsTopics(old(sm.V()), fd, sequence, SubscribeTopic(subscription), sm.V())
    ensures sm.clean == old(sm.clean)
    ensures old(sm.Smooth()) ==>
              && sm.Smooth()
              && sm.clients.Keys == old(sm.clients.Keys) - Quits(old(sm.V()), fd, SubscribeTopic(subscription))
  {
    hide ServiceManager.Sound;
    hide ServiceManager.Smooth;
    hide ServiceManager.Unqueued;
    hide Shrinks;
    hide Answered;
    hide Told;
    hide Buried;
    hide Halted;
    hide Introduced;
    hide SentAsSelected;
    hide Spread;
    hide ReachesSelectors;
    hide WithSlot;
    hide Subscribed;
    hide OffersFor;
    hide WantedOffers;
    hide CanSubscribe;
    hide IsHash;
    hide Authoritative;
    hide Published;
    hide PublishedTopics.StrictlySorted;
    hide PublishedTopics.ReplyBytes;
    hide PublishedTopics.DecodeReply;
    var added, hash := HandleSubscribeTopic(sm, fd, sequence, subscription);
  }

  /** The requests that service_manager/sm_topic.cpp serves. */
  method DispatchTopics(sm: ServiceManager, fd: Fd, sequence: u32, request: Request)
    requires sm.Sound() && fd in sm.clients && InTopics(request)
    modifies sm, sm.registry, sm.watchers, sm.topicManager
    ensures sm.Sound() && RespondsTopics(old(sm.V()), fd, sequence, request, sm.V())
    ensures sm.clean == old(sm.clean)
    ensures old(sm.Smooth()) ==>
              sm.Smooth() && sm.clients.Keys == old(sm.clients.Keys) - Quits(old(sm.V()), fd, request)
  {
    hide ServiceManager.Sound;
    hide ServiceManager.Smooth;
    hide ServiceManager.Unqueued;
    hide Shrinks;
    hide Answered;
    hide Told;
    hide Buried;
    hide Halted;
    hide Introduced;
    hide SentAsSelected;
    hide Spread;
    hide ReachesSelectors;
    hide WithSlot;
    hide Subscribed;
    hide OffersFor;
    hide WantedOffers;
    hide CanSubscribe;
    hide IsHash;
    hide Authoritative;
    hide Published;
    hide PublishedTopics.StrictlySorted;
    hide PublishedTopics.ReplyBytes;
    hide PublishedTopics.DecodeReply;
    match request {
      case Publish(publication) =>
        DispatchPublish(sm, fd, sequence, publication);
      case Unpublish(topic) => HandleUnpublish(sm, fd, topic);
      case SubscribeTopic(subscription) => DispatchSubscribe(sm, fd, sequence, subscription);
      case UnsubscribeTopic(subscription) => HandleUnsubscribeTopic(sm, fd, subscription);
      case QueryTopics(name) => var _ := HandleQueryTopics(sm, fd, sequence, name);
    }
  }

  /** The requests that service_manager/sm_diag.cpp serves, and the unknown ones. */
  method DispatchDiag(sm: ServiceManager, fd: Fd, sequence: u32, request: Request, config: SessionConfig)
    requires sm.Sound() && fd in sm.clients && !InRegistry(request) && !InTopics(request)
    modifies sm, sm.registry, sm.watchers, sm.topicManager
    ensures sm.Sound() && RespondsDiag(old(sm.V()), fd, sequence, request, config, sm.V())
    ensures sm.clean == (old(sm.clean) && !StrandsByHello(old(sm.V()), fd, request))
    ensures old(sm.Smooth()) ==>
              sm.Smooth() && sm.clients.Keys == old(sm.clients.Keys) - Quits(old(sm.V()), fd, request)
  {
    hide ServiceManager.Sound;
    hide ServiceManager.Smooth;
    hide ServiceManager.Unqueued;
    hide Shrinks;
    hide Answered;
    hide Told;
    hide Buried;
    hide Halted;
    hide Silences;
    hide GoodHello;
    hide SupersededIn;
    hide Commanded;
    hide Stopped;
    hide Greeted;
    hide WithPair;
    hide WithoutPair;
    hide KnownAs;
    hide ClosesOwn;
    hide Leftover;
    match request {
      case Greeting(hello) =>
        var accepted, mid := HandleHello(sm, fd, sequence, hello, config);
        HelloDone(old(sm.V()), fd, sequence, hello, config, accepted, mid, sm.V());
      case SetLogLevel(pid, level) =>
        var sent, mid := HandleSetLogLevel(sm, fd, sequence, pid, level);
        assert level.Some? ==> LevelsThrough(old(sm.V()), fd, sequence, pid, level.value, mid, sent, sm.V());
      case WatchStart(target) =>
        var started, mid := HandleWatchStart(sm, fd, sequence, target);
        assert target.Some? ==> StartsThrough(old(sm.V()), fd, sequence, target.value, mid, started, sm.V());
      case WatchStop(target) =>
        ghost var mid := HandleWatchStop(sm, fd, sequence, target);
        assert StopsThrough(old(sm.V()), fd, sequence, target, mid, sm.V());
      case Other =>
    }
  }

  lemma HelloDone(s: Sm, fd: Fd, sequence: u32, hello: Option<Hello>, config: SessionConfig, accepted: bool, mid: Sm,
                  t: Sm)
    requires accepted <==>
               && fd in mid.clients && hello.Some? && hello.value.pid != 0
               && hello.value.version == SESSION_PROTOCOL_VERSION && |hello.value.hostId| <= MAX_NAME_LENGTH
               && |RuntimeName(hello.value)| <= MAX_NAME_LENGTH
    requires GoodHello(hello) ==> SupersededIn(s, fd, hello.value, mid) && (!accepted ==> t == mid)
    requires accepted ==>
               && Shrinks(Greeted(mid, fd, hello.value), t, {})
               && Answered(mid, t, fd, Plain(MSG_RUNTIME_HELLO_REPLY, sequence,
                    HelloAck(hello.value.interval, hello.value.timeout, config)))
    ensures GoodHello(hello) ==> GreetsThrough(s, fd, sequence, hello.value, config, mid, t)
  {
    hide SupersededIn;
    hide Shrinks;
    hide Answered;
    hide Greeted;
    hide RuntimeName;
  }

  /** The transport's answers for what follows. */
  method SetAnswers(sm: ServiceManager, answers: seq<int>)
    requires sm.Sound()
    modifies sm`answers
    ensures sm.Sound() && sm.answers == answers && (answers == [] && old(sm.Unqueued()) ==> sm.Smooth())
  {
    hide ServiceManager.OutboxesOk;
    hide PidTableHolds;
    hide WatcherTableHolds;
    hide ServiceRegistry.Valid;
    hide WatchNotifier.Valid;
    hide TopicManager.Valid;
    hide TopicManager.ExactIndex;
    hide PidsExact;
    hide WatchersMirror;
    hide SinceOk;
    hide Inv;
    sm.answers := answers;
  }

  /** One event does what the event relation says and keeps the invariant; what
      watchers were told goes stale only in the two ways known. */
  method Step(sm: ServiceManager, turn: Turn, config: SessionConfig)
    requires sm.Sound() && (turn.event.Accepted? ==> 0 <= turn.event.fd)
    modifies sm, sm.registry, sm.watchers, sm.topicManager
    ensures sm.Sound() && Next(old(sm.V()), turn.event, config, sm.V())
    ensures sm.clean == (old(sm.clean) && !Strands(old(sm.V()), turn.event, sm.V()))
    ensures turn.answers == [] && old(sm.Unqueued()) ==>
              sm.Unqueued() && sm.V().clients.Keys == Present(old(sm.V()), turn.event)
  {
    hide ServiceManager.Sound;
    hide Quits;
    hide ServiceManager.Smooth;
    hide ServiceManager.Unqueued;
    hide Shrinks;
    hide Buried;
    hide Halted;
    hide Responds;
    hide StrandsByRegister;
    hide StrandsByHello;
    SetAnswers(sm, turn.answers);
    match turn.event {
      case Accepted(fd) => Accept(sm, fd);
      case Disconnected(fd) => Disconnect(sm, fd);
      case CanWrite(fd) => Writable(sm, fd);
      case Deadline(fd) => Disconnect(sm, fd);
      case Received(fd, sequence, request) =>
        if fd in sm.clients { Dispatch(sm, fd, sequence, request, config); }
    }
    SmoothIsUnqueued(sm);
  }

  lemma SmoothIsUnqueued(sm: ServiceManager)
    ensures sm.Smooth() ==> sm.Unqueued()
  {
    hide ServiceManager.Unqueued;
  }

  method Start() returns (sm: ServiceManager)
    ensures fresh(sm) && fresh(sm.registry) && fresh(sm.watchers) && fresh(sm.topicManager)
    ensures sm.Sound() && sm.clean && sm.Smooth() && sm.V() == EMPTY_SM
  {
    hide Inv;
    hide ServiceManager.Ready;
    sm := new ServiceManager();
    EmptyInv();
  }

  /** No event so far left watchers with stale news. */
  ghost predicate NoneStrands(trail: seq<Sm>, turns: seq<Turn>, n: nat)
    requires n < |trail| && n <= |turns|
  {
    forall i :: 0 <= i < n ==> !Strands(trail[i], turns[i].event, trail[i + 1])
  }

  /** After any sequence of events, however the transport answers, the invariant
      holds, as it did after every event before.  `trail` lists the states in
      between; watchers are told the truth as long as no event strands them. */
  method Run(sm: ServiceManager, turns: seq<Turn>, config: SessionConfig) returns (ghost trail: seq<Sm>)
    requires sm.Sound() && forall turn :: turn in turns && turn.event.Accepted? ==> 0 <= turn.event.fd
    modifies sm, sm.registry, sm.watchers, sm.topicManager
    ensures sm.Sound() && |trail| == |turns| + 1 && trail[0] == old(sm.V()) && trail[|turns|] == sm.V()
    ensures forall n: nat :: n <= |turns| ==> Inv(trail[n], old(sm.clean) && NoneStrands(trail, turns, n))
    ensures forall n: nat :: n < |turns| ==> Next(trail[n], turns[n].event, config, trail[n + 1])
    ensures sm.clean == (old(sm.clean) && NoneStrands(trail, turns, |turns|))
    ensures old(sm.Unqueued()) && (forall turn :: turn in turns ==> turn.answers == []) ==>
              forall n: nat :: n < |turns| ==> trail[n + 1].clients.Keys == Present(trail[n], turns[n].event)
  {
    hide *;
    trail := [sm.V()];
    ghost var clean, calm := sm.clean, sm.Unqueued() && forall turn :: turn in turns ==> turn.answers == [];
    SoundInv(sm);
    TrailBegins(sm.V(), turns, config, clean, calm);
    for i := 0 to |turns|
      invariant sm.Sound() && |trail| == i + 1 && trail[0] == old(sm.V()) && trail[i] == sm.V()
      invariant Follows(trail, turns, config, clean, calm, i) && (calm ==> sm.Unqueued())
      invariant sm.clean == (clean && NoneStrands(trail, turns, i))
    {
      Step(sm, turns[i], config);
      SoundInv(sm);
      TrailGrows(trail, sm.V(), turns, config, clean, calm, i);
      trail := trail + [sm.V()];
    }
    TrailTold(trail, turns, config, clean, calm);
  }

  /** The first `i` turns led along the trail. */
  ghost predicate Follows(trail: seq<Sm>, turns: seq<Turn>, config: SessionConfig, clean: bool, calm: bool, i: nat) {
    && |trail| == i + 1 && i <= |turns|
    && (forall n: nat :: n <= i ==> Inv(trail[n], clean && NoneStrands(trail, turns, n)))
    && (forall n: nat :: n < i ==> Next(trail[n], turns[n].event, config, trail[n + 1]))
    && (calm ==> forall n: nat :: n < i ==> trail[n + 1].clients.Keys == Present(trail[n], turns[n].event))
  }

  lemma TrailBegins(s: Sm, turns: seq<Turn>, config: SessionConfig, clean: bool, calm: bool)
    requires Inv(s, clean)
    ensures Follows([s], turns, config, clean, calm, 0) && NoneStrands([s], turns, 0)
  {
    hide Inv;
    hide Next;
    hide Present;
    hide Strands;
  }

  lemma TrailGrows(trail: seq<Sm>, t: Sm, turns: seq<Turn>, config: SessionConfig, clean: bool, calm: bool, i: nat)
    requires Follows(trail, turns, config, clean, calm, i) && i < |turns|
    requires Next(trail[i], turns[i].event, config, t)
    requires var fine := !Strands(trail[i], turns[i].event, t);
             Inv(t, clean && NoneStrands(trail, turns, i) && fine)
    requires calm ==> t.clients.Keys == Present(trail[i], turns[i].event)
    ensures Follows(trail + [t], turns, config, clean, calm, i + 1)
    ensures NoneStrands(trail + [t], turns, i + 1)
       <==> NoneStrands(trail, turns, i) && !Strands(trail[i], turns[i].event, t)
  {
    hide Inv;
    hide Next;
    hide Present;
    hide Strands;
    var longer := trail + [t];
    forall n: nat | n <= i
      ensures NoneStrands(longer, turns, n) <==> NoneStrands(trail, turns, n)
    {
      NoneStrandsBefore(trail, t, turns, n);
    }
    assert longer[i] == trail[i] && longer[i + 1] == t;
  }

  lemma TrailTold(trail: seq<Sm>, turns: seq<Turn>, config: SessionConfig, clean: bool, calm: bool)
    requires Follows(trail, turns, config, clean, calm, |turns|)
    ensures |trail| == |turns| + 1
    ensures forall n: nat :: n <= |turns| ==> Inv(trail[n], clean && NoneStrands(trail, turns, n))
    ensures forall n: nat :: n < |turns| ==> Next(trail[n], turns[n].event, config, trail[n + 1])
    ensures calm ==> forall n: nat :: n < |turns| ==> trail[n + 1].clients.Keys == Present(trail[n], turns[n].event)
  {
    hide Inv;
    hide Next;
    hide Present;
    hide Strands;
  }

  lemma NoneStrandsBefore(trail: seq<Sm>, next: Sm, turns: seq<Turn>, n: nat)
    requires n < |trail| && n <= |turns|
    ensures NoneStrands(trail + [next], turns, n) <==> NoneStrands(trail, turns, n)
  {
    hide Strands;
    assert forall i :: 0 <= i <= n ==> (trail + [next])[i] == trail[i];
  }

  lemma SoundInv(sm: ServiceManager)
    requires sm.Sound()
    ensures Inv(sm.V(), sm.clean)
  {
    hide Inv;
  }

  lemma EmptyInv()
    ensures Inv(EMPTY_SM, true)
  {
  }
}

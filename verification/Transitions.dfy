/** The events of the service manager as a relation between the states before and
    after: what each request does, whatever sends fail on the way
    (service_manager/service_manager_app.cpp dispatchMessage).
  */
module Transitions {
  import opened Base
  import opened Wire
  import opened ServiceCodec
  import opened Registry
  import opened Watching
  import opened TopicTables
  import opened TopicState
  import opened TopicManagement
  import opened Outboxes
  import opened ControlPlane
  import opened Commands
  import opened Invariants
  import opened SessionTiming
  import opened RegistryHandlers
  import opened WatchHandlers
  import opened TopicHandlers
  import opened DiagHandlers
  import PublishedTopics

  const NEW_CONN: Conn := Conn(false, 0, [], [], [], 0, EMPTY_OUTBOX)

  /** A decoded request, as dispatchMessage tells them apart. */
  datatype Request =
    | Register(info: Option<ServiceInfo>)
    | Unregister(name: Option<Str>)
    | Heartbeat(incarnation: Option<u32>)
    | SubscribeWatch(id: u64, filters: Option<seq<WatchFilter>>)
    | UnsubscribeWatch(watch: Option<u64>)
    | Publish(publication: Option<PublishRequest>)
    | Unpublish(topic: Option<Str>)
    | SubscribeTopic(subscription: Option<SubscribeRequest>)
    | UnsubscribeTopic(subscription: Option<SubscribeRequest>)
    | QueryTopics(name: Option<Str>)
    | Greeting(hello: Option<Hello>)
    | SetLogLevel(pid: Pid, level: Option<u32>)
    | WatchStart(target: Option<Pid>)
    | WatchStop(target: Option<Pid>)
    | Query(mtype: PlainType, body: Option<Bytes>)
    | Other

  /** What reaches the event loop.  A deadline is any hello or session timer that
      closes its connection. */
  datatype Event =
    | Accepted(fd: Fd)
    | Disconnected(fd: Fd)
    | CanWrite(fd: Fd)
    | Deadline(fd: Fd)
    | Received(fd: Fd, sequence: u32, request: Request)

  /** One turn of the event loop: what happened, and what the transport answers
      to the sends it leads to. */
  datatype Turn = Turn(event: Event, answers: seq<int>)

  /** The two ways in which an event leaves watchers with stale news: an accepted
      registration is announced although its requester was closed meanwhile, or
      a process that reconnects has its old connection's services removed
      without notice. */
  ghost predicate Strands(s: Sm, e: Event, t: Sm) {
    e.Received? && e.fd in s.clients && (StrandsByRegister(s, e.fd, e.request, t) || StrandsByHello(s, e.fd, e.request))
  }

  ghost predicate StrandsByRegister(s: Sm, fd: Fd, request: Request, t: Sm)
    requires fd in s.clients
  {
    && request.Register? && request.info.Some? && s.clients[fd].hello && Acceptable(request.info.value)
    && Announced(s, request.info.value, fd) && fd !in t.clients
  }

  ghost predicate StrandsByHello(s: Sm, fd: Fd, request: Request) {
    request.Greeting? && GoodHello(request.hello) && Silences(s, fd, request.hello.value)
  }

  predicate InRegistry(request: Request) {
    || request.Register? || request.Unregister? || request.Heartbeat? || request.SubscribeWatch?
    || request.UnsubscribeWatch? || request.Query?
  }

  predicate InTopics(request: Request) {
    || request.Publish? || request.Unpublish? || request.SubscribeTopic? || request.UnsubscribeTopic?
    || request.QueryTopics?
  }

  ghost predicate Responds(s: Sm, fd: Fd, sequence: u32, request: Request, config: SessionConfig, t: Sm)
    requires fd in s.clients
  {
    if InRegistry(request) then RespondsRegistry(s, fd, sequence, request, config, t)
    else if InTopics(request) then RespondsTopics(s, fd, sequence, request, t)
    else RespondsDiag(s, fd, sequence, request, config, t)
  }

  ghost predicate RespondsRegistry(s: Sm, fd: Fd, sequence: u32, request: Request, config: SessionConfig, t: Sm)
    requires fd in s.clients && InRegistry(request)
  {
    match request
    case Register(info) =>
      if s.clients[fd].hello && info.Some? && Acceptable(info.value) then
        exists handle: u32 ::
          && handle != INVALID_HANDLE && TakesEffect(s, ServiceEntry(info.value, handle, fd), t)
          && Answered(s, t, fd, Plain(MSG_REGISTER_REPLY, sequence, Le32(handle)))
      else
        Shrinks(s, t, {}) && Answered(s, t, fd, Plain(MSG_REGISTER_REPLY, sequence, Le32(INVALID_HANDLE)))
    case Unregister(name) =>
      if name.Some? && exists id :: OwnsNamed(s.tabs.reg, id, name.value, fd) then
        exists id ::
          && OwnsNamed(s.tabs.reg, id, name.value, fd)
          && Shrinks(Unregistered(s, id, fd), t, {Says(id, false)}) && Told(t, id, false)
          && (fd in t.clients ==> LastSent(t, fd, Plain(MSG_UNREGISTER_REPLY, sequence, [BoolByte(true)])))
      else
        && Shrinks(s, t, {})
        && (fd in t.clients ==> LastSent(t, fd, Plain(MSG_UNREGISTER_REPLY, sequence, [BoolByte(false)])))
    case Heartbeat(incarnation) =>
      && Shrinks(s, t, {}) && Buried(s, t, {})
      && (!s.clients[fd].hello || incarnation != Some(s.clients[fd].incarnation) ==> fd !in t.clients)
      && Answered(s, t, fd, Plain(MSG_CONTROL_HEARTBEAT_ACK, sequence, Le32(config.incarnation)))
    case SubscribeWatch(id, filters) =>
      if fd in t.clients && id != 0 && filters.Some? && GoodFilters(filters.value)
         && WatchKey(fd, id) !in s.tabs.watches then
        exists snaps :: Snapped(s, t, WatchKey(fd, id), filters.value,
          Plain(MSG_SUBSCRIBE_SERVICE_WATCH_REPLY, sequence, [BoolByte(true)]), snaps)
      else
        && Shrinks(s, t, {})
        && (fd in t.clients ==>
              Answered(s, t, fd, Plain(MSG_SUBSCRIBE_SERVICE_WATCH_REPLY, sequence, [BoolByte(false)])))
    case UnsubscribeWatch(watch) =>
      t == if watch.Some? && watch.value != 0 then WithoutGroup(s, WatchKey(fd, watch.value)) else s
    case Query(mtype, body) =>
      && Shrinks(s, t, {})
      && (if body.Some? && Sendable(Plain(mtype, sequence, body.value))
          then Answered(s, t, fd, Plain(mtype, sequence, body.value)) else t == s)
  }

  ghost predicate RespondsTopics(s: Sm, fd: Fd, sequence: u32, request: Request, t: Sm)
    requires fd in s.clients && InTopics(request)
  {
    match request
    case Publish(publication) =>
      || (&& Shrinks(s, t, {})
          && Answered(s, t, fd, Plain(MSG_PUBLISH_TOPIC_REPLY, sequence, [BoolByte(false)])))
      || (&& WellFormed(publication)
          && Answered(s, t, fd, Plain(MSG_PUBLISH_TOPIC_REPLY, sequence, [BoolByte(true)]))
          && exists owner :: Publishes(s, fd, publication.value, owner, t))
    case Unpublish(topic) =>
      t == if topic.Some? && ValidTopic(topic.value)
           then s.(tabs := s.tabs.(slots := SlotsOfOthers(s.tabs.slots, topic.value, fd))) else s
    case SubscribeTopic(subscription) =>
      if subscription.None? then
        Shrinks(s, t, {}) && Answered(s, t, fd, SubscribeReply(sequence, false, 0))
      else
        var topic, sel := subscription.value.topic, subscription.value.sel;
        && SentAsSelected(s, t, fd, topic, sel)
        && exists added, hash ::
             && IsHash(s.tabs.slots, topic, sel, hash)
             && Introduced(s, t, fd, SubscribeReply(sequence, added, hash), topic, sel)
             && Shrinks(Subscribed(s, added, topic, sel, fd), t, WantedOffers(s.tabs.slots, fd, topic, sel))
    case UnsubscribeTopic(subscription) =>
      t == if subscription.Some? then
             var id := SubFor(subscription.value.topic, subscription.value.sel, fd);
             s.(tabs := s.tabs.(subs := s.tabs.subs - {id}))
           else s
    case QueryTopics(name) =>
      && Shrinks(s, t, {})
      && exists reply ::
           && Reports(s, name, reply)
           && Answered(s, t, fd,
                Plain(MSG_QUERY_PUBLISHED_TOPICS_REPLY, sequence, PublishedTopics.ReplyBytes(reply)))
  }

  /** The sorted list of what the service publishes, if it is registered. */
  ghost predicate Reports(s: Sm, name: Option<Str>, reply: PublishedTopics.TopicsReply) {
    && PublishedTopics.StrictlySorted(reply.topics)
    && (reply.found <==> name.Some? && 0 < |name.value| <= MAX_NAME_LENGTH
                         && exists id :: id in s.tabs.reg && id.name == name.value)
    && (reply.found ==> forall x :: x in reply.topics <==> x in Published(s.tabs.slots, name.value))
  }

  /** The connection publishes for the instance it owns. */
  ghost predicate Publishes(s: Sm, fd: Fd, request: PublishRequest, owner: Ident, t: Sm) {
    && OwnsNamed(s.tabs.reg, owner, request.info.name, fd)
    && var info := Authoritative(request.info, s.tabs.reg[owner].info);
       && Shrinks(WithSlot(s, SlotFor(request, owner), Slot(fd, info, request.hash)), t,
                  OffersFor(s, request.topic, info, request.hash))
       && ReachesSelectors(s, t, request.topic, info, request.hash)
  }

  ghost predicate RespondsDiag(s: Sm, fd: Fd, sequence: u32, request: Request, config: SessionConfig, t: Sm)
    requires fd in s.clients && !InRegistry(request) && !InTopics(request)
  {
    match request
    case Greeting(hello) =>
      if GoodHello(hello) then exists mid :: GreetsThrough(s, fd, sequence, hello.value, config, mid, t)
      else
        Shrinks(s, t, {}) && Answered(s, t, fd, Plain(MSG_RUNTIME_HELLO_REPLY, sequence, RejectAck(config)))
    case SetLogLevel(pid, level) =>
      if level.None? then
        Shrinks(s, t, {}) && Answered(s, t, fd, Plain(MSG_DIAG_SET_LOG_LEVEL_REPLY, sequence, [BoolByte(false)]))
      else exists mid, sent :: LevelsThrough(s, fd, sequence, pid, level.value, mid, sent, t)
    case WatchStart(target) =>
      if target.None? then
        Shrinks(s, t, {}) && Answered(s, t, fd, Plain(MSG_DIAG_WATCH_START_REPLY, sequence, [BoolByte(false)]))
      else exists mid, started :: StartsThrough(s, fd, sequence, target.value, mid, started, t)
    case WatchStop(target) => exists mid :: StopsThrough(s, fd, sequence, target, mid, t)
    case Other => t == s
  }

  /** An acceptable hello, by way of the state after supersession. */
  ghost predicate GreetsThrough(s: Sm, fd: Fd, sequence: u32, h: Hello, config: SessionConfig, mid: Sm, t: Sm) {
    && SupersededIn(s, fd, h, mid)
    && (if fd in mid.clients then
          && Shrinks(Greeted(mid, fd, h), t, {})
          && Answered(mid, t, fd, Plain(MSG_RUNTIME_HELLO_REPLY, sequence, HelloAck(h.interval, h.timeout, config)))
        else t == mid)
  }

  /** By way of the state after the command was sent to the process. */
  ghost predicate LevelsThrough(s: Sm, fd: Fd, sequence: u32, pid: Pid, level: u32, mid: Sm, sent: bool, t: Sm) {
    && Shrinks(s, mid, {}) && Commanded(s, mid, pid, fd, MSG_DIAG_SET_LOG_LEVEL, Le32(level))
    && (if fd in mid.clients then
          && Shrinks(mid, t, {})
          && Answered(mid, t, fd, Plain(MSG_DIAG_SET_LOG_LEVEL_REPLY, sequence, [BoolByte(sent)]))
        else t == mid)
  }

  ghost predicate StartsThrough(s: Sm, fd: Fd, sequence: u32, pid: Pid, mid: Sm, started: bool, t: Sm) {
    && Shrinks(s, mid, {}) && Commanded(s, mid, pid, fd, MSG_DIAG_WATCH_START, [])
    && (if fd in mid.clients then
          && Shrinks(if started then WithPair(mid, PidFd(pid, fd)) else mid, t, {})
          && Answered(mid, t, fd, Plain(MSG_DIAG_WATCH_START_REPLY, sequence, [BoolByte(started)]))
        else t == mid)
  }

  ghost predicate StopsThrough(s: Sm, fd: Fd, sequence: u32, target: Option<Pid>, mid: Sm, t: Sm) {
    && (if target.Some? && PidFd(target.value, fd) in s.tabs.wp then
          Shrinks(WithoutPair(s, PidFd(target.value, fd)), mid, {}) && Stopped(s, mid, target.value, fd)
        else mid == s)
    && (if fd in mid.clients then
          && Shrinks(mid, t, {})
          && Answered(mid, t, fd, Plain(MSG_DIAG_WATCH_STOP_REPLY, sequence, [BoolByte(target.Some?)]))
        else t == mid)
  }

  /** What an event may do. */
  ghost predicate Next(s: Sm, e: Event, config: SessionConfig, t: Sm) {
    match e
    case Accepted(fd) => t == if fd in s.clients then s else s.(clients := s.clients[fd := NEW_CONN])
    case CanWrite(fd) =>
      && Shrinks(s, t, {}) && Buried(s, t, {}) && Halted(s, t)
      && (fd !in s.clients ==> t == s)
      && (fd in t.clients ==> fd in s.clients && t.clients[fd].out.frames == s.clients[fd].out.frames)
    case Received(fd, sequence, request) =>
      if fd in s.clients then Responds(s, fd, sequence, request, config, t) else t == s
    case _ =>
      && e.fd !in t.clients && Shrinks(s, t, {}) && Buried(s, t, {}) && Halted(s, t)
      && (e.fd !in s.clients ==> t == s)
  }

  // ---- Who leaves -----------------------------------------------------------------------------------

  /** The connection that loses its last instance to this registration. */
  ghost function Ousted(s: Sm, fd: Fd, info: ServiceInfo): set<Fd> {
    var key := KeyOf(info);
    if key in s.tabs.reg && s.tabs.reg[key].fd != fd && !OwnsBesides(s, s.tabs.reg[key].fd, key)
    then {s.tabs.reg[key].fd} else {}
  }

  /** Whom a request closes although every send succeeds. */
  ghost function Quits(s: Sm, fd: Fd, request: Request): set<Fd>
    requires fd in s.clients
  {
    match request
    case Heartbeat(incarnation) =>
      if s.clients[fd].hello && incarnation == Some(s.clients[fd].incarnation) then {} else {fd}
    case Register(info) =>
      if s.clients[fd].hello && info.Some? && Acceptable(info.value) then Ousted(s, fd, info.value) else {}
    case Greeting(hello) => if GoodHello(hello) then Leaving(s, fd, hello.value) else {}
    case _ => {}
  }

  /** Who is there after an event in which every send succeeds. */
  ghost function Present(s: Sm, e: Event): set<Fd> {
    match e
    case Accepted(fd) => s.clients.Keys + {fd}
    case CanWrite(_) => s.clients.Keys
    case Received(fd, _, request) => s.clients.Keys - if fd in s.clients then Quits(s, fd, request) else {}
    case _ => s.clients.Keys - {e.fd}
  }
}

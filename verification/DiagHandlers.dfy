/** The handlers of service_manager/sm_diag.cpp: session hello and diagnostic
    watches.  Requests arrive decoded; None stands for a payload that does not
    decode.
  */
module DiagHandlers {
  import opened Base
  import opened TopicKeys
  import opened Wire
  import opened Registry
  import opened Watching
  import opened TopicTables
  import opened TopicManagement
  import opened Outboxes
  import opened ControlPlane
  import opened Commands
  import opened Invariants
  import opened Closing
  import opened StateInvariant
  import opened ProcessTables
  import opened ServiceManagement
  import opened SessionTiming

  const MSG_RUNTIME_HELLO_REPLY: PlainType := 0x0041
  const MSG_DIAG_SET_LOG_LEVEL: PlainType := 0x0042
  const MSG_DIAG_SET_LOG_LEVEL_REPLY: PlainType := 0x0043
  const MSG_DIAG_WATCH_START_REPLY: PlainType := 0x0045
  const MSG_DIAG_WATCH_STOP_REPLY: PlainType := 0x0047

  // ---- Hello --------------------------------------------------------------------------------

  datatype Hello = Hello(
    pid: Pid, version: u32, hostId: Str, runtimeId: Str, processName: Str, incarnation: u32,
    interval: u32, timeout: u32)

  /** "runtime-" in ASCII. */
  const RUNTIME_PREFIX: Str := [114, 117, 110, 116, 105, 109, 101, 45]

  /** The runtime's name: its own, else its process's, else one made of the pid. */
  function RuntimeName(h: Hello): Str {
    if h.runtimeId != [] then h.runtimeId
    else if h.processName != [] then h.processName
    else RUNTIME_PREFIX + Decimal(h.pid)
  }

  function KeyFor(h: Hello): Str {
    SessionKey(h.hostId, RuntimeName(h))
  }

  /** The key tells runtimes apart as long as no name holds the separator byte. */
  lemma KeyForIff(a: Hello, b: Hello)
    requires Unambiguous(a)
    ensures KeyFor(a) == KeyFor(b) <==> a.hostId == b.hostId && RuntimeName(a) == RuntimeName(b)
  {
    if KeyFor(a) == KeyFor(b) {
      SessionKeyUnambiguous(a.hostId, RuntimeName(a), b.hostId, RuntimeName(b));
    }
  }

  predicate Unambiguous(h: Hello) {
    UNIT_SEPARATOR !in h.hostId && UNIT_SEPARATOR !in RuntimeName(h)
  }

  /** Runtimes without any name of their own go by their process. */
  lemma NamelessIff(a: Hello, b: Hello)
    requires a.runtimeId == [] && a.processName == [] && b.runtimeId == [] && b.processName == []
    ensures RuntimeName(a) == RuntimeName(b) <==> a.pid == b.pid
  {
    if RuntimeName(a) == RuntimeName(b) {
      assert Decimal(a.pid) == RuntimeName(a)[|RUNTIME_PREFIX|..];
      assert Decimal(b.pid) == RuntimeName(b)[|RUNTIME_PREFIX|..];
      DecimalRoundTrip(a.pid);
      DecimalRoundTrip(b.pid);
    }
  }

  /** The connection is the runtime the hello speaks of: of that host, and under its
      runtime id, else its process name, else a name made of the process id. */
  ghost predicate KnownAs(c: Conn, h: Hello) {
    && c.hello && c.hostId == h.hostId
    && (h.runtimeId != [] ==> c.runtimeId == h.runtimeId)
    && (h.runtimeId == [] && h.processName != [] ==> c.runtimeId == h.processName)
    && (h.runtimeId == [] && h.processName == [] ==> c.runtimeId == RUNTIME_PREFIX + Decimal(h.pid))
  }

  /** The session table names, for the key of this hello, a live connection that
      has another key by now, or none. */
  ghost predicate Leftover(s: Sm, f: Fd, h: Hello) {
    var key := KeyFor(h);
    && key in s.sessions && s.sessions[key] != f && s.sessions[key] in s.clients
    && s.clients[s.sessions[key]].sessionKey != key
  }

  /** Nobody is closed but an earlier connection of the same runtime. */
  ghost predicate ClosesOwn(s: Sm, h: Hello, t: Sm) {
    forall g :: g in s.clients && g !in t.clients ==> KnownAs(s.clients[g], h)
  }

  /** When no send fails, a hello closes only its own predecessor if and only if
      its session entry is no leftover. */
  lemma ClosesOwnIff(s: Sm, f: Fd, h: Hello, t: Sm)
    requires SessionsOk(s) && Unambiguous(h) && t.clients.Keys == s.clients.Keys - Leaving(s, f, h)
    ensures ClosesOwn(s, h, t) <==> !Leftover(s, f, h)
  {
    var key := KeyFor(h);
    if key in s.sessions && s.sessions[key] != f && s.sessions[key] in s.clients {
      var o := s.sessions[key];
      assert o in s.clients && o !in t.clients;
      var c := s.clients[o];
      if c.hello && c.sessionKey == key {
        SessionKeyUnambiguous(h.hostId, RuntimeName(h), c.hostId, c.runtimeId);
      }
      assert KnownAs(c, h) <==> c.sessionKey == key;
    }
  }

  predicate GoodHello(request: Option<Hello>) {
    && request.Some? && request.value.pid != 0 && request.value.version == SESSION_PROTOCOL_VERSION
    && |RuntimeName(request.value)| <= MAX_NAME_LENGTH && |request.value.hostId| <= MAX_NAME_LENGTH
  }

  /** The connection's part of an accepted hello: it is the session of its key
      now, and listed under its process only. */
  ghost function Greeted(s: Sm, f: Fd, h: Hello): Sm
    requires f in s.clients
  {
    var conn := s.clients[f];
    s.(clients := s.clients[f := GreetedConn(conn, h)],
       sessions := s.sessions[KeyFor(h) := f],
       tabs := s.tabs.(pids := s.tabs.pids - StalePair(conn, f, h.pid) + {PidFd(h.pid, f)}))
  }

  function GreetedConn(conn: Conn, h: Hello): Conn {
    conn.(hello := true, pid := h.pid, hostId := h.hostId, runtimeId := RuntimeName(h),
          sessionKey := KeyFor(h), incarnation := h.incarnation)
  }

  ghost function StalePair(conn: Conn, f: Fd, pid: Pid): set<PidFd> {
    if conn.hello && conn.pid != pid then {PidFd(conn.pid, f)} else {}
  }

  /** No other live connection is the session of this key. */
  ghost predicate Unclaimed(s: Sm, f: Fd, key: Str) {
    key in s.sessions && s.sessions[key] != f ==> s.sessions[key] !in s.clients
  }

  lemma GreetedSessions(s: Sm, f: Fd, h: Hello)
    requires f in s.clients && SessionsOk(s) && Unclaimed(s, f, KeyFor(h))
    ensures SessionsOk(Greeted(s, f, h))
  {
    hide SessionKey;
  }

  lemma GreetedLive(s: Sm, f: Fd, h: Hello)
    requires f in s.clients && Live(s) && PidsExact(s)
    ensures Live(Greeted(s, f, h)) && PidsExact(Greeted(s, f, h))
  {
    hide SessionKey;
  }

  /** Same messages and watch groups, hence the same was reported. */
  lemma SameFramesReports(s: Sm, t: Sm, clean: bool)
    requires SinceOk(s) && OnlyWatched(s) && ReportedOnline(s) && (clean ==> NoStaleOnline(s))
    requires t.since == s.since && t.tabs.watches == s.tabs.watches && t.tabs.reg == s.tabs.reg
    requires t.clients.Keys == s.clients.Keys
    requires forall f :: f in s.clients ==> t.clients[f].out == s.clients[f].out
    ensures SinceOk(t) && OnlyWatched(t) && ReportedOnline(t) && (clean ==> NoStaleOnline(t))
  {
    hide GroupMatches;
    assert forall k, key :: k in t.tabs.watches && k.fd in t.clients && k in t.since ==>
      LastTold(t, k, key) == LastTold(s, k, key);
    hide LastTold;
    assert forall key :: Told(s, key, true) ==> Told(t, key, true);
  }

  lemma SameFramesRendezvous(s: Sm, t: Sm)
    requires Rendezvous(s) && t.tabs.slots == s.tabs.slots && t.tabs.subs == s.tabs.subs
    requires t.clients.Keys == s.clients.Keys && t.met == s.met
    requires forall f :: f in s.clients ==> t.clients[f].out == s.clients[f].out
    ensures Rendezvous(t)
  {
    hide NotifyFits;
    hide Heard;
    forall slot: SlotId, sub: SubId | Meets(t, slot, sub) && sub.fd in t.clients
      ensures Knows(t, slot, sub)
    {
      assert Meets(s, slot, sub);
    }
  }

  lemma GreetedInv(s: Sm, f: Fd, h: Hello, clean: bool)
    requires Inv(s, clean) && f in s.clients && Unclaimed(s, f, KeyFor(h))
    ensures Inv(Greeted(s, f, h), clean)
  {
    hide Live;
    hide PidsExact;
    hide SessionsOk;
    hide Owned;
    hide Rendezvous;
    hide SinceOk;
    hide OnlyWatched;
    hide ReportedOnline;
    hide NoStaleOnline;
    hide Unclaimed;
    hide KeyFor;
    var t := Greeted(s, f, h);
    assert t.clients.Keys == s.clients.Keys;
    GreetedSessions(s, f, h);
    GreetedLive(s, f, h);
    SameFramesReports(s, t, clean);
    SameFramesRendezvous(s, t);
    OwnedSame(s, t);
  }

  lemma OwnedSame(s: Sm, t: Sm)
    requires Owned(s) && t.tabs.slots == s.tabs.slots && t.tabs.reg == s.tabs.reg
    ensures Owned(t)
  {
  }

  /** The older connection with the same session key, if there is one. */
  ghost function Superseded(s: Sm, f: Fd, h: Hello): Option<Fd> {
    var key := KeyFor(h);
    if key in s.sessions && s.sessions[key] != f then Some(s.sessions[key]) else None
  }

  /** Closing the superseded connection.  A restarted process, one with another
      incarnation, has its old services reported offline; the services of one
      that only reconnected go silently. */
  ghost predicate SupersededIn(s: Sm, f: Fd, h: Hello, t: Sm) {
    match Superseded(s, f, h)
    case None => t == s
    case Some(o) =>
      && Shrinks(s, t, {}) && o !in t.clients
      && (o in s.clients && s.clients[o].incarnation != h.incarnation ==> Buried(s, t, {}))
      && (o in s.clients && s.clients[o].incarnation == h.incarnation ==> Silent(s, t, o))
  }

  /** A process that only reconnected leaves services behind, which go silently. */
  ghost predicate Silences(s: Sm, f: Fd, h: Hello) {
    var o := Superseded(s, f, h);
    && o.Some? && o.value in s.clients && s.clients[o.value].incarnation == h.incarnation
    && OwnsAny(s, o.value)
  }

  ghost function Leaving(s: Sm, f: Fd, h: Hello): set<Fd> {
    var o := Superseded(s, f, h);
    if o.Some? then {o.value} else {}
  }

  /** The first part of handleRuntimeHello: the new session supersedes the old. */
  method Supersede(sm: ServiceManager, fd: Fd, h: Hello)
    requires sm.Sound() && fd in sm.clients
    modifies sm, sm.registry, sm.watchers, sm.topicManager
    ensures sm.Sound() && SupersededIn(old(sm.V()), fd, h, sm.V()) && Unclaimed(sm.V(), fd, KeyFor(h))
    ensures Shrinks(old(sm.V()), sm.V(), {})
    ensures sm.clean == (old(sm.clean) && !Silences(old(sm.V()), fd, h))
    ensures old(sm.Smooth()) ==>
              sm.Smooth() && sm.clients.Keys == old(sm.clients.Keys) - Leaving(old(sm.V()), fd, h)
    ensures old(sm.Smooth()) && Unambiguous(h) ==>
              (ClosesOwn(old(sm.V()), h, sm.V()) <==> !Leftover(old(sm.V()), fd, h))
  {
    hide ServiceManager.Objects;
    hide Unambiguous;
    hide ClosesOwn;
    hide Leftover;
    hide ServiceManager.OutboxesOk;
    hide PidsExact;
    hide WatchersMirror;
    hide SinceOk;
    hide Shrinks;
    hide Told;
    hide Buried;
    hide Halted;
    hide Inv;
    hide KeyFor;
    hide SessionsOk;
    hide OwnsAny;
    hide ServiceManager.Smooth;
    ghost var s, clean := sm.V(), sm.clean;
    ShrinksSame(s, {});
    var key := KeyFor(h);
    if key in sm.sessions && sm.sessions[key] != fd {
      var o := sm.sessions[key];
      var same := o in sm.clients && sm.clients[o].incarnation == h.incarnation;
      sm.CloseClient(o, !same);
      CascadeInv(s, sm.V(), clean, sm.clean);
      SessionsShrink(s, sm.V());
    }
    if old(sm.Smooth()) && Unambiguous(h) {
      InvSessions(s, clean);
      ClosesOwnIff(s, fd, h, sm.V());
    }
  }

  lemma SessionsShrink(s: Sm, t: Sm)
    requires Shrinks(s, t, {})
    ensures forall key :: key in t.sessions ==> key in s.sessions && t.sessions[key] == s.sessions[key]
  {
    hide Purge;
    hide Extra;
  }

  /** handleRuntimeHello.  `mid` is the state after supersession, which may have
      closed the greeting connection as well. */
  method HandleHello(sm: ServiceManager, fd: Fd, sequence: u32, request: Option<Hello>, config: SessionConfig)
    returns (accepted: bool, ghost mid: Sm)
    requires sm.Sound() && fd in sm.clients
    modifies sm, sm.registry, sm.watchers, sm.topicManager
    ensures sm.Sound()
    ensures sm.clean == (old(sm.clean) && !(GoodHello(request) && Silences(old(sm.V()), fd, request.value)))
    ensures GoodHello(request) && old(sm.Smooth()) ==>
              sm.Smooth() && sm.clients.Keys == old(sm.clients.Keys) - Leaving(old(sm.V()), fd, request.value)
    ensures accepted <==>
              && fd in mid.clients && request.Some? && request.value.pid != 0
              && request.value.version == SESSION_PROTOCOL_VERSION && |request.value.hostId| <= MAX_NAME_LENGTH
              && |RuntimeName(request.value)| <= MAX_NAME_LENGTH
    ensures accepted && fd in sm.clients ==>
              && KnownAs(sm.clients[fd], request.value)
              && sm.clients[fd].pid == request.value.pid && sm.clients[fd].incarnation == request.value.incarnation
    ensures GoodHello(request) && old(sm.Smooth()) && Unambiguous(request.value) ==>
              (ClosesOwn(old(sm.V()), request.value, sm.V()) <==> !Leftover(old(sm.V()), fd, request.value))
    ensures !GoodHello(request) ==> mid == old(sm.V()) && Shrinks(mid, sm.V(), {})
    ensures !GoodHello(request) && old(sm.Smooth()) ==> sm.Smooth() && sm.clients.Keys == old(sm.clients.Keys)
    ensures !GoodHello(request) ==> Answered(mid, sm.V(), fd,
            Plain(MSG_RUNTIME_HELLO_REPLY, sequence, RejectAck(config)))
    ensures GoodHello(request) ==> SupersededIn(old(sm.V()), fd, request.value, mid)
    ensures GoodHello(request) && !accepted ==> sm.V() == mid
    ensures accepted ==>
              && Shrinks(Greeted(mid, fd, request.value), sm.V(), {})
              && Answered(mid, sm.V(), fd, Plain(MSG_RUNTIME_HELLO_REPLY, sequence,
                   HelloAck(request.value.interval, request.value.timeout, config)))
  {
    hide ServiceManager.Objects;
    hide ServiceManager.OutboxesOk;
    hide PidsExact;
    hide WatchersMirror;
    hide SinceOk;
    hide Shrinks;
    hide Told;
    hide Buried;
    hide Halted;
    hide Inv;
    hide Sent;
    hide Answered;
    hide Sendable;
    hide KeyFor;
    hide RuntimeName;
    hide SupersededIn;
    hide Unclaimed;
    hide Ack;
    hide Silences;
    hide Leaving;
    hide Leftover;
    hide KnownAs;
    hide ClosesOwn;
    hide Unambiguous;
    hide ServiceManager.Smooth;
    accepted, mid := false, sm.V();
    if !GoodHello(request) {
      AckSendable(sequence, SESSION_STATUS_REJECTED, DEFAULT_HEARTBEAT_INTERVAL, DEFAULT_HEARTBEAT_TIMEOUT,
                  config.incarnation);
      sm.Reply(fd, MSG_RUNTIME_HELLO_REPLY, sequence, RejectAck(config));
      SentLast(mid, sm.V(), fd, Plain(MSG_RUNTIME_HELLO_REPLY, sequence, RejectAck(config)));
      return;
    }
    ghost var s := mid;
    Supersede(sm, fd, request.value);
    mid := sm.V();
    if fd !in sm.clients { return; }
    accepted := true;
    Greet(sm, fd, request.value);
    ghost var t := sm.V();
    var interval := ClampInterval(request.value.interval);
    var timeout := EffectiveTimeout(interval, request.value.timeout, config);
    var asked := request.value.timeout == 0 || timeout == request.value.timeout;
    var status := if interval == request.value.interval && asked then SESSION_STATUS_OK else SESSION_STATUS_CLAMPED;
    AckSendable(sequence, status, interval, timeout, config.incarnation);
    var ack := Ack(status, interval, timeout, config.incarnation);
    sm.Reply(fd, MSG_RUNTIME_HELLO_REPLY, sequence, ack);
    SentLast(t, sm.V(), fd, Plain(MSG_RUNTIME_HELLO_REPLY, sequence, ack));
    AnsweredSame(mid, t, sm.V(), fd, Plain(MSG_RUNTIME_HELLO_REPLY, sequence, ack));
    GreetedKnown(mid, fd, request.value, sm.V());
    ClosesOwnKeys(s, request.value, mid, sm.V());
  }

  lemma ClosesOwnKeys(s: Sm, h: Hello, t: Sm, u: Sm)
    ensures t.clients.Keys == u.clients.Keys ==> (ClosesOwn(s, h, t) <==> ClosesOwn(s, h, u))
  {
    hide KnownAs;
    if t.clients.Keys == u.clients.Keys { assert forall g :: g in t.clients <==> g in u.clients; }
  }

  lemma GreetedKnown(s: Sm, f: Fd, h: Hello, t: Sm)
    requires f in s.clients && Shrinks(Greeted(s, f, h), t, {})
    ensures f in t.clients ==>
              KnownAs(t.clients[f], h) && t.clients[f].pid == h.pid && t.clients[f].incarnation == h.incarnation
  {
    hide Purge;
    hide PurgeSessions;
    hide Extra;
  }

  lemma InvSessions(s: Sm, clean: bool)
    requires Inv(s, clean)
    ensures SessionsOk(s)
  {
  }

  lemma AckSendable(sequence: u32, status: u32, interval: u32, timeout: u32, incarnation: u32)
    ensures Sendable(Plain(MSG_RUNTIME_HELLO_REPLY, sequence, Ack(status, interval, timeout, incarnation)))
  {
    SmallReply(MSG_RUNTIME_HELLO_REPLY, sequence, Ack(status, interval, timeout, incarnation));
  }

  lemma AnsweredSame(s: Sm, s': Sm, t: Sm, f: Fd, m: Msg)
    requires f in s.clients && f in s'.clients && s.clients[f].out == s'.clients[f].out && Answered(s', t, f, m)
    ensures Answered(s, t, f, m)
  {
  }

  /** The middle part of handleRuntimeHello: the connection's own fields and lists. */
  method Greet(sm: ServiceManager, fd: Fd, h: Hello)
    requires sm.Sound() && fd in sm.clients && Unclaimed(sm.V(), fd, KeyFor(h))
    modifies sm`sessions, sm`clients, sm`pidToFds, sm`pids
    ensures sm.Sound() && sm.V() == Greeted(old(sm.V()), fd, h) && sm.clean == old(sm.clean)
    ensures sm.clients.Keys == old(sm.clients.Keys) && (old(sm.Smooth()) ==> sm.Smooth())
  {
    hide ServiceManager.Objects;
    hide ServiceManager.OutboxesOk;
    hide ServiceManager.Smooth;
    hide PidsExact;
    hide WatchersMirror;
    hide SinceOk;
    hide Shrinks;
    hide Told;
    hide Buried;
    hide Halted;
    hide Inv;
    hide KeyFor;
    hide Unclaimed;
    hide StalePair;
    hide Backlogged;
    GreetedInv(sm.V(), fd, h, sm.clean);
    InvMirrors(Greeted(sm.V(), fd, h), sm.clean);
    ListsHold(sm);
    var conn := sm.clients[fd];
    var table := Relist(sm.pidToFds, conn, fd, h.pid, sm.pids);
    sm.SetSession(fd, GreetedConn(conn, h), KeyFor(h), table,
                  sm.pids - StalePair(conn, fd, h.pid) + {PidFd(h.pid, fd)});
  }

  /** The connection moves to the list of its process. */
  method Relist(m: PidTable, conn: Conn, fd: Fd, pid: Pid, ghost pairs: set<PidFd>) returns (r: PidTable)
    requires PidTableHolds(m, pairs)
    ensures PidTableHolds(r, pairs - StalePair(conn, fd, pid) + {PidFd(pid, fd)})
  {
    hide PidTableHolds;
    r := m;
    assert pairs - {} == pairs;
    if conn.hello && conn.pid != pid {
      r := RemovePair(r, conn.pid, fd, pairs);
    }
    r := AddPair(r, pid, fd, pairs - StalePair(conn, fd, pid));
  }

  // ---- Diagnostic watches -------------------------------------------------------------------------

  ghost function WithPair(s: Sm, x: PidFd): Sm {
    s.(tabs := s.tabs.(pw := s.tabs.pw + {x}, wp := s.tabs.wp + {x}))
  }

  ghost function WithoutPair(s: Sm, x: PidFd): Sm {
    s.(tabs := s.tabs.(pw := s.tabs.pw - {x}, wp := s.tabs.wp - {x}))
  }

  lemma PairsInv(s: Sm, t: Sm, clean: bool)
    requires Inv(s, clean) && t == s.(tabs := s.tabs.(pw := t.tabs.pw, wp := t.tabs.pw))
    requires forall x :: x in t.tabs.pw ==> x.fd in s.clients
    ensures Inv(t, clean)
  {
    hide Owned;
    hide Rendezvous;
    hide SinceOk;
    hide OnlyWatched;
    hide ReportedOnline;
    hide NoStaleOnline;
    SameFramesReports(s, t, clean);
    SameFramesRendezvous(s, t);
    OwnedSame(s, t);
  }

  lemma PairsLive(s: Sm, clean: bool)
    requires Inv(s, clean)
    ensures s.tabs.pw == s.tabs.wp && forall x :: x in s.tabs.pw ==> x.fd in s.clients
  {
  }

  /** handleDiagWatchStart.  `mid` is the state after the command was sent to the
      process; the requester may have died in that. */
  method HandleWatchStart(sm: ServiceManager, fd: Fd, sequence: u32, request: Option<Pid>)
    returns (started: bool, ghost mid: Sm)
    requires sm.Sound() && fd in sm.clients
    modifies sm, sm.registry, sm.watchers, sm.topicManager
    ensures sm.Sound() && sm.clean == old(sm.clean)
    ensures Shrinks(old(sm.V()), mid, {})
    ensures request.None? ==> !started && mid == old(sm.V())
    ensures request.Some? ==> Commanded(old(sm.V()), mid, request.value, fd, MSG_DIAG_WATCH_START, [])
    ensures request.Some? && (exists f :: Addressed(old(sm.V()), request.value, fd, f) && f in mid.clients) ==> started
    ensures started ==> exists f :: Addressed(old(sm.V()), request.value, fd, f)
    ensures fd !in mid.clients ==> sm.V() == mid
    ensures fd in mid.clients ==>
              && Answered(mid, sm.V(), fd, Plain(MSG_DIAG_WATCH_START_REPLY, sequence, [BoolByte(started)]))
              && Shrinks(if started then WithPair(mid, PidFd(request.value, fd)) else mid, sm.V(), {})
    ensures old(sm.Smooth()) ==> sm.Smooth() && sm.clients.Keys == old(sm.clients.Keys)
  {
    hide ServiceManager.Smooth;
    hide PidTableHolds;
    hide WatcherTableHolds;
    hide ServiceRegistry.Valid;
    hide WatchNotifier.Valid;
    hide TopicManager.Valid;
    hide TopicManager.ExactIndex;
    hide ServiceManager.OutboxesOk;
    hide PidsExact;
    hide WatchersMirror;
    hide SinceOk;
    hide Shrinks;
    hide Told;
    hide Buried;
    hide Halted;
    hide Inv;
    hide Sent;
    hide Answered;
    hide Sendable;
    hide Commanded;
    ghost var s := sm.V();
    started, mid := false, s;
    SmallReply(MSG_DIAG_WATCH_START_REPLY, sequence, [BoolByte(false)]);
    SmallReply(MSG_DIAG_WATCH_START_REPLY, sequence, [BoolByte(true)]);
    ShrinksSame(s, {});
    if request.Some? {
      started := sm.SendToPid(request.value, fd, MSG_DIAG_WATCH_START, []);
      mid := sm.V();
      CascadeInv(s, mid, sm.clean, sm.clean);
      if fd !in sm.clients { return; }
      if started { AddWatcher(sm, request.value, fd); }
    }
    ghost var t := sm.V();
    sm.Reply(fd, MSG_DIAG_WATCH_START_REPLY, sequence, [BoolByte(started)]);
    SentLast(t, sm.V(), fd, Plain(MSG_DIAG_WATCH_START_REPLY, sequence, [BoolByte(started)]));
    AnsweredSame(mid, t, sm.V(), fd, Plain(MSG_DIAG_WATCH_START_REPLY, sequence, [BoolByte(started)]));
  }

  /** Both tables record the watcher. */
  method AddWatcher(sm: ServiceManager, pid: Pid, fd: Fd)
    requires sm.Sound() && fd in sm.clients
    modifies sm`watcherToPids, sm`wp, sm`pidWatchers, sm`pw
    ensures sm.Sound() && sm.V() == WithPair(old(sm.V()), PidFd(pid, fd)) && sm.clean == old(sm.clean)
    ensures sm.clients == old(sm.clients) && (old(sm.Smooth()) ==> sm.Smooth())
  {
    hide ServiceManager.Objects;
    hide PidTableHolds;
    hide WatcherTableHolds;
    hide ServiceManager.OutboxesOk;
    hide PidsExact;
    hide WatchersMirror;
    hide SinceOk;
    hide Shrinks;
    hide Told;
    hide Buried;
    hide Halted;
    hide Inv;
    ghost var x, s := PidFd(pid, fd), sm.V();
    PairsLive(s, sm.clean);
    PairsInv(s, WithPair(s, x), sm.clean);
    InvMirrors(WithPair(s, x), sm.clean);
    ListsHold(sm);
    AddWatchHolds(sm.watcherToPids, fd, pid, sm.wp);
    var listed := AddPair(sm.pidWatchers, pid, fd, sm.pw);
    var rows := sm.watcherToPids[fd := PidsOf(sm.watcherToPids, fd) + {pid}];
    sm.SetWatchers(rows, listed, sm.wp + {x}, sm.pw + {x});
  }

  lemma ListsHold(sm: ServiceManager)
    requires sm.Objects()
    ensures PidTableHolds(sm.pidToFds, sm.pids) && PidTableHolds(sm.pidWatchers, sm.pw)
    ensures WatcherTableHolds(sm.watcherToPids, sm.wp)
  {
  }

  /** handleDiagWatchStop, with removeWatcherPair: the pair goes from both tables,
      and the process is told to stop when nobody watches it any more. */
  method HandleWatchStop(sm: ServiceManager, fd: Fd, sequence: u32, request: Option<Pid>) returns (ghost mid: Sm)
    requires sm.Sound() && fd in sm.clients
    modifies sm, sm.registry, sm.watchers, sm.topicManager
    ensures sm.Sound() && sm.clean == old(sm.clean)
    ensures request.None? || PidFd(request.value, fd) !in old(sm.V()).tabs.wp ==> mid == old(sm.V())
    ensures request.Some? && PidFd(request.value, fd) in old(sm.V()).tabs.wp ==>
              && Shrinks(WithoutPair(old(sm.V()), PidFd(request.value, fd)), mid, {})
              && Stopped(old(sm.V()), mid, request.value, fd)
    ensures fd !in mid.clients ==> sm.V() == mid
    ensures fd in mid.clients ==>
              && Shrinks(mid, sm.V(), {})
              && Answered(mid, sm.V(), fd, Plain(MSG_DIAG_WATCH_STOP_REPLY, sequence, [BoolByte(request.Some?)]))
    ensures old(sm.Smooth()) ==> sm.Smooth() && sm.clients.Keys == old(sm.clients.Keys)
  {
    hide ServiceManager.Smooth;
    hide PidTableHolds;
    hide WatcherTableHolds;
    hide ServiceRegistry.Valid;
    hide WatchNotifier.Valid;
    hide TopicManager.Valid;
    hide TopicManager.ExactIndex;
    hide ServiceManager.OutboxesOk;
    hide PidsExact;
    hide WatchersMirror;
    hide SinceOk;
    hide Shrinks;
    hide Told;
    hide Buried;
    hide Halted;
    hide Inv;
    hide Sent;
    hide Answered;
    hide Sendable;
    hide Commanded;
    hide Stopped;
    mid := sm.V();
    ghost var s := mid;
    SmallReply(MSG_DIAG_WATCH_STOP_REPLY, sequence, [BoolByte(false)]);
    SmallReply(MSG_DIAG_WATCH_STOP_REPLY, sequence, [BoolByte(true)]);
    if request.Some? {
      WatchedPidsExactly(sm.watcherToPids, sm.wp, request.value, fd);
      if request.value in PidsOf(sm.watcherToPids, fd) {
        RemoveWatcherPair(sm, request.value, fd);
        mid := sm.V();
        if fd !in sm.clients { return; }
      }
    }
    sm.Reply(fd, MSG_DIAG_WATCH_STOP_REPLY, sequence, [BoolByte(request.Some?)]);
    SentLast(mid, sm.V(), fd, Plain(MSG_DIAG_WATCH_STOP_REPLY, sequence, [BoolByte(request.Some?)]));
  }

  /** Others watch the process still, or it was told to stop. */
  ghost predicate Stopped(s: Sm, t: Sm, pid: Pid, w: Fd) {
    if HasPid(s.tabs.pw - {PidFd(pid, w)}, pid) then t == WithoutPair(s, PidFd(pid, w))
    else Commanded(s, t, pid, w, MSG_DIAG_WATCH_STOP, [])
  }

  lemma WatchedPidsExactly(m: WatcherTable, pairs: set<PidFd>, pid: Pid, w: Fd)
    requires WatcherTableHolds(m, pairs)
    ensures pid in PidsOf(m, w) <==> PidFd(pid, w) in pairs
  {
  }

  method RemoveWatcherPair(sm: ServiceManager, pid: Pid, fd: Fd)
    requires sm.Sound() && fd in sm.clients && PidFd(pid, fd) in sm.V().tabs.wp
    modifies sm, sm.registry, sm.watchers, sm.topicManager
    ensures sm.Sound() && sm.clean == old(sm.clean)
    ensures Shrinks(WithoutPair(old(sm.V()), PidFd(pid, fd)), sm.V(), {}) && Stopped(old(sm.V()), sm.V(), pid, fd)
    ensures old(sm.Smooth()) ==> sm.Smooth() && sm.clients.Keys == old(sm.clients.Keys)
  {
    hide PidTableHolds;
    hide WatcherTableHolds;
    hide ServiceRegistry.Valid;
    hide WatchNotifier.Valid;
    hide TopicManager.Valid;
    hide TopicManager.ExactIndex;
    hide ServiceManager.OutboxesOk;
    hide PidsExact;
    hide WatchersMirror;
    hide SinceOk;
    hide Shrinks;
    hide Told;
    hide Buried;
    hide Halted;
    hide Inv;
    hide Commanded;
    hide ServiceManager.Smooth;
    ghost var x, s := PidFd(pid, fd), sm.V();
    ForgetTarget(sm, pid, fd);
    ghost var s1 := sm.V();
    sm.StopTargetIfUnwatched(pid, fd);
    CascadeInv(WithoutPair(s, x), sm.V(), sm.clean, sm.clean);
    CommandedAlike(s, s1, sm.V(), pid, fd, MSG_DIAG_WATCH_STOP, []);
  }

  /** The watcher's own list is without the process. */
  method ForgetTarget(sm: ServiceManager, pid: Pid, fd: Fd)
    requires sm.Sound() && fd in sm.clients
    modifies sm`watcherToPids, sm`wp
    ensures sm.ReadyBut(PidFd(pid, fd)) && Inv(WithoutPair(old(sm.V()), PidFd(pid, fd)), sm.clean)
    ensures sm.V() == old(sm.V()).(tabs := old(sm.V()).tabs.(wp := old(sm.wp) - {PidFd(pid, fd)}))
    ensures Unpair(sm.V(), PidFd(pid, fd)) == WithoutPair(old(sm.V()), PidFd(pid, fd))
    ensures old(sm.Smooth()) ==> sm.Smooth()
  {
    hide PidTableHolds;
    hide WatcherTableHolds;
    hide ServiceRegistry.Valid;
    hide WatchNotifier.Valid;
    hide TopicManager.Valid;
    hide TopicManager.ExactIndex;
    hide ServiceManager.OutboxesOk;
    hide PidsExact;
    hide WatchersMirror;
    hide SinceOk;
    hide Inv;
    ghost var x, s := PidFd(pid, fd), sm.V();
    PairsLive(s, sm.clean);
    PairsInv(s, WithoutPair(s, x), sm.clean);
    InvMirrors(WithoutPair(s, x), sm.clean);
    InvMirrors(s, sm.clean);
    DropWatchHolds(sm.watcherToPids, fd, pid, sm.wp);
    sm.watcherToPids, sm.wp := DropWatch(sm.watcherToPids, fd, pid), sm.wp - {x};
    assert Unpair(sm.V(), x) == WithoutPair(s, x);
    WpDoesNotMatter(s, sm.V());
  }

  lemma WpDoesNotMatter(s: Sm, t: Sm)
    requires t == s.(tabs := s.tabs.(wp := t.tabs.wp))
    ensures PidsExact(s) ==> PidsExact(t)
    ensures SinceOk(s) ==> SinceOk(t)
  {
  }

  lemma CommandedAlike(s: Sm, s': Sm, t: Sm, pid: Pid, except: Fd, mtype: u16, body: Bytes)
    requires s'.clients == s.clients && s'.tabs.pids == s.tabs.pids
    ensures Commanded(s', t, pid, except, mtype, body) ==> Commanded(s, t, pid, except, mtype, body)
  {
    assert forall f :: GotCommand(s', t, f, mtype, body) ==> GotCommand(s, t, f, mtype, body);
  }

  /** handleDiagSetLogLevel: forward to the process, then report whether some
      connection took it. */
  method HandleSetLogLevel(sm: ServiceManager, fd: Fd, sequence: u32, pid: Pid, level: Option<u32>)
    returns (sent: bool, ghost mid: Sm)
    requires sm.Sound() && fd in sm.clients
    modifies sm, sm.registry, sm.watchers, sm.topicManager
    ensures sm.Sound() && Shrinks(old(sm.V()), mid, {}) && sm.clean == old(sm.clean)
    ensures level.None? ==> !sent && mid == old(sm.V())
    ensures level.Some? ==> Commanded(old(sm.V()), mid, pid, fd, MSG_DIAG_SET_LOG_LEVEL, Le32(level.value))
    ensures level.Some? && (exists f :: Addressed(old(sm.V()), pid, fd, f) && f in mid.clients) ==> sent
    ensures sent ==> exists f :: Addressed(old(sm.V()), pid, fd, f)
    ensures fd !in mid.clients ==> sm.V() == mid
    ensures fd in mid.clients ==>
              && Shrinks(mid, sm.V(), {})
              && Answered(mid, sm.V(), fd, Plain(MSG_DIAG_SET_LOG_LEVEL_REPLY, sequence, [BoolByte(sent)]))
    ensures old(sm.Smooth()) ==> sm.Smooth() && sm.clients.Keys == old(sm.clients.Keys)
  {
    hide ServiceManager.Smooth;
    hide PidTableHolds;
    hide WatcherTableHolds;
    hide ServiceRegistry.Valid;
    hide WatchNotifier.Valid;
    hide TopicManager.Valid;
    hide TopicManager.ExactIndex;
    hide ServiceManager.OutboxesOk;
    hide PidsExact;
    hide WatchersMirror;
    hide SinceOk;
    hide Shrinks;
    hide Told;
    hide Buried;
    hide Halted;
    hide Inv;
    hide Sent;
    hide Answered;
    hide Sendable;
    hide Commanded;
    ghost var s := sm.V();
    sent, mid := false, s;
    ShrinksSame(s, {});
    SmallReply(MSG_DIAG_SET_LOG_LEVEL_REPLY, sequence, [BoolByte(false)]);
    SmallReply(MSG_DIAG_SET_LOG_LEVEL_REPLY, sequence, [BoolByte(true)]);
    if level.Some? {
      sent := sm.SendToPid(pid, fd, MSG_DIAG_SET_LOG_LEVEL, Le32(level.value));
      mid := sm.V();
      CascadeInv(s, mid, sm.clean, sm.clean);
      if fd !in sm.clients { return; }
    }
    sm.Reply(fd, MSG_DIAG_SET_LOG_LEVEL_REPLY, sequence, [BoolByte(sent)]);
    SentLast(mid, sm.V(), fd, Plain(MSG_DIAG_SET_LOG_LEVEL_REPLY, sequence, [BoolByte(sent)]));
  }
}

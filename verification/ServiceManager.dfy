/** The service manager (service_manager/service_manager_app.cpp, sm_diag.cpp,
    sm_registry.cpp, sm_topic.cpp): one event loop that owns the connections and
    all tables.

    Any send may fail and close its connection; closing sends further messages.
    So sending, notifying and closing are mutually recursive.  The recursion
    ends because a connection leaves `clients` before anything is sent on its
    behalf.
  */
module ServiceManagement {
  import opened Base
  import opened SeqUtil
  import opened ServiceCodec
  import opened Registry
  import opened Watching
  import opened TopicKeys
  import opened TopicTables
  import opened TopicState
  import opened TopicManagement
  import opened Outboxes
  import opened ControlPlane
  import opened Invariants
  import opened Commands
  import opened ProcessTables
  import opened Closing
  import opened StateInvariant

  const SM_PROACTIVE_SEQ_BASE: u32 := 0x4000_0000

  const EMPTY_SM: Sm := Sm(map[], map[], map[], map[], Tables(map[], map[], map[], map[], {}, {}, {}))

  lemma EmptyReady()
    ensures PidTableHolds(map[], {}) && WatcherTableHolds(map[], {})
    ensures PidsExact(EMPTY_SM) && WatchersMirror(EMPTY_SM) && SinceOk(EMPTY_SM)
  {
  }

  class ServiceManager {
    const registry: ServiceRegistry
    const watchers: WatchNotifier
    const topicManager: TopicManager
    var clients: map<Fd, Conn>
    var sessions: map<Str, Fd>
    var pidToFds: PidTable
    var pidWatchers: PidTable
    var watcherToPids: WatcherTable
    var smSeq: u32
    ghost var pids: set<PidFd>
    ghost var pw: set<PidFd>
    ghost var wp: set<PidFd>
    ghost var since: map<WatchKey, nat>
    ghost var met: map<Pair, nat>

    /** What the transport answers to the next sends; once the list is used up,
        it takes whatever it is offered.  A list for every outcome stands for
        all that a transport may do. */
    var answers: seq<int>

    /** History: no event has left a watcher with stale news. */
    ghost var clean: bool

    ghost function V(): Sm
      reads this, registry, watchers, topicManager
    {
      Sm(clients, sessions, since, met,
         Tables(registry.entries, watchers.groups, topicManager.slots, topicManager.subs, pids, pw, wp))
    }

    /** Each table object represents its part of `V` correctly. */
    ghost predicate Objects()
      reads this, registry, watchers, topicManager
    {
      && registry.Valid() && watchers.Valid()
      && topicManager.Valid() && topicManager.ExactIndex()
      && PidTableHolds(pidToFds, pids) && PidTableHolds(pidWatchers, pw)
      && WatcherTableHolds(watcherToPids, wp)
    }

    ghost predicate OutboxesOk()
      reads this`clients
    {
      forall f :: f in clients ==> OutboxOk(clients[f].out)
    }

    /** No connection has bytes waiting. */
    ghost predicate Unqueued()
      reads this`clients
    {
      forall f :: f in clients ==> !Backlogged(clients[f].out)
    }

    /** From now on every send succeeds at once. */
    ghost predicate Smooth()
      reads this`clients, this`answers
    {
      answers == [] && Unqueued()
    }

    /** What holds even in the middle of a cascade. */
    ghost predicate Ready()
      reads this, registry, watchers, topicManager
    {
      && Objects() && OutboxesOk()
      && PidsExact(V()) && WatchersMirror(V()) && SinceOk(V())
      && SM_PROACTIVE_SEQ_BASE <= smSeq
    }

    /** What holds between events. */
    ghost predicate Sound()
      reads this, registry, watchers, topicManager
    {
      Ready() && Inv(V(), clean)
    }

    constructor ()
      ensures Ready() && clean && Smooth() && V() == EMPTY_SM
      ensures fresh(registry) && fresh(watchers) && fresh(topicManager)
    {
      hide ServiceRegistry.Valid;
      hide WatchNotifier.Valid;
      hide TopicManager.Valid;
      hide TopicManager.ExactIndex;
      hide PidTableHolds;
      hide WatcherTableHolds;
      hide PidsExact;
      hide WatchersMirror;
      hide SinceOk;
      registry := new ServiceRegistry();
      watchers := new WatchNotifier();
      topicManager := new TopicManager();
      clients, sessions := map[], map[];
      pidToFds, pidWatchers, watcherToPids := map[], map[], map[];
      smSeq, answers := SM_PROACTIVE_SEQ_BASE, [];
      pids, pw, wp, since, met, clean := {}, {}, {}, map[], map[], true;
      new;
      EmptyReady();
    }

    /** nextSMProactiveSequence: stays above the sequence numbers clients use. */
    method NextProactiveSequence() returns (s: u32)
      requires SM_PROACTIVE_SEQ_BASE <= smSeq
      modifies this`smSeq
      ensures SM_PROACTIVE_SEQ_BASE <= s == old(smSeq)
      ensures smSeq == if s < 0xFFFF_FFFF then s + 1 else SM_PROACTIVE_SEQ_BASE
    {
      s := smSeq;
      smSeq := (smSeq + 1) % U32_MOD;
      if smSeq < SM_PROACTIVE_SEQ_BASE {
        smSeq := SM_PROACTIVE_SEQ_BASE;
      }
    }

    /** The same, in the middle of a cascade. */
    method NextNumber() returns (s: u32)
      requires Ready()
      modifies this`smSeq
      ensures Ready()
    {
      hide OutboxesOk;
      hide PidTableHolds;
      hide WatcherTableHolds;
      hide ServiceRegistry.Valid;
      hide WatchNotifier.Valid;
      hide TopicManager.Valid;
      hide TopicManager.ExactIndex;
      hide PidsExact;
      hide WatchersMirror;
      hide SinceOk;
      s := NextProactiveSequence();
    }

    /** Ask the transport, or not. */
    method NextAnswer(ask: bool) returns (answer: int)
      modifies this`answers
      ensures answer == if old(answers) == [] then MAX_MESSAGE_SIZE else old(answers)[0]
      ensures answers == if ask && old(answers) != [] then old(answers)[1..] else old(answers)
    {
      answer := if answers == [] then MAX_MESSAGE_SIZE else answers[0];
      if ask && answers != [] {
        answers := answers[1..];
      }
    }

    /** sendMessage: queue behind pending bytes, or offer to the transport, which
        takes any part of it or fails.  A failure closes the connection. */
    method SendMessage(fd: Fd, msg: Msg, ghost a: set<Says>)
      requires Ready() && fd in clients && Extra(fd, msg, V().tabs.reg, V().tabs, a)
      modifies this, registry, watchers, topicManager
      ensures Ready() && Shrinks(old(V()), V(), a) && Buried(old(V()), V(), {}) && Halted(old(V()), V())
      ensures !Sendable(msg) ==> V() == old(V())
      ensures Sendable(msg) && fd in clients ==> Sent(old(V()), V(), fd, msg)
      ensures fd !in clients ==> Shrinks(old(V()), V(), {})
      ensures Sendable(msg) && Backlogged(old(clients)[fd].out) ==>
                (fd in clients <==> HasRoom(old(clients)[fd].out, msg))
      ensures clean == old(clean)
      ensures old(Smooth()) ==> Smooth() && clients.Keys == old(clients.Keys)
      ensures Sendable(msg) && old(answers) == [-1] && old(Unqueued()) ==>
                Smooth() && clients.Keys == old(clients.Keys) - {fd}
      decreases clients.Keys, 1
    {
      hide Purge;
      hide Halted;
      hide Extra;
      hide OutboxOk;
      hide WireOf;
      hide Sendable;
      hide HasRoom;
      hide Backlogged;
      hide PidsExact;
      hide WatchersMirror;
      hide SinceOk;
      hide Shrinks;
      hide Buried;
      hide Sent;
      hide PidTableHolds;
      hide WatcherTableHolds;
      hide ServiceRegistry.Valid;
      hide WatchNotifier.Valid;
      hide TopicManager.Valid;
      hide TopicManager.ExactIndex;
      ghost var s := V();
      if !Sendable(msg) {
        ShrinksSame(s, a);
        BuriedSame(s, {});
        HaltedSame(s, s);
        return;
      }
      var conn := clients[fd];
      var answer := NextAnswer(!Backlogged(conn.out));
      var out := Enqueue(conn.out, msg, answer);
      if out.None? {
        CloseClient(fd, true);
        ShrinksMore(s, V(), {}, a);
        return;
      }
      Commit(fd, out.value, msg, a);
    }

    /** The connection's sending side after a message was taken on. */
    method Commit(fd: Fd, out: Outbox, ghost msg: Msg, ghost a: set<Says>)
      requires Ready() && fd in clients && Extra(fd, msg, V().tabs.reg, V().tabs, a)
      requires OutboxOk(out) && out.frames == clients[fd].out.frames + [msg]
      modifies this`clients
      ensures Ready() && fd in clients && Sent(old(V()), V(), fd, msg)
      ensures Shrinks(old(V()), V(), a) && Buried(old(V()), V(), {}) && Halted(old(V()), V())
      ensures clients == old(clients)[fd := old(clients)[fd].(out := out)]
    {
      hide Purge;
      hide Halted;
      hide Extra;
      hide OutboxOk;
      hide PidTableHolds;
      hide WatcherTableHolds;
      hide ServiceRegistry.Valid;
      hide WatchNotifier.Valid;
      hide TopicManager.Valid;
      hide TopicManager.ExactIndex;
      hide PidsExact;
      hide WatchersMirror;
      hide SinceOk;
      hide Shrinks;
      hide Buried;
      ghost var s := V();
      clients := clients[fd := clients[fd].(out := out)];
      assert Sent(s, V(), fd, msg);
      SentShrinks(s, V(), fd, msg, a);
      SentBuries(s, V(), fd, msg);
      HaltedSame(s, V());
      ShrinksKeepsTables(s, V(), a);
      ShrinksKeepsSince(s, V(), a);
    }

    /** sendServiceWatchNotify, if the group's connection still lives. */
    method NotifyGroup(k: WatchKey, who: ServiceIdentity, online: bool)
      requires Ready() && ShortNames(who)
      requires k.fd in clients ==> k in V().tabs.watches && GroupMatches(V().tabs.watches[k], who.Key())
      modifies this, registry, watchers, topicManager
      ensures Ready() && Shrinks(old(V()), V(), {Says(who.Key(), online)}) && Buried(old(V()), V(), {})
      ensures Halted(old(V()), V())
      ensures k.fd in clients ==>
                k in V().tabs.watches && k in V().since && LastTold(V(), k, who.Key()) == Some(online)
      ensures k.fd in clients ==>
                exists n :: Sent(old(V()), V(), k.fd, WatchNotify(n, k.id, who, online))
      ensures k.fd in old(clients) && k.fd !in clients ==> Shrinks(old(V()), V(), {})
      ensures clean == old(clean)
      ensures old(Smooth()) ==> Smooth() && clients.Keys == old(clients.Keys)
      decreases clients.Keys, 2
    {
      hide Purge;
      hide Halted;
      hide Extra;
      hide OutboxOk;
      hide PidTableHolds;
      hide WatcherTableHolds;
      hide ServiceRegistry.Valid;
      hide WatchNotifier.Valid;
      hide TopicManager.Valid;
      hide TopicManager.ExactIndex;
      hide PidsExact;
      hide WatchersMirror;
      ghost var s, a := V(), {Says(who.Key(), online)};
      if k.fd !in clients {
        ShrinksSame(s, a);
        HaltedSame(s, s);
        return;
      }
      var n := NextProactiveSequence();
      var m := WatchNotify(n, k.id, who, online);
      WatchNotifySendable(n, k.id, who, online);
      ShrinksSame(s, a);
      GroupExtra(s, s, a, k, m);
      SendMessage(k.fd, m, a);
      if k.fd in clients { SentTells(s, V(), k, m); }
    }

    /** notifyServiceWatch: one notification to each live connection with a
        matching watch group. */
    method NotifyServiceWatch(who: ServiceIdentity, online: bool)
      requires Ready() && ShortNames(who)
      modifies this, registry, watchers, topicManager
      ensures Ready() && Shrinks(old(V()), V(), {Says(who.Key(), online)})
      ensures Buried(old(V()), V(), {who.Key()}) && Halted(old(V()), V())
      ensures online && (who.Key() in V().tabs.reg || who.Key() !in old(V()).tabs.reg) ==> Told(V(), who.Key(), true)
      ensures !online ==> Told(V(), who.Key(), false)
      ensures clean == old(clean)
      ensures old(Smooth()) ==> Smooth() && clients.Keys == old(clients.Keys)
      decreases clients.Keys, 4
    {
      hide ServiceRegistry.Valid;
      hide WatchNotifier.Valid;
      hide TopicManager.Valid;
      hide TopicManager.ExactIndex;
      hide Objects;
      hide OutboxesOk;
      hide Smooth;
      hide PidsExact;
      hide WatchersMirror;
      hide Purge;
      hide Extra;
      hide Shrinks;
      hide Told;
      hide Buried;
      hide Halted;
      hide ToldGroups;
      TablesValid();
      hide GroupMatches;
      hide Telling;
      var key := who.Key();
      var groups := watchers.Matching(key);
      ghost var s := V();
      TellingNobody(s, groups, key, online);
      for i := 0 to |groups|
        invariant Ready() && Telling(s, V(), groups, i, key, online)
        invariant clean == old(clean)
        invariant old(Smooth()) ==> Smooth() && clients.Keys == old(clients.Keys)
        invariant clients.Keys <= old(clients.Keys)
      {
        TellNext(groups, i, who, online, s);
      }
      TellingAll(s, V(), groups, key, online);
    }

    /** One group of the walk that began in state `s`. */
    method TellNext(groups: seq<WatchKey>, i: nat, who: ServiceIdentity, online: bool, ghost s: Sm)
      requires Ready() && ShortNames(who) && i < |groups| && Telling(s, V(), groups, i, who.Key(), online)
      requires forall k :: k in groups <==> k in s.tabs.watches && GroupMatches(s.tabs.watches[k], who.Key())
      modifies this, registry, watchers, topicManager
      ensures Ready() && Telling(s, V(), groups, i + 1, who.Key(), online)
      ensures clean == old(clean) && clients.Keys <= old(clients.Keys)
      ensures old(Smooth()) ==> Smooth() && clients.Keys == old(clients.Keys)
      decreases clients.Keys, 3
    {
      hide Objects;
      hide OutboxesOk;
      hide Smooth;
      hide PidsExact;
      hide WatchersMirror;
      hide SinceOk;
      hide GroupMatches;
      hide LastTold;
      hide Shrinks;
      hide Told;
      hide Buried;
      hide Halted;
      hide ToldGroups;
      hide Sent;
      ghost var t, key, a := V(), who.Key(), {Says(who.Key(), online)};
      var k := groups[i];
      if k.fd in clients { GroupSurvives(s, t, a, k); }
      NotifyGroup(k, who, online);
      ToldNext(t, V(), groups, i, key, online, key !in s.tabs.reg);
      HaltedAfter(s, t, V(), a, a);
      ShrinksTwice(s, t, V(), a);
      BuriedOn(s, t, V(), a, key);
      ClientsShrink(t, V(), a);
    }

    /** closeClient.  The connection leaves `clients` first, so that a re-entrant
        close of it returns at once.  Whatever further connections the
        notifications close, the outcome is one purge of all that died. */
    method CloseClient(fd: Fd, notify: bool)
      requires Ready()
      modifies this, registry, watchers, topicManager
      ensures Ready() && fd !in clients && Shrinks(old(V()), V(), {}) && Halted(old(V()), V())
      ensures fd !in old(clients) ==> V() == old(V())
      ensures fd in old(clients) ==> Released(old(V()), V(), fd)
      ensures notify || !OwnsAny(old(V()), fd) ==> Buried(old(V()), V(), {})
      ensures !notify ==> Silent(old(V()), V(), fd)
      ensures clean == (old(clean) && (notify || fd !in old(clients) || !OwnsAny(old(V()), fd)))
      ensures old(Smooth()) ==> Smooth() && clients.Keys == old(clients.Keys) - {fd}
      decreases clients.Keys, 0
    {
      hide Purge;
      hide Halted;
      hide Extra;
      hide Objects;
      hide OutboxesOk;
      hide PidsExact;
      hide WatchersMirror;
      hide SinceOk;
      hide Shrinks;
      hide Told;
      hide Buried;
      hide Cleared;
      hide LeavesAlone;
      hide Silent;
      hide OfLost;
      hide OfflineOf;
      hide OwnsAny;
      hide Smooth;
      ghost var s := V();
      if fd !in clients {
        ShrinksSame(s, {});
        BuriedSame(s, {});
        SilentSame(s, fd);
        HaltedSame(s, s);
        return;
      }
      var conn := clients[fd];
      var removed := EraseClient(fd);
      Record(notify || removed == []);
      ghost var s1 := V();
      ghost var a := if notify then OfflineOf(removed) else {};
      LostStatements(s, fd, removed);
      if notify {
        NotifyRemoved(removed);
      } else {
        ShrinksSame(s1, {});
        BuriedSame(s1, {});
        HaltedSame(s1, s1);
      }
      ghost var t := V();
      LeavesAloneLater(s1, t, fd, conn, a);
      ClientsShrink(s1, t, a);
      ghost var u := ReleaseTables(fd, conn);
      CloseAddsUp(s, fd, t, u, V(), a);
      CloseHalts(s, fd, t, V(), a);
      if notify || removed == [] {
        CloseBuries(s, fd, t, u, V(), a);
      }
      if !notify { CloseIsSilent(s, fd, u, V()); }
    }

    // ---- Single tables ------------------------------------------------------------------------

    lemma TablesValid()
      requires Objects()
      ensures registry.Valid() && watchers.Valid() && topicManager.Valid()
    {
    }

    /** removeServiceByIdentity. */
    method Strike(key: Ident)
      requires Objects() && OutboxesOk()
      modifies registry
      ensures Objects() && OutboxesOk()
      ensures V() == old(V()).(tabs := old(V()).tabs.(reg := old(V()).tabs.reg - {key}))
    {
      hide PidTableHolds;
      hide WatcherTableHolds;
      hide ServiceRegistry.Valid;
      hide WatchNotifier.Valid;
      hide TopicManager.Valid;
      hide TopicManager.ExactIndex;
      hide OutboxesOk;
      var _ := registry.RemoveServiceByIdentity(key);
    }

    /** removePublishersByService. */
    method Unpublish(service: Str, fd: Fd)
      requires Objects() && OutboxesOk()
      modifies topicManager
      ensures Objects() && OutboxesOk()
      ensures V() == old(V()).(tabs := old(V()).tabs.(slots := SlotsOfOtherServices(old(V()).tabs.slots, service, fd)))
    {
      hide PidTableHolds;
      hide WatcherTableHolds;
      hide ServiceRegistry.Valid;
      hide WatchNotifier.Valid;
      hide TopicManager.Valid;
      hide TopicManager.ExactIndex;
      hide OutboxesOk;
      topicManager.RemovePublishersByService(service, fd);
    }

    /** registerPublisher, for a slot that no other connection holds. */
    method PutPublisher(topic: Str, info: ServiceInfo, fd: Fd, hash: u32) returns (ok: bool)
      requires Objects() && OutboxesOk()
      requires var id := SlotId(info.name, topic, info.inst);
               id in V().tabs.slots ==> V().tabs.slots[id].fd == fd
      modifies topicManager
      ensures Objects() && OutboxesOk()
      ensures ok <==> ValidTopic(topic) && 0 < |info.name| <= MAX_NAME_LENGTH
                      && RoomToPublish(old(topicManager.S()), SlotId(info.name, topic, info.inst), fd)
      ensures !ok ==> V() == old(V())
      ensures ok ==> V() == old(V()).(tabs := old(V()).tabs.(
                       slots := old(V()).tabs.slots[SlotId(info.name, topic, info.inst) := Slot(fd, info, hash)]))
    {
      hide PidTableHolds;
      hide WatcherTableHolds;
      hide ServiceRegistry.Valid;
      hide WatchNotifier.Valid;
      hide TopicManager.Valid;
      hide TopicManager.ExactIndex;
      hide OutboxesOk;
      hide RoomToPublish;
      ok := topicManager.RegisterPublisher(topic, info, fd, hash);
    }

    /** addSubscriber. */
    method PutSubscriber(topic: Str, sel: Selector, fd: Fd) returns (ok: bool)
      requires Objects() && OutboxesOk()
      modifies topicManager
      ensures Objects() && OutboxesOk()
      ensures ok <==> ValidTopic(topic) && |sel.service| <= MAX_NAME_LENGTH
                      && SubId(sel.service, topic, fd, SelectorKey(sel)) !in old(V()).tabs.subs
                      && RoomToSubscribe(old(topicManager.S()), SubId(sel.service, topic, fd, SelectorKey(sel)))
      ensures !ok ==> V() == old(V())
      ensures ok ==> V() == old(V()).(tabs := old(V()).tabs.(
                       subs := old(V()).tabs.subs[SubId(sel.service, topic, fd, SelectorKey(sel)) := sel]))
    {
      hide PidTableHolds;
      hide WatcherTableHolds;
      hide ServiceRegistry.Valid;
      hide WatchNotifier.Valid;
      hide TopicManager.Valid;
      hide TopicManager.ExactIndex;
      hide OutboxesOk;
      hide RoomToSubscribe;
      hide SelectorKey;
      ok := topicManager.AddSubscriber(topic, sel, fd);
    }

    /** The tables of watched processes, replaced. */
    method SetWatchers(rows: WatcherTable, listed: PidTable, ghost wp': set<PidFd>, ghost pw': set<PidFd>)
      requires Objects() && OutboxesOk() && WatcherTableHolds(rows, wp') && PidTableHolds(listed, pw')
      modifies this`watcherToPids, this`pidWatchers, this`wp, this`pw
      ensures Objects() && OutboxesOk()
      ensures V() == old(V()).(tabs := old(V()).tabs.(wp := wp', pw := pw'))
    {
      hide PidTableHolds;
      hide WatcherTableHolds;
      hide ServiceRegistry.Valid;
      hide WatchNotifier.Valid;
      hide TopicManager.Valid;
      hide TopicManager.ExactIndex;
      watcherToPids, pidWatchers, wp, pw := rows, listed, wp', pw';
    }

    /** flushPendingSends for one connection. */
    method FlushSends(fd: Fd) returns (ok: bool)
      requires Objects() && OutboxesOk() && fd in clients
      modifies this`clients, this`answers
      ensures Objects() && OutboxesOk() && fd in clients
      ensures clients == old(clients)[fd := old(clients)[fd].(out := clients[fd].out)]
      ensures !ok ==> clients == old(clients)
      ensures clients[fd].out.frames == old(clients)[fd].out.frames
      ensures old(clients)[fd].out.taken <= clients[fd].out.taken
      ensures var o := old(clients)[fd].out;
              && o.offset <= |o.buffer|
              && var f := Flushed(|Pending(o)|, old(answers));
                 && ok == f.ok && answers == f.rest
                 && (ok ==> |clients[fd].out.taken| == |o.taken| + f.sent)
      ensures old(answers) == [] ==> ok && answers == [] && !Backlogged(clients[fd].out)
      ensures old(Smooth()) ==> Smooth()
    {
      OutboxWithin(clients[fd].out);
      assert OutboxOk(clients[fd].out) && (Smooth() ==> answers == []);
      hide *;
      SameOutbox(clients, fd);
      var out, rest;
      ok, out, rest := FlushPending(clients[fd].out, answers);
      if !ok { out := clients[fd].out; }
      PutOutbox(fd, out, rest);
    }

    method PutOutbox(fd: Fd, out: Outbox, rest: seq<int>)
      requires Objects() && OutboxesOk() && fd in clients && OutboxOk(out)
      modifies this`clients, this`answers
      ensures Objects() && OutboxesOk() && clients == old(clients)[fd := old(clients)[fd].(out := out)]
      ensures answers == rest && (old(Smooth()) && rest == [] && !Backlogged(out) ==> Smooth())
    {
      hide PidTableHolds;
      hide WatcherTableHolds;
      hide ServiceRegistry.Valid;
      hide WatchNotifier.Valid;
      hide TopicManager.Valid;
      hide TopicManager.ExactIndex;
      hide OutboxOk;
      clients, answers := clients[fd := clients[fd].(out := out)], rest;
    }

    /** A connection's fields, its session and the lists of processes, replaced. */
    method SetSession(fd: Fd, conn: Conn, key: Str, table: PidTable, ghost pids': set<PidFd>)
      requires Objects() && OutboxesOk() && fd in clients && conn.out == clients[fd].out && PidTableHolds(table, pids')
      modifies this`clients, this`sessions, this`pidToFds, this`pids
      ensures Objects() && OutboxesOk() && (old(Smooth()) ==> Smooth())
      ensures V() == old(V()).(clients := old(clients)[fd := conn], sessions := old(sessions)[key := fd],
                               tabs := old(V()).tabs.(pids := pids'))
    {
      hide PidTableHolds;
      hide WatcherTableHolds;
      hide ServiceRegistry.Valid;
      hide WatchNotifier.Valid;
      hide TopicManager.Valid;
      hide TopicManager.ExactIndex;
      hide OutboxOk;
      hide Backlogged;
      clients, sessions, pidToFds, pids := clients[fd := conn], sessions[key := fd], table, pids';
    }

    /** History: whether watchers were left with stale news. */
    ghost method Record(fine: bool)
      requires Ready()
      modifies this`clean
      ensures Ready() && clean == (old(clean) && fine)
    {
      hide OutboxesOk;
      hide PidTableHolds;
      hide WatcherTableHolds;
      hide ServiceRegistry.Valid;
      hide WatchNotifier.Valid;
      hide TopicManager.Valid;
      hide TopicManager.ExactIndex;
      hide PidsExact;
      hide WatchersMirror;
      hide SinceOk;
      clean := clean && fine;
    }

    /** The second part of closeClient, in which further connections may die. */
    method ReleaseTables(fd: Fd, conn: Conn) returns (ghost u: Sm)
      requires Ready() && fd !in clients && LeavesAlone(V(), fd, conn)
      modifies this, registry, watchers, topicManager
      ensures Ready() && Cleared(old(V()), u, fd)
      ensures Shrinks(Forget(u, fd), V(), {}) && Buried(Forget(u, fd), V(), {})
      ensures Halted(old(V()), V()) && Carries(old(V()), V())
      ensures clean == old(clean)
      ensures old(Smooth()) ==> Smooth() && clients.Keys == old(clients.Keys)
      decreases clients.Keys, 6
    {
      hide Objects;
      hide OutboxesOk;
      hide PidsExact;
      hide WatchersMirror;
      hide SinceOk;
      hide Shrinks;
      hide Buried;
      hide Halted;
      hide Carries;
      hide Cleared;
      hide LeavesAlone;
      hide Smooth;
      ghost var t := V();
      ClearTables(fd, conn);
      u := V();
      RemoveWatcherAndMaybeStopTargets(fd);
      HaltedTwice(t, u, V());
    }

    /** The first part of closeClient: the connection, its session and its services. */
    method EraseClient(fd: Fd) returns (removed: seq<ServiceIdentity>)
      requires Ready() && fd in clients
      modifies this, registry
      ensures Ready() && V() == Erased(old(V()), fd) && clean == old(clean) && answers == old(answers)
      ensures LeavesAlone(V(), fd, old(clients)[fd])
      ensures forall i :: 0 <= i < |removed| ==> ShortNames(removed[i]) && removed[i].Key() !in V().tabs.reg
      ensures RemovedFrom(old(V()).tabs.reg, fd, removed) && (removed == [] <==> !OwnsAny(old(V()), fd))
      ensures old(Smooth()) ==> Smooth() && clients.Keys == old(clients.Keys) - {fd}
    {
      hide ServiceRegistry.Valid;
      hide Purge;
      hide Halted;
      hide OutboxOk;
      hide PidTableHolds;
      hide WatcherTableHolds;
      hide WatchNotifier.Valid;
      hide TopicManager.Valid;
      hide TopicManager.ExactIndex;
      hide PidsExact;
      hide WatchersMirror;
      hide SinceOk;
      hide LeavesAlone;
      hide OwnsAny;
      hide RemovedFrom;
      hide ShortNames;
      ghost var s := V();
      ErasedKeeps(s, fd);
      var conn := clients[fd];
      clients := clients - {fd};
      if conn.sessionKey != [] && conn.sessionKey in sessions && sessions[conn.sessionKey] == fd {
        sessions := sessions - {conn.sessionKey};
      }
      assert sessions == PurgeSessions(s.clients, s.sessions, {fd});
      ghost var entries := registry.entries;
      removed := registry.RemoveByFd(fd);
      assert V() == Erased(s, fd);
      NothingRemoved(s, fd, removed);
      assert forall id :: id in V().tabs.reg ==> V().tabs.reg[id].fd != fd;
    }

    /** The middle part of closeClient: watches, topics, process and, when that
        was the process's last connection, everyone's watches of it. */
    method ClearTables(fd: Fd, conn: Conn)
      requires Ready() && fd !in clients && LeavesAlone(V(), fd, conn)
      modifies this, watchers, topicManager
      ensures Ready() && Cleared(old(V()), V(), fd) && Halted(old(V()), V()) && Carries(old(V()), V())
      ensures clean == old(clean) && clients == old(clients) && answers == old(answers)
      ensures old(Smooth()) ==> Smooth()
      ensures forall x :: x in pw && x.fd == fd ==> x in wp
    {
      hide Purge;
      hide Halted;
      hide OutboxOk;
      hide PidTableHolds;
      hide WatcherTableHolds;
      hide ServiceRegistry.Valid;
      hide WatchNotifier.Valid;
      hide TopicManager.Valid;
      hide TopicManager.ExactIndex;
      hide PidsExact;
      hide SinceOk;
      hide WatchersMirror;
      hide LeavesAlone;
      hide Cleared;
      ghost var s := V();
      MirrorIncluded(s);
      watchers.RemoveSubscriber(fd);
      topicManager.RemoveByFd(fd);
      var gone := ClearProcess(fd, conn);
      ClearedAddsUp(s, V(), fd, conn, gone);
    }

    /** Its process list and, if the process vanished, the watches of it. */
    method ClearProcess(fd: Fd, conn: Conn) returns (gone: bool)
      requires PidTableHolds(pidToFds, pids) && PidTableHolds(pidWatchers, pw)
      requires WatcherTableHolds(watcherToPids, wp) && wp <= pw
      modifies this`pidToFds, this`pidWatchers, this`watcherToPids, this`pids, this`pw, this`wp
      ensures PidTableHolds(pidToFds, pids) && PidTableHolds(pidWatchers, pw) && WatcherTableHolds(watcherToPids, wp)
      ensures pids == if conn.hello then old(pids) - {PidFd(conn.pid, fd)} else old(pids)
      ensures gone <==> conn.hello && !HasPid(pids, conn.pid)
      ensures pw == if gone then WithoutPid(old(pw), conn.pid) else old(pw)
      ensures wp == if gone then WithoutPid(old(wp), conn.pid) else old(wp)
    {
      hide PidTableHolds;
      hide WatcherTableHolds;
      gone := false;
      if conn.hello {
        pidToFds := RemovePair(pidToFds, conn.pid, fd, pids);
        pids := pids - {PidFd(conn.pid, fd)};
        PidKnown(pidToFds, conn.pid, pids);
        if conn.pid !in pidToFds {
          gone := true;
          RemoveTargetWatchers(conn.pid);
        }
      }
    }

    /** removeTargetWatchers. */
    method RemoveTargetWatchers(pid: Pid)
      requires PidTableHolds(pidWatchers, pw) && WatcherTableHolds(watcherToPids, wp) && wp <= pw
      modifies this`pidWatchers, this`watcherToPids, this`pw, this`wp
      ensures PidTableHolds(pidWatchers, pw) && WatcherTableHolds(watcherToPids, wp)
      ensures pw == WithoutPid(old(pw), pid) && wp == WithoutPid(old(wp), pid)
    {
      if pid !in pidWatchers {
        PidKnown(pidWatchers, pid, pw);
        assert pw == WithoutPid(pw, pid) && wp == WithoutPid(wp, pid);
        return;
      }
      var listed := pidWatchers[pid];
      assert listed == FdsOf(pidWatchers, pid);
      DropPidHolds(pidWatchers, pid, pw);
      watcherToPids := DropTarget(watcherToPids, pid, listed, wp);
      pidWatchers := pidWatchers - {pid};
      pw, wp := WithoutPid(pw, pid), WithoutPid(wp, pid);
    }

    /** A reply to a request, in the middle of a handler. */
    method SendReply(fd: Fd, mtype: PlainType, sequence: u32, body: Bytes)
      requires Ready() && fd in clients && Sendable(Plain(mtype, sequence, body))
      modifies this, registry, watchers, topicManager
      ensures Ready() && Shrinks(old(V()), V(), {}) && Buried(old(V()), V(), {}) && Halted(old(V()), V())
      ensures fd in clients ==> Sent(old(V()), V(), fd, Plain(mtype, sequence, body))
      ensures clean == old(clean)
      ensures old(Smooth()) ==> Smooth() && clients.Keys == old(clients.Keys)
      ensures old(answers) == [-1] && old(Unqueued()) ==> Smooth() && clients.Keys == old(clients.Keys) - {fd}
    {
      hide Purge;
      hide Halted;
      hide Extra;
      hide OutboxOk;
      hide PidTableHolds;
      hide WatcherTableHolds;
      hide ServiceRegistry.Valid;
      hide WatchNotifier.Valid;
      hide TopicManager.Valid;
      hide TopicManager.ExactIndex;
      hide PidsExact;
      hide WatchersMirror;
      hide SinceOk;
      hide Shrinks;
      hide Told;
      hide Buried;
      hide Sendable;
      ghost var s := V();
      var m := Plain(mtype, sequence, body);
      PlainExtra(fd, mtype, sequence, body, V().tabs);
      SendMessage(fd, m, {});
      KeysKept(s, V(), fd, m);
    }

    /** A reply that is all a request leads to. */
    method Reply(fd: Fd, mtype: PlainType, sequence: u32, body: Bytes)
      requires Sound() && fd in clients && Sendable(Plain(mtype, sequence, body))
      modifies this, registry, watchers, topicManager
      ensures Sound() && Shrinks(old(V()), V(), {}) && Buried(old(V()), V(), {}) && Halted(old(V()), V())
      ensures clean == old(clean)
      ensures old(Smooth()) ==> Smooth() && clients.Keys == old(clients.Keys)
      ensures fd in clients ==> Sent(old(V()), V(), fd, Plain(mtype, sequence, body))
    {
      hide Purge;
      hide Halted;
      hide Extra;
      hide OutboxOk;
      hide PidTableHolds;
      hide WatcherTableHolds;
      hide ServiceRegistry.Valid;
      hide WatchNotifier.Valid;
      hide TopicManager.Valid;
      hide TopicManager.ExactIndex;
      hide PidsExact;
      hide WatchersMirror;
      hide SinceOk;
      hide Shrinks;
      hide Told;
      hide Buried;
      hide Inv;
      hide Sendable;
      hide Sent;
      ghost var s := V();
      SendReply(fd, mtype, sequence, body);
      CascadeInv(s, V(), clean, clean);
    }

    /** The loop of closeClient over the services it removed. */
    method NotifyRemoved(removed: seq<ServiceIdentity>)
      requires Ready()
      requires forall i :: 0 <= i < |removed| ==> ShortNames(removed[i]) && removed[i].Key() !in V().tabs.reg
      modifies this, registry, watchers, topicManager
      ensures Ready() && Shrinks(old(V()), V(), OfflineOf(removed)) && Buried(old(V()), V(), {})
      ensures Halted(old(V()), V())
      ensures forall i :: 0 <= i < |removed| ==> Told(V(), removed[i].Key(), false)
      ensures clean == old(clean)
      ensures old(Smooth()) ==> Smooth() && clients.Keys == old(clients.Keys)
      decreases clients.Keys, 5
    {
      hide Purge;
      hide Halted;
      hide Extra;
      hide OutboxOk;
      hide PidTableHolds;
      hide WatcherTableHolds;
      hide ServiceRegistry.Valid;
      hide WatchNotifier.Valid;
      hide TopicManager.Valid;
      hide TopicManager.ExactIndex;
      hide PidsExact;
      hide WatchersMirror;
      hide SinceOk;
      hide Shrinks;
      hide Told;
      hide Buried;
      ghost var s, a := V(), OfflineOf(removed);
      ShrinksSame(s, a);
      BuriedSame(s, {});
      HaltedSame(s, s);
      for i := 0 to |removed|
        invariant Ready() && Shrinks(s, V(), a) && Buried(s, V(), {}) && Halted(s, V())
        invariant clients.Keys <= old(clients.Keys)
        invariant clean == old(clean)
        invariant old(Smooth()) ==> Smooth() && clients.Keys == old(clients.Keys)
        invariant forall j :: 0 <= j < i ==> Told(V(), removed[j].Key(), false)
      {
        ghost var t := V();
        RegShrinks(s, t, a);
        NotifyServiceWatch(removed[i], false);
        OfflineRound(s, t, V(), removed, i);
        HaltedAfter(s, t, V(), a, a);
        forall j | 0 <= j < i
          ensures Told(V(), removed[j].Key(), false)
        {
          ShrinksKeepsTold(t, V(), a, removed[j].Key(), false);
        }
        ClientsShrink(t, V(), a);
      }
    }

    /** forEachPidConn with a visitor that sends one diagnostic command: the
        connection list is copied, and each connection is looked up again.
        `handled` tells whether some connection lived through its send. */
    method SendToPid(pid: Pid, except: Fd, mtype: PlainType, body: Bytes) returns (handled: bool)
      requires Ready() && |body| <= 64
      modifies this, registry, watchers, topicManager
      ensures Ready() && Shrinks(old(V()), V(), {}) && Buried(old(V()), V(), {}) && Halted(old(V()), V())
      ensures clean == old(clean)
      ensures old(Smooth()) ==> Smooth() && clients.Keys == old(clients.Keys)
      ensures Commanded(old(V()), V(), pid, except, mtype, body)
      ensures (exists f :: Addressed(old(V()), pid, except, f) && f in clients) ==> handled
      ensures handled ==> exists f :: Addressed(old(V()), pid, except, f)
      decreases clients.Keys, 3
    {
      hide OutboxOk;
      hide PidTableHolds;
      hide WatcherTableHolds;
      hide ServiceRegistry.Valid;
      hide WatchNotifier.Valid;
      hide TopicManager.Valid;
      hide TopicManager.ExactIndex;
      hide PidsExact;
      hide WatchersMirror;
      hide SinceOk;
      hide Shrinks;
      hide Buried;
      hide Halted;
      hide GotCommand;
      hide Smooth;
      ghost var s := V();
      ShrinksSame(s, {});
      BuriedSame(s, {});
      HaltedSame(s, s);
      handled := false;
      var fds := FdsOf(pidToFds, pid);
      ListedFds(pidToFds, pids, pid);
      for i := 0 to |fds|
        invariant Ready() && Shrinks(s, V(), {}) && Buried(s, V(), {}) && Halted(s, V())
        invariant clients.Keys <= old(clients.Keys)
        invariant clean == old(clean)
        invariant old(Smooth()) ==> Smooth() && clients.Keys == old(clients.Keys)
        invariant forall f :: f in fds[..i] && f != except && f in clients ==>
                    handled && GotCommand(s, V(), f, mtype, body)
        invariant handled ==> exists f :: Addressed(s, pid, except, f)
      {
        ghost var t := V();
        if fds[i] in clients && fds[i] != except {
          assert Addressed(s, pid, except, fds[i]);
          SendCommand(fds[i], mtype, body, s);
          handled := handled || fds[i] in clients;
          CommandsKept(s, t, V(), mtype, body);
          ClientsShrink(t, V(), {});
        }
      }
    }

    /** One command on its way from state `s`, in which the walk began. */
    method SendCommand(fd: Fd, mtype: PlainType, body: Bytes, ghost s: Sm)
      requires Ready() && fd in clients && |body| <= 64
      requires Shrinks(s, V(), {}) && Buried(s, V(), {}) && Halted(s, V())
      modifies this, registry, watchers, topicManager
      ensures Ready() && Shrinks(old(V()), V(), {}) && clients.Keys <= old(clients.Keys)
      ensures Shrinks(s, V(), {}) && Buried(s, V(), {}) && Halted(s, V())
      ensures clean == old(clean)
      ensures old(Smooth()) ==> Smooth() && clients.Keys == old(clients.Keys)
      ensures fd in clients ==> GotCommand(s, V(), fd, mtype, body)
      decreases clients.Keys, 2
    {
      hide Objects;
      hide OutboxesOk;
      hide Smooth;
      hide PidsExact;
      hide WatchersMirror;
      hide SinceOk;
      hide Purge;
      hide Extra;
      hide Shrinks;
      hide Told;
      hide Buried;
      hide Halted;
      hide Sent;
      hide GotCommand;
      ghost var t := V();
      var n := NextNumber();
      var m := Plain(mtype, n, body);
      SmallReply(mtype, n, body);
      PlainExtra(fd, mtype, n, body, V().tabs);
      SendMessage(fd, m, {});
      KeysKept(t, V(), fd, m);
      HaltedAfter(s, t, V(), {}, {});
      if fd in clients { CommandSent(s, t, V(), fd, m); }
      ShrinksTwice(s, t, V(), {});
      BuriedTwice(s, t, V(), {}, {});
      ClientsShrink(t, V(), {});
    }

    /** Ready, except that one watcher pair may still stand in pid_watchers_ alone. */
    ghost predicate ReadyBut(x: PidFd)
      reads this, registry, watchers, topicManager
    {
      && Objects() && OutboxesOk()
      && PidsExact(V()) && WatchersMirror(Unpair(V(), x)) && SinceOk(V())
      && SM_PROACTIVE_SEQ_BASE <= smSeq
    }

    /** stopTargetIfUnwatched: drop the watcher from the process's list; tell the
        process to stop when nobody watches it any more. */
    method StopTargetIfUnwatched(pid: Pid, w: Fd)
      requires ReadyBut(PidFd(pid, w))
      modifies this, registry, watchers, topicManager
      ensures Ready() && Shrinks(Unpair(old(V()), PidFd(pid, w)), V(), {})
      ensures Buried(Unpair(old(V()), PidFd(pid, w)), V(), {}) && Halted(Unpair(old(V()), PidFd(pid, w)), V())
      ensures clean == old(clean)
      ensures old(Smooth()) ==> Smooth() && clients.Keys == old(clients.Keys)
      ensures if HasPid(old(pw) - {PidFd(pid, w)}, pid) then V() == Unpair(old(V()), PidFd(pid, w))
              else Commanded(old(V()), V(), pid, w, MSG_DIAG_WATCH_STOP, [])
      decreases clients.Keys, 4
    {
      hide Purge;
      hide Halted;
      hide Extra;
      hide OutboxOk;
      hide PidTableHolds;
      hide WatcherTableHolds;
      hide ServiceRegistry.Valid;
      hide WatchNotifier.Valid;
      hide TopicManager.Valid;
      hide TopicManager.ExactIndex;
      hide PidsExact;
      hide WatchersMirror;
      hide SinceOk;
      hide Shrinks;
      hide Told;
      hide Buried;
      ghost var x := PidFd(pid, w);
      var known := pid in pidWatchers;
      PidKnown(pidWatchers, pid, pw);
      pidWatchers := RemovePair(pidWatchers, pid, w, pw);
      pw := pw - {x};
      assert V() == Unpair(old(V()), x);
      UnpairKeeps(old(V()), x);
      PidKnown(pidWatchers, pid, pw);
      if known && pid in pidWatchers {
        ShrinksSame(V(), {});
        BuriedSame(V(), {});
        HaltedSame(V(), V());
        return;
      }
      var _ := SendToPid(pid, w, MSG_DIAG_WATCH_STOP, []);
    }

    /** The watcher's own row goes first; the processes in it are to be told. */
    method DropWatcher(w: Fd) returns (mine: set<Pid>)
      requires Ready() && w !in clients
      requires forall x :: x in pw && x.fd == w ==> x in wp
      modifies this`watcherToPids, this`wp
      ensures Ready() && SinceOk(Forget(V(), w)) && Forget(V(), w) == Forget(old(V()), w)
      ensures forall x :: x in wp ==> x.fd != w
      ensures forall x :: x in pw && x.fd == w ==> x.pid in mine
    {
      hide OutboxOk;
      hide PidTableHolds;
      hide WatcherTableHolds;
      hide ServiceRegistry.Valid;
      hide WatchNotifier.Valid;
      hide TopicManager.Valid;
      hide TopicManager.ExactIndex;
      hide PidsExact;
      hide WatchersMirror;
      hide SinceOk;
      mine := PidsOf(watcherToPids, w);
      WatchedPids(watcherToPids, wp, w);
      DropWatcherHolds(watcherToPids, w, wp);
      watcherToPids, wp := watcherToPids - {w}, PairsOutside(wp, {w});
      DropWatcherReady(old(V()), V(), w);
    }

    /** removeWatcherAndMaybeStopTargets, for a connection that is being closed. */
    method RemoveWatcherAndMaybeStopTargets(w: Fd)
      requires Ready() && w !in clients
      requires forall x :: x in pw && x.fd == w ==> x in wp
      modifies this, registry, watchers, topicManager
      ensures Ready() && Shrinks(Forget(old(V()), w), V(), {}) && Buried(Forget(old(V()), w), V(), {})
      ensures Halted(old(V()), V()) && Carries(old(V()), V()) && Released(old(V()), V(), w)
      ensures clean == old(clean)
      ensures old(Smooth()) ==> Smooth() && clients.Keys == old(clients.Keys)
      decreases clients.Keys, 5
    {
      hide Carries;
      hide Smooth;
      hide HasPid;
      hide Released;
      hide Commanded;
      hide Purge;
      hide Halted;
      hide Extra;
      hide OutboxOk;
      hide PidTableHolds;
      hide WatcherTableHolds;
      hide ServiceRegistry.Valid;
      hide WatchNotifier.Valid;
      hide TopicManager.Valid;
      hide TopicManager.ExactIndex;
      hide PidsExact;
      hide WatchersMirror;
      hide SinceOk;
      hide Shrinks;
      hide Told;
      hide Buried;
      ghost var s := Forget(V(), w);
      var mine := DropWatcher(w);
      ShrinksSame(s, {});
      BuriedSame(s, {});
      ForgetStarts(old(V()), V());
      var todo := mine;
      while todo != {}
        invariant Ready() && clients.Keys <= old(clients.Keys)
        invariant clean == old(clean)
        invariant old(Smooth()) ==> Smooth() && clients.Keys == old(clients.Keys)
        invariant Halted(old(V()), V()) && Carries(old(V()), V())
        invariant forall x :: x in wp ==> x.fd != w
        invariant Shrinks(s, Forget(V(), w), {}) && Buried(s, Forget(V(), w), {}) && SinceOk(Forget(V(), w))
        invariant forall x :: x in pw && x.fd == w ==> x.pid in todo
      {
        var pid := Pick(todo);
        ghost var t := V();
        UnpairReady(t, PidFd(pid, w));
        StopTargetIfUnwatched(pid, w);
        ForgetRound(s, t, V(), w, PidFd(pid, w));
        ForgetHalts(old(V()), t, V(), PidFd(pid, w));
        todo := todo - {pid};
      }
      NothingToForget(V(), w);
      TargetsReleased(old(V()), V(), w);
    }
  }

  // ---- Closing one connection --------------------------------------------------------------

  /** Some instance belongs to the connection. */
  ghost predicate OwnsAny(s: Sm, f: Fd) {
    exists key :: key in s.tabs.reg && s.tabs.reg[key].fd == f
  }

  /** What remains listed of a connection that has left `clients`: its process,
      and watcher pairs in both tables alike. */
  ghost predicate LeavesAlone(s: Sm, f: Fd, conn: Conn) {
    && (forall x :: x in s.tabs.pids && x.fd == f <==> conn.hello && x == PidFd(conn.pid, f))
    && (forall x :: x in s.tabs.pw && x.fd == f ==> x in s.tabs.wp)
    && (forall id :: id in s.tabs.reg ==> s.tabs.reg[id].fd != f)
  }

  lemma MirrorIncluded(s: Sm)
    requires WatchersMirror(s)
    ensures s.tabs.wp <= s.tabs.pw
  {
  }

  lemma ErasedKeeps(s: Sm, f: Fd)
    requires f in s.clients && PidsExact(s) && WatchersMirror(s) && SinceOk(s)
    ensures var t := Erased(s, f);
            PidsExact(t) && WatchersMirror(t) && SinceOk(t) && LeavesAlone(t, f, s.clients[f])
  {
    hide PurgeSessions;
  }

  lemma NothingRemoved(s: Sm, f: Fd, removed: seq<ServiceIdentity>)
    requires RemovedFrom(s.tabs.reg, f, removed)
    ensures removed == [] <==> !OwnsAny(s, f)
    ensures forall i :: 0 <= i < |removed| ==>
              ShortNames(removed[i]) && removed[i].Key() !in OwnedOutside(s.tabs.reg, {f})
  {
    if removed != [] { assert removed[0].Key() in s.tabs.reg; }
  }

  lemma SilentSame(s: Sm, f: Fd)
    ensures Silent(s, s, f)
  {
  }

  lemma LostStatements(s: Sm, f: Fd, removed: seq<ServiceIdentity>)
    requires RemovedFrom(s.tabs.reg, f, removed)
    ensures OfLost(s, f, OfflineOf(removed)) && OfLost(s, f, {})
  {
  }

  lemma LeavesAloneLater(s: Sm, t: Sm, f: Fd, conn: Conn, a: set<Says>)
    requires LeavesAlone(s, f, conn) && Shrinks(s, t, a) && f !in s.clients
    ensures LeavesAlone(t, f, conn)
  {
    hide PurgeSessions;
    hide Vanishes;
    hide Extra;
    assert forall x :: x in t.tabs.pids && x.fd == f <==> x in s.tabs.pids && x.fd == f;
  }

  /** Clearing the tables piece by piece is purging the one connection. */
  /** A process that vanished has no connection to be told. */
  lemma ClearedHalts(s: Sm, t: Sm, f: Fd, conn: Conn, gone: bool)
    requires f !in s.clients && t.clients == s.clients
    requires gone <==> conn.hello && !HasPid(s.tabs.pids - {PidFd(conn.pid, f)}, conn.pid)
    requires t.tabs.pids == if conn.hello then s.tabs.pids - {PidFd(conn.pid, f)} else s.tabs.pids
    requires t.tabs.pw == if gone then WithoutPid(s.tabs.pw, conn.pid) else s.tabs.pw
    ensures Halted(s, t) && Carries(s, t)
  {
    hide GotCommand;
    forall pid, g | HasPid(s.tabs.pw, pid) && PidFd(pid, g) in s.tabs.pids && g in s.clients
      ensures HasPid(t.tabs.pw, pid)
    {
      var x :| x in s.tabs.pw && x.pid == pid;
      assert PidFd(pid, g) in s.tabs.pids - {PidFd(conn.pid, f)} && PidFd(pid, g).pid == pid;
      assert x in t.tabs.pw;
    }
  }

  /** The parts of a close together. */
  lemma CloseHalts(s: Sm, f: Fd, t: Sm, v: Sm, a: set<Says>)
    requires f in s.clients && Shrinks(Erased(s, f), t, a) && Halted(Erased(s, f), t)
    requires Halted(t, v) && Carries(t, v) && Shrinks(s, v, {}) && f !in v.clients
    ensures Halted(s, v) && Released(s, v, f)
  {
    ErasedCarries(s, f);
    ShrinksCarries(Erased(s, f), t, a);
    hide *;
    HaltedTwice(s, Erased(s, f), t);
    HaltedTwice(s, t, v);
    ReleasedByClose(s, v, f);
  }

  lemma ClearedAddsUp(s: Sm, t: Sm, f: Fd, conn: Conn, gone: bool)
    requires LeavesAlone(s, f, conn) && f !in s.clients
    requires PidsExact(s) && WatchersMirror(s) && SinceOk(s)
    requires gone <==> conn.hello && !HasPid(s.tabs.pids - {PidFd(conn.pid, f)}, conn.pid)
    requires t == s.(tabs := Tables(
               s.tabs.reg, WatchedOutside(s.tabs.watches, {f}),
               SlotsOutside(s.tabs.slots, {f}), SubsOutside(s.tabs.subs, {f}),
               if conn.hello then s.tabs.pids - {PidFd(conn.pid, f)} else s.tabs.pids,
               if gone then WithoutPid(s.tabs.pw, conn.pid) else s.tabs.pw,
               if gone then WithoutPid(s.tabs.wp, conn.pid) else s.tabs.wp))
    ensures Cleared(s, t, f) && Halted(s, t) && Carries(s, t)
    ensures PidsExact(t) && WatchersMirror(t) && SinceOk(t)
    ensures forall x :: x in t.tabs.pw && x.fd == f ==> x in t.tabs.wp
  {
    ClearedHalts(s, t, f, conn, gone);
    hide Halted;
    hide Carries;
    assert t.tabs.pids == PairsOutside(s.tabs.pids, {f});
    assert OwnedOutside(s.tabs.reg, {f}) == s.tabs.reg;
    forall pid: Pid
      ensures Vanishes(s.tabs.pids, {f}, pid) <==> gone && pid == conn.pid
    {
      VanishesOne(s.tabs.pids, f, pid, conn);
    }
    hide Vanishes;
    assert Forget(t, f).tabs.pw == WatchPairsOutside(s.tabs.pw, s.tabs.pids, {f});
    assert Forget(t, f).tabs.wp == WatchPairsOutside(s.tabs.wp, s.tabs.pids, {f});
  }

  lemma VanishesOne(pids: set<PidFd>, f: Fd, pid: Pid, conn: Conn)
    requires forall x :: x in pids && x.fd == f <==> conn.hello && x == PidFd(conn.pid, f)
    ensures Vanishes(pids, {f}, pid) <==>
              conn.hello && pid == conn.pid && !HasPid(pids - {PidFd(conn.pid, f)}, conn.pid)
  {
    if HasPid(pids, pid) && !(conn.hello && pid == conn.pid) {
      var x :| x in pids && x.pid == pid;
      assert x in PairsOutside(pids, {f});
    }
    if conn.hello {
      assert PidFd(conn.pid, f) in pids;
      assert PairsOutside(pids, {f}) == pids - {PidFd(conn.pid, f)};
    }
  }

  /** A close that notifies buries everything that disappeared with it. */
  lemma CloseBuries(s: Sm, f: Fd, t: Sm, u: Sm, v: Sm, a: set<Says>)
    requires f in s.clients && SinceOk(t)
    requires Shrinks(Erased(s, f), t, a) && Cleared(t, u, f) && Shrinks(Forget(u, f), v, {})
    requires Buried(Erased(s, f), t, {}) && Buried(Forget(u, f), v, {})
    requires forall key :: key in s.tabs.reg && s.tabs.reg[key].fd == f ==> Told(t, key, false)
    ensures Buried(s, v, {})
  {
    hide Shrinks;
    hide Vanishes;
    var u' := Forget(u, f);
    assert SinceOk(u');
    RegShrinks(Erased(s, f), t, a);
    forall key | key in s.tabs.reg && key !in v.tabs.reg
      ensures Told(v, key, false)
    {
      if key !in t.tabs.reg {
        assert Told(t, key, false);
        assert Told(u', key, false);
        ShrinksKeepsTold(u', v, {}, key, false);
      } else {
        assert key in u'.tabs.reg;
      }
    }
  }

  /** The statements the loop over removed services makes. */
  ghost function OfflineOf(removed: seq<ServiceIdentity>): set<Says> {
    set i | 0 <= i < |removed| :: Says(removed[i].Key(), false)
  }

  /** A round of offline notifications for an instance that is gone. */
  lemma OfflineRound(s: Sm, t: Sm, u: Sm, removed: seq<ServiceIdentity>, i: nat)
    requires i < |removed|
    requires var key, a := removed[i].Key(), OfflineOf(removed);
             && Shrinks(s, t, a) && Shrinks(t, u, {Says(key, false)}) && SinceOk(t)
             && Buried(s, t, {}) && Buried(t, u, {key}) && key !in t.tabs.reg
    ensures Shrinks(t, u, OfflineOf(removed)) && Shrinks(s, u, OfflineOf(removed)) && Buried(s, u, {})
  {
    hide Told;
    hide Extra;
    hide Purge;
    hide Shrinks;
    var key, a := removed[i].Key(), OfflineOf(removed);
    ShrinksMore(t, u, {Says(key, false)}, a);
    ShrinksTwice(s, t, u, a);
    assert Buried(t, u, {});
    BuriedTwice(s, t, u, a, {});
  }

  lemma ListedFds(m: PidTable, pairs: set<PidFd>, pid: Pid)
    requires PidTableHolds(m, pairs)
    ensures forall f :: PidFd(pid, f) in pairs <==> f in FdsOf(m, pid)
  {
  }

  lemma SameOutbox(clients: map<Fd, Conn>, fd: Fd)
    requires fd in clients
    ensures clients[fd := clients[fd].(out := clients[fd].out)] == clients
  {
  }

  lemma OutboxWithin(o: Outbox)
    requires OutboxOk(o)
    ensures o.offset <= |o.buffer|
  {
  }

  lemma PlainExtra(f: Fd, mtype: PlainType, n: u32, body: Bytes, tabs: Tables)
    ensures Extra(f, Plain(mtype, n, body), tabs.reg, tabs, {})
  {
  }

  /** A send that leaves its connection open leaves all of them open. */
  lemma KeysKept(s: Sm, t: Sm, f: Fd, m: Msg)
    ensures Sent(s, t, f, m) ==> t.clients.Keys == s.clients.Keys
  {
  }

  lemma UnpairKeeps(s: Sm, x: PidFd)
    requires PidsExact(s) && SinceOk(s)
    ensures PidsExact(Unpair(s, x)) && SinceOk(Unpair(s, x))
  {
  }

  lemma UnpairReady(s: Sm, x: PidFd)
    requires WatchersMirror(s) && x.fd !in s.clients && x !in s.tabs.wp
    ensures WatchersMirror(Unpair(s, x))
  {
  }

  lemma WatchedPids(m: WatcherTable, pairs: set<PidFd>, w: Fd)
    requires WatcherTableHolds(m, pairs)
    ensures forall x :: x in pairs && x.fd == w ==> x.pid in PidsOf(m, w)
  {
  }

  lemma DropWatcherReady(s: Sm, t: Sm, w: Fd)
    requires WatchersMirror(s) && PidsExact(s) && SinceOk(s) && w !in s.clients
    requires t == s.(tabs := s.tabs.(wp := PairsOutside(s.tabs.wp, {w})))
    ensures WatchersMirror(t) && PidsExact(t) && SinceOk(t) && SinceOk(Forget(t, w))
    ensures PairsOutside(PairsOutside(s.tabs.wp, {w}), {w}) == PairsOutside(s.tabs.wp, {w})
  {
  }

  // ---- Telling watch groups one by one ---------------------------------------------------

  /** The groups listed, as far as their connections live, were last told this. */
  ghost predicate ToldGroups(s: Sm, groups: seq<WatchKey>, key: Ident, online: bool) {
    forall k :: k in groups && k.fd in s.clients ==>
      k in s.tabs.watches && k in s.since && LastTold(s, k, key) == Some(online)
  }

  lemma BuriedSame(s: Sm, x: set<Ident>)
    ensures Buried(s, s, x)
  {
  }

  lemma ClientsShrink(s: Sm, t: Sm, a: set<Says>)
    requires Shrinks(s, t, a)
    ensures t.clients.Keys <= s.clients.Keys
  {
  }

  lemma BuriedOn(s: Sm, t: Sm, u: Sm, a: set<Says>, key: Ident)
    requires Buried(s, t, {key}) && Shrinks(t, u, a) && SinceOk(t) && Buried(t, u, {})
    requires forall y :: y in a ==> y.Says? && y.key == key
    ensures Buried(s, u, {key})
  {
    hide Told;
    assert Buried(t, u, {key});
    BuriedTwice(s, t, u, a, {key});
  }

  /** A notification to a group that matched at the start is an allowed extra. */
  lemma GroupExtra(s: Sm, t: Sm, a: set<Says>, k: WatchKey, m: Msg)
    requires Shrinks(s, t, a) && k in s.tabs.watches && k.fd in t.clients
    requires m.WatchNotify? && m.id == k.id && GroupMatches(s.tabs.watches[k], m.identity.Key())
    requires Says(m.identity.Key(), m.online) in a
    ensures Extra(k.fd, m, t.tabs.reg, t.tabs, a)
  {
    GroupSurvives(s, t, a, k);
  }

  lemma ToldNobody(s: Sm, key: Ident, online: bool)
    ensures ToldGroups(s, [], key, online)
  {
  }

  /** One more group told, and the earlier ones not told otherwise. */
  /** The first `i` groups were told, on the way from `s` to `t`. */
  ghost predicate Telling(s: Sm, t: Sm, groups: seq<WatchKey>, i: nat, key: Ident, online: bool) {
    && i <= |groups| && Shrinks(s, t, {Says(key, online)}) && Buried(s, t, {key}) && Halted(s, t)
    && (key !in s.tabs.reg ==> key !in t.tabs.reg)
    && (!online || key in t.tabs.reg || key !in s.tabs.reg ==> ToldGroups(t, groups[..i], key, online))
  }

  lemma TellingNobody(s: Sm, groups: seq<WatchKey>, key: Ident, online: bool)
    ensures Telling(s, s, groups, 0, key, online)
  {
    hide Shrinks;
    hide Buried;
    hide Halted;
    hide ToldGroups;
    ShrinksSame(s, {Says(key, online)});
    BuriedSame(s, {key});
    HaltedSame(s, s);
    ToldNobody(s, key, online);
  }

  lemma TellingAll(s: Sm, t: Sm, groups: seq<WatchKey>, key: Ident, online: bool)
    requires Telling(s, t, groups, |groups|, key, online)
    requires forall k :: k in groups <==> k in s.tabs.watches && GroupMatches(s.tabs.watches[k], key)
    ensures Shrinks(s, t, {Says(key, online)}) && Buried(s, t, {key}) && Halted(s, t)
    ensures !online || key in t.tabs.reg || key !in s.tabs.reg ==> Told(t, key, online)
  {
    hide Shrinks;
    hide Buried;
    hide Halted;
    hide Told;
    hide ToldGroups;
    assert groups[..|groups|] == groups;
    if !online || key in t.tabs.reg || key !in s.tabs.reg {
      AllGroupsTold(s, t, {Says(key, online)}, groups, key, online);
    }
  }

  lemma ToldNext(s: Sm, t: Sm, groups: seq<WatchKey>, i: nat, key: Ident, online: bool, gone: bool)
    requires i < |groups| && SinceOk(s) && Shrinks(s, t, {Says(key, online)})
    requires gone ==> key !in s.tabs.reg
    requires !online || key in s.tabs.reg || gone ==> ToldGroups(s, groups[..i], key, online)
    requires groups[i].fd in t.clients ==>
               groups[i] in t.tabs.watches && groups[i] in t.since && LastTold(t, groups[i], key) == Some(online)
    ensures !online || key in t.tabs.reg || gone ==> ToldGroups(t, groups[..i + 1], key, online)
    ensures gone ==> key !in t.tabs.reg
  {
    RegShrinks(s, t, {Says(key, online)});
    if !online || key in t.tabs.reg || gone {
      forall k | k in groups[..i + 1] && k.fd in t.clients
        ensures k in t.tabs.watches && k in t.since && LastTold(t, k, key) == Some(online)
      {
        if k != groups[i] {
          assert k in groups[..i];
          ClientSurvived(s, t, {Says(key, online)}, k.fd);
          GroupSurvives(s, t, {Says(key, online)}, k);
          LastToldMoves(s, t, {Says(key, online)}, k, key, online);
        }
      }
    }
  }

  lemma AllGroupsTold(s: Sm, t: Sm, a: set<Says>, groups: seq<WatchKey>, key: Ident, online: bool)
    requires Shrinks(s, t, a) && ToldGroups(t, groups, key, online)
    requires forall k :: k in groups <==> k in s.tabs.watches && GroupMatches(s.tabs.watches[k], key)
    ensures Told(t, key, online)
  {
    forall k | k in t.tabs.watches && k.fd in t.clients && GroupMatches(t.tabs.watches[k], key)
      ensures k in t.since && LastTold(t, k, key) == Some(online)
    {
      GroupSurvives(s, t, a, k);
    }
  }

  /** One watcher pair dropped and its cascade, seen without that watcher. */
  lemma ForgetRound(s: Sm, t: Sm, u: Sm, w: Fd, x: PidFd)
    requires Shrinks(s, Forget(t, w), {}) && Buried(s, Forget(t, w), {}) && SinceOk(Forget(t, w))
    requires w !in t.clients && x.fd == w
    requires Shrinks(Unpair(t, x), u, {}) && Buried(Unpair(t, x), u, {})
    ensures Shrinks(s, Forget(u, w), {}) && Buried(s, Forget(u, w), {}) && SinceOk(Forget(u, w))
    ensures u.clients.Keys <= t.clients.Keys && u.tabs.wp <= t.tabs.wp
    ensures forall y :: y in u.tabs.pw && y.fd == w ==> y in t.tabs.pw && y != x
  {
    hide Told;
    hide Extra;
    assert Forget(Unpair(t, x), w) == Forget(t, w);
    ForgetShrinks(Unpair(t, x), u, w);
    ShrinksTwice(s, Forget(t, w), Forget(u, w), {});
    ShrinksKeepsSince(Forget(t, w), Forget(u, w), {});
    assert forall y :: y in u.tabs.pw ==> y in t.tabs.pw && y != x;
    hide Shrinks;
    ForgetBuried(Unpair(t, x), u, w);
    BuriedTwice(s, Forget(t, w), Forget(u, w), {}, {});
  }

  lemma ForgetStarts(s: Sm, t: Sm)
    requires t.clients == s.clients && t.tabs.pw == s.tabs.pw && t.tabs.pids == s.tabs.pids
    ensures Halted(s, t) && Carries(s, t)
  {
    HaltedSame(s, t);
  }

  lemma ForgetHalts(s: Sm, t: Sm, u: Sm, x: PidFd)
    requires Halted(s, t) && Carries(s, t) && x.fd !in t.clients
    requires Shrinks(Unpair(t, x), u, {}) && Halted(Unpair(t, x), u)
    requires if HasPid(t.tabs.pw - {x}, x.pid) then u == Unpair(t, x)
             else Commanded(t, u, x.pid, x.fd, MSG_DIAG_WATCH_STOP, [])
    ensures Halted(s, u) && Carries(s, u)
  {
    hide *;
    UnpairHalts(t, u, x);
    HaltedTwice(s, t, u);
  }

  lemma TargetsReleased(s: Sm, t: Sm, w: Fd)
    requires Halted(s, t) && Shrinks(Forget(s, w), t, {})
    ensures Released(s, t, w)
  {
    hide Extra;
    hide PurgeSessions;
    hide Halted;
    hide Released;
    HaltedReleases(s, t, w);
  }

  lemma ForgetBuried(s: Sm, t: Sm, w: Fd)
    requires Buried(s, t, {})
    ensures Buried(Forget(s, w), Forget(t, w), {})
  {
    forall key | key in s.tabs.reg && key !in t.tabs.reg
      ensures Told(Forget(t, w), key, false)
    {
      assert Told(t, key, false);
      forall k | k in t.tabs.watches && k.fd in t.clients && GroupMatches(t.tabs.watches[k], key)
        ensures k in t.since && LastTold(Forget(t, w), k, key) == Some(false)
      {
        assert LastTold(t, k, key) == Some(false);
      }
    }
  }

  lemma NothingToForget(s: Sm, w: Fd)
    requires WatchersMirror(s) && forall x :: x in s.tabs.pw ==> x.fd != w
    ensures Forget(s, w) == s
  {
    assert PairsOutside(s.tabs.pw, {w}) == s.tabs.pw;
    assert PairsOutside(s.tabs.wp, {w}) == s.tabs.wp;
  }

  lemma SentBuries(s: Sm, t: Sm, f: Fd, m: Msg)
    requires Sent(s, t, f, m)
    ensures Buried(s, t, {})
  {
  }
}

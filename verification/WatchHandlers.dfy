/** Watch subscriptions and heartbeats (service_manager/sm_registry.cpp). */
module WatchHandlers {
  import opened Base
  import opened Wire
  import opened ServiceCodec
  import opened Registry
  import opened Watching
  import opened TopicManagement
  import opened Outboxes
  import opened ControlPlane
  import opened Commands
  import opened Invariants
  import opened StateInvariant
  import opened ProcessTables
  import opened ServiceManagement

  const MSG_SUBSCRIBE_SERVICE_WATCH_REPLY: PlainType := 0x0028
  const MSG_CONTROL_HEARTBEAT_ACK: PlainType := 0x0008

  const MAX_WATCH_FILTERS := 64

  // ---- Requests ---------------------------------------------------------------------------

  predicate GoodFilter(f: WatchFilter) {
    0 < |f.name| <= MAX_NAME_LENGTH && |f.host| <= MAX_NAME_LENGTH && |f.inst| <= MAX_NAME_LENGTH
  }

  ghost predicate GoodFilters(filters: seq<WatchFilter>) {
    && 0 < |filters| <= MAX_WATCH_FILTERS
    && (forall i :: 0 <= i < |filters| ==> GoodFilter(filters[i]))
    && Disjoint(filters)
  }

  predicate NamesWithin(f: WatchFilter, limit: nat) {
    f.name != [] && |f.name| <= limit && |f.host| <= limit && |f.inst| <= limit
  }

  /** Good groups are those of 1 to 64 filters with good names, no two of which
      share an instance. */
  lemma GoodFiltersIff(filters: seq<WatchFilter>)
    ensures GoodFilters(filters) <==>
              && 0 < |filters| <= 64 && (forall i :: 0 <= i < |filters| ==> NamesWithin(filters[i], 256))
              && forall i, j, id :: 0 <= i < j < |filters| ==>
                   !FilterMatches(filters[i], id) || !FilterMatches(filters[j], id)
  {
    forall i, j | 0 <= i < j < |filters|
      ensures Overlaps(filters[i], filters[j]) <==>
                exists id :: FilterMatches(filters[i], id) && FilterMatches(filters[j], id)
    {
      OverlapsIffShared(filters[i], filters[j]);
    }
  }

  /** The checks of handleSubscribeServiceWatch, filter by filter. */
  method CheckFilters(filters: seq<WatchFilter>) returns (ok: bool)
    ensures ok <==> GoodFilters(filters)
    ensures ok <==>
              && 0 < |filters| <= 64 && (forall i :: 0 <= i < |filters| ==> NamesWithin(filters[i], 256))
              && forall i, j, id :: 0 <= i < j < |filters| ==>
                   !FilterMatches(filters[i], id) || !FilterMatches(filters[j], id)
  {
    GoodFiltersIff(filters);
    if !(0 < |filters| <= MAX_WATCH_FILTERS) { return false; }
    for i := 0 to |filters|
      invariant forall j :: 0 <= j < i ==> GoodFilter(filters[j])
      invariant forall j, k :: 0 <= j < k < i ==> !Overlaps(filters[j], filters[k])
    {
      if !GoodFilter(filters[i]) { return false; }
      for j := 0 to i
        invariant forall k :: 0 <= k < j ==> !Overlaps(filters[k], filters[i])
      {
        if Overlaps(filters[j], filters[i]) { return false; }
      }
    }
    return true;
  }

  // ---- The initial snapshot -----------------------------------------------------------------

  /** A notification of the snapshot is true of the registry. */
  ghost predicate SnapEntry(m: Msg, id: u64, reg: Entries, filters: seq<WatchFilter>) {
    && m.WatchNotify? && m.id == id && GroupMatches(filters, m.identity.Key())
    && if m.online then
         m.identity.Key() in reg && m.identity == reg[m.identity.Key()].Identity()
       else m.identity.Key() !in reg
  }

  predicate SaysOnline(m: Msg, key: Ident) {
    m.WatchNotify? && m.online && m.identity.Key() == key
  }

  predicate Reported(snaps: seq<Msg>, key: Ident) {
    exists m :: m in snaps && SaysOnline(m, key)
  }

  ghost predicate Distinct(snaps: seq<Msg>) {
    forall i, j, key :: 0 <= i < j < |snaps| && SaysOnline(snaps[i], key) ==> !SaysOnline(snaps[j], key)
  }

  /** A snapshot reports exactly the registered instances that match, each once;
      whatever else it reports is offline and not registered. */
  ghost predicate Snapshot(snaps: seq<Msg>, id: u64, reg: Entries, filters: seq<WatchFilter>) {
    && (forall m :: m in snaps ==> SnapEntry(m, id, reg, filters))
    && Distinct(snaps)
    && (forall key :: key in reg && GroupMatches(filters, key) ==> Reported(snaps, key))
  }

  /** The snapshots of disjoint filters make a snapshot of the group. */
  lemma SnapshotMore(a: seq<Msg>, b: seq<Msg>, id: u64, reg: Entries, filters: seq<WatchFilter>, i: nat)
    requires Disjoint(filters) && i < |filters|
    requires Snapshot(a, id, reg, filters[..i]) && Snapshot(b, id, reg, [filters[i]])
    ensures Snapshot(a + b, id, reg, filters[..i + 1])
  {
    var c, done := a + b, filters[..i + 1];
    forall key
      ensures GroupMatches(done, key) <==> GroupMatches(filters[..i], key) || GroupMatches([filters[i]], key)
      ensures !(GroupMatches(filters[..i], key) && GroupMatches([filters[i]], key))
    {
      MatchesSplit(filters, i, key);
    }
    hide GroupMatches;
    assert forall m :: m in c <==> m in a || m in b;
    forall p, q, key | 0 <= p < q < |c| && SaysOnline(c[p], key)
      ensures !SaysOnline(c[q], key)
    {
      if p < |a| <= q {
        assert c[p] in a && c[q] in b;
      }
    }
  }

  lemma MatchesSplit(filters: seq<WatchFilter>, i: nat, key: Ident)
    requires Disjoint(filters) && i < |filters|
    ensures GroupMatches(filters[..i + 1], key) <==> GroupMatches(filters[..i], key) || GroupMatches([filters[i]], key)
    ensures !(GroupMatches(filters[..i], key) && GroupMatches([filters[i]], key))
  {
    if GroupMatches(filters[..i], key) {
      var j :| 0 <= j < i && FilterMatches(filters[..i][j], key);
      assert FilterMatches(filters[..i + 1][j], key) && FilterMatches(filters[j], key);
      if FilterMatches(filters[i], key) { DisjointFiltersShareNothing(filters, j, i, key); }
    }
    if GroupMatches([filters[i]], key) {
      assert FilterMatches([filters[i]][0], key);
      assert FilterMatches(filters[..i + 1][i], key);
    }
    if GroupMatches(filters[..i + 1], key) {
      var j :| 0 <= j < i + 1 && FilterMatches(filters[..i + 1][j], key);
      if j < i { assert FilterMatches(filters[..i][j], key); } else { assert FilterMatches([filters[i]][0], key); }
    }
  }

  ghost predicate AllTrue(snaps: seq<Msg>, id: u64, reg: Entries, filter: WatchFilter) {
    forall m :: m in snaps ==> SnapEntry(m, id, reg, [filter]) && m.online
  }

  predicate NamedIn(infos: seq<ServiceInfo>, key: Ident) {
    exists i :: 0 <= i < |infos| && KeyOf(infos[i]) == key
  }

  ghost predicate AllListed(snaps: seq<Msg>, infos: seq<ServiceInfo>) {
    forall m :: m in snaps && m.WatchNotify? ==> NamedIn(infos, m.identity.Key())
  }

  ghost predicate AllReported(snaps: seq<Msg>, filter: WatchFilter, infos: seq<ServiceInfo>) {
    forall i :: 0 <= i < |infos| && FilterMatches(filter, KeyOf(infos[i])) ==> Reported(snaps, KeyOf(infos[i]))
  }

  /** Within one filter: the instances listed so far, as far as they match. */
  ghost predicate Partial(snaps: seq<Msg>, id: u64, reg: Entries, filter: WatchFilter, infos: seq<ServiceInfo>) {
    AllTrue(snaps, id, reg, filter) && AllListed(snaps, infos) && Distinct(snaps) && AllReported(snaps, filter, infos)
  }

  lemma PartialNext(snaps: seq<Msg>, id: u64, reg: Entries, filter: WatchFilter, infos: seq<ServiceInfo>,
                    info: ServiceInfo, m: Msg)
    requires Partial(snaps, id, reg, filter, infos)
    requires forall i :: 0 <= i < |infos| ==> KeyOf(infos[i]) != KeyOf(info)
    requires m.WatchNotify? && m.id == id && m.online
    requires m.identity == ServiceIdentity(info.name, info.hostId, info.inst)
    requires KeyOf(info) in reg && reg[KeyOf(info)].info == info && FilterMatches(filter, KeyOf(info))
    ensures Partial(snaps + [m], id, reg, filter, infos + [info])
  {
    hide FilterMatches;
    hide SnapEntry;
    var key := KeyOf(info);
    EntryTrue(m, id, reg, filter, key);
    assert AllTrue(snaps + [m], id, reg, filter);
    ListedMore(snaps, infos, info, m);
    ReportedMore(snaps, filter, infos, info, m);
    DistinctMore(snaps, infos, m);
  }

  lemma EntryTrue(m: Msg, id: u64, reg: Entries, filter: WatchFilter, key: Ident)
    requires m.WatchNotify? && m.id == id && m.online && m.identity.Key() == key
    requires key in reg && m.identity == reg[key].Identity() && FilterMatches(filter, key)
    ensures SnapEntry(m, id, reg, [filter])
  {
    assert FilterMatches([filter][0], key);
  }

  lemma NamedMore(infos: seq<ServiceInfo>, info: ServiceInfo, key: Ident)
    ensures NamedIn(infos + [info], key) <==> NamedIn(infos, key) || KeyOf(info) == key
  {
    var more := infos + [info];
    assert more[|infos|] == info;
    if NamedIn(infos, key) {
      var i :| 0 <= i < |infos| && KeyOf(infos[i]) == key;
      assert more[i] == infos[i];
    }
  }

  lemma ListedMore(snaps: seq<Msg>, infos: seq<ServiceInfo>, info: ServiceInfo, m: Msg)
    requires AllListed(snaps, infos) && m.WatchNotify? && m.identity.Key() == KeyOf(info)
    ensures AllListed(snaps + [m], infos + [info])
  {
    hide NamedIn;
    forall x | x in snaps + [m] && x.WatchNotify?
      ensures NamedIn(infos + [info], x.identity.Key())
    {
      NamedMore(infos, info, x.identity.Key());
    }
  }

  lemma ReportedMore(snaps: seq<Msg>, filter: WatchFilter, infos: seq<ServiceInfo>, info: ServiceInfo, m: Msg)
    requires AllReported(snaps, filter, infos) && SaysOnline(m, KeyOf(info))
    ensures AllReported(snaps + [m], filter, infos + [info])
  {
    hide FilterMatches;
    hide SaysOnline;
    var more := snaps + [m];
    assert m in more;
    forall i | 0 <= i < |infos| + 1 && FilterMatches(filter, KeyOf((infos + [info])[i]))
      ensures Reported(more, KeyOf((infos + [info])[i]))
    {
      if i < |infos| {
        var x :| x in snaps && SaysOnline(x, KeyOf(infos[i]));
        assert x in more;
      }
    }
  }

  lemma DistinctMore(snaps: seq<Msg>, infos: seq<ServiceInfo>, m: Msg)
    requires Distinct(snaps) && AllListed(snaps, infos) && m.WatchNotify? && !NamedIn(infos, m.identity.Key())
    ensures Distinct(snaps + [m])
  {
    hide NamedIn;
    forall p, q, k | 0 <= p < q < |snaps| + 1 && SaysOnline((snaps + [m])[p], k)
      ensures !SaysOnline((snaps + [m])[q], k)
    {
      if q == |snaps| { assert snaps[p] in snaps; }
    }
  }

  lemma PartialSkips(snaps: seq<Msg>, id: u64, reg: Entries, filter: WatchFilter, infos: seq<ServiceInfo>,
                     info: ServiceInfo)
    requires Partial(snaps, id, reg, filter, infos) && !FilterMatches(filter, KeyOf(info))
    ensures Partial(snaps, id, reg, filter, infos + [info])
  {
    hide FilterMatches;
    hide NamedIn;
    hide Reported;
    forall x | x in snaps && x.WatchNotify?
      ensures NamedIn(infos + [info], x.identity.Key())
    {
      NamedMore(infos, info, x.identity.Key());
    }
  }

  /** All instances listed: the snapshot is complete, or there is nothing to report. */
  lemma PartialDone(snaps: seq<Msg>, id: u64, reg: Entries, filter: WatchFilter, infos: seq<ServiceInfo>)
    requires Partial(snaps, id, reg, filter, infos) && Registry.EntriesSound(reg)
             && ListsInstances(infos, reg, filter.name)
    ensures snaps != [] ==> Snapshot(snaps, id, reg, [filter])
    ensures snaps == [] ==> forall key :: key in reg ==> !FilterMatches(filter, key)
  {
    hide SnapEntry;
    hide SaysOnline;
    forall key | key in reg && FilterMatches(filter, key)
      ensures Reported(snaps, key)
    {
      assert reg[key].info in infos;
      var i :| 0 <= i < |infos| && infos[i] == reg[key].info;
      assert KeyOf(infos[i]) == key;
    }
    assert forall key :: GroupMatches([filter], key) ==> FilterMatches(filter, key);
  }

  /** Nothing to report: one offline notice, naming what the filter names. */
  lemma EmptySnapshot(m: Msg, id: u64, reg: Entries, filter: WatchFilter)
    requires forall key :: key in reg ==> !FilterMatches(filter, key)
    requires m.WatchNotify? && m.id == id && !m.online && m.identity == ServiceIdentity(filter.name, [], filter.inst)
    ensures Snapshot([m], id, reg, [filter])
  {
    var key := m.identity.Key();
    assert FilterMatches([filter][0], key);
    assert GroupMatches([filter], key);
    assert SnapEntry(m, id, reg, [filter]);
  }

  /** sendInitialServiceWatch: what is online under one filter, or that nothing is. */
  method SendInitial(sm: ServiceManager, k: WatchKey, filter: WatchFilter)
    requires sm.Ready() && k.fd in sm.clients && GoodFilter(filter)
    requires k in sm.V().tabs.watches && filter in sm.V().tabs.watches[k]
    modifies sm, sm.registry, sm.watchers, sm.topicManager
    ensures sm.Ready()
    ensures sm.clean == old(sm.clean)
    ensures old(sm.Smooth()) ==> sm.Smooth() && sm.clients.Keys == old(sm.clients.Keys)
    ensures k.fd in sm.clients ==> Grew(old(sm.V()), sm.V(), k.fd)
    ensures k.fd in sm.clients ==>
              Snapshot(News(old(sm.V()), sm.V(), k.fd), k.id, sm.V().tabs.reg, [filter])
    ensures k.fd !in sm.clients ==> Shrinks(old(sm.V()), sm.V(), {}) && Buried(old(sm.V()), sm.V(), {})
  {
    hide ServiceManager.Objects;
    hide ServiceManager.OutboxesOk;
    hide ServiceManager.Smooth;
    hide ServiceRegistry.Valid;
    hide WatchNotifier.Valid;
    hide TopicManager.Valid;
    hide TopicManager.ExactIndex;
    hide PidsExact;
    hide WatchersMirror;
    hide SinceOk;
    hide Shrinks;
    hide Told;
    hide Buried;
    hide Halted;
    hide Partial;
    hide Snapshot;
    hide Sent;
    hide ListsInstances;
    hide GroupMatches;
    hide Grew;
    hide News;
    hide Registry.EntriesSound;
    ghost var s := sm.V();
    sm.TablesValid();
    ValidEntries(sm.registry);
    var infos := sm.registry.ListServiceInstances(filter.name);
    var found := SendListed(sm, k, filter, infos);
    ghost var t := sm.V();
    if k.fd in sm.clients {
      GrewOnly(s, t, k.fd);
      PartialDone(News(s, t, k.fd), k.id, s.tabs.reg, filter, infos);
    }
    if !found && k.fd in sm.clients {
      GroupHolds(s, t, k, filter, Ident(filter.name, filter.inst));
      sm.NotifyGroup(k, ServiceIdentity(filter.name, [], filter.inst), false);
      NothingFound(s, t, sm.V(), k, filter);
    }
  }

  /** The instances that match, one after the other. */
  method SendListed(sm: ServiceManager, k: WatchKey, filter: WatchFilter, infos: seq<ServiceInfo>)
    returns (found: bool)
    requires sm.Ready() && k.fd in sm.clients && GoodFilter(filter)
    requires k in sm.V().tabs.watches && filter in sm.V().tabs.watches[k]
    requires ListsInstances(infos, sm.V().tabs.reg, filter.name) && Registry.EntriesSound(sm.V().tabs.reg)
    modifies sm, sm.registry, sm.watchers, sm.topicManager
    ensures sm.Ready() && sm.clean == old(sm.clean)
    ensures old(sm.Smooth()) ==> sm.Smooth() && sm.clients.Keys == old(sm.clients.Keys)
    ensures Progress(old(sm.V()), sm.V(), k, filter, infos, found)
  {
    hide ServiceManager.Objects;
    hide ServiceManager.OutboxesOk;
    hide ServiceManager.Smooth;
    hide ServiceRegistry.Valid;
    hide WatchNotifier.Valid;
    hide TopicManager.Valid;
    hide TopicManager.ExactIndex;
    hide PidsExact;
    hide WatchersMirror;
    hide SinceOk;
    hide Shrinks;
    hide Told;
    hide Buried;
    hide Halted;
    hide Partial;
    hide Snapshot;
    hide Sent;
    hide ListsInstances;
    hide Registry.EntriesSound;
    ghost var s := sm.V();
    found := false;
    NothingYet(s, k, filter);
    for i := 0 to |infos|
      invariant sm.Ready() && sm.clean == old(sm.clean)
      invariant old(sm.Smooth()) ==> sm.Smooth() && sm.clients.Keys == old(sm.clients.Keys)
      invariant Progress(s, sm.V(), k, filter, infos[..i], found)
    {
      assert infos[..i + 1] == infos[..i] + [infos[i]];
      ListedInfo(infos, s.tabs.reg, filter.name, i);
      if FilterMatches(filter, KeyOf(infos[i])) {
        if k.fd !in sm.clients { return; }
        ghost var wasFound := found;
        found := true;
        ghost var t := sm.V();
        GroupHolds(s, t, k, filter, KeyOf(infos[i]));
        sm.NotifyGroup(k, ServiceIdentity(infos[i].name, infos[i].hostId, infos[i].inst), true);
        ProgressNext(s, t, sm.V(), k, filter, infos, i, wasFound);
      } else {
        ProgressSkips(s, sm.V(), k, filter, infos, i, found);
      }
    }
    assert infos[..|infos|] == infos;
  }

  /** The state of the snapshot's loop: alive and so far complete, or closed. */
  ghost predicate Progress(s: Sm, u: Sm, k: WatchKey, filter: WatchFilter, infos: seq<ServiceInfo>, found: bool) {
    if k.fd in u.clients then
      && Grew(s, u, k.fd)
      && Partial(News(s, u, k.fd), k.id, s.tabs.reg, filter, infos)
      && (found <==> News(s, u, k.fd) != [])
    else
      Shrinks(s, u, {}) && Buried(s, u, {})
  }

  lemma GrewOnly(s: Sm, t: Sm, f: Fd)
    requires Grew(s, t, f)
    ensures t.tabs == s.tabs
  {
  }

  lemma NothingYet(s: Sm, k: WatchKey, filter: WatchFilter)
    requires k.fd in s.clients
    ensures Progress(s, s, k, filter, [], false)
  {
    assert s.clients == s.clients[k.fd := s.clients[k.fd]];
    assert News(s, s, k.fd) == [];
  }

  lemma ListedInfo(infos: seq<ServiceInfo>, reg: Entries, name: Str, i: nat)
    requires ListsInstances(infos, reg, name) && Registry.EntriesSound(reg) && i < |infos|
    ensures KeyOf(infos[i]) in reg && reg[KeyOf(infos[i])].info == infos[i] && Acceptable(infos[i])
    ensures forall j :: 0 <= j < i ==> KeyOf(infos[j]) != KeyOf(infos[i])
  {
    assert infos[i] in infos;
  }

  lemma GroupHolds(s: Sm, t: Sm, k: WatchKey, filter: WatchFilter, key: Ident)
    requires Grew(s, t, k.fd) && k in s.tabs.watches && filter in s.tabs.watches[k] && FilterMatches(filter, key)
    ensures k in t.tabs.watches && GroupMatches(t.tabs.watches[k], key)
  {
    var i :| 0 <= i < |s.tabs.watches[k]| && s.tabs.watches[k][i] == filter;
    assert FilterMatches(t.tabs.watches[k][i], key);
  }

  lemma ProgressSkips(s: Sm, u: Sm, k: WatchKey, filter: WatchFilter,
                      infos: seq<ServiceInfo>, i: nat, found: bool)
    requires i < |infos| && Progress(s, u, k, filter, infos[..i], found)
    requires !FilterMatches(filter, KeyOf(infos[i])) && infos[..i + 1] == infos[..i] + [infos[i]]
    ensures Progress(s, u, k, filter, infos[..i + 1], found)
  {
    hide Partial;
    hide Shrinks;
    if k.fd in u.clients {
      PartialSkips(News(s, u, k.fd), k.id, s.tabs.reg, filter, infos[..i], infos[i]);
    }
  }

  lemma ProgressNext(s: Sm, t: Sm, u: Sm, k: WatchKey, filter: WatchFilter,
                     infos: seq<ServiceInfo>, i: nat, found: bool)
    requires i < |infos| && k.fd in t.clients && Progress(s, t, k, filter, infos[..i], found)
    requires infos[..i + 1] == infos[..i] + [infos[i]] && FilterMatches(filter, KeyOf(infos[i]))
    requires KeyOf(infos[i]) in s.tabs.reg && s.tabs.reg[KeyOf(infos[i])].info == infos[i]
    requires forall j :: 0 <= j < i ==> KeyOf(infos[j]) != KeyOf(infos[i])
    requires SinceOk(u)
    requires NotifiedOrDied(t, u, k, ServiceIdentity(infos[i].name, infos[i].hostId, infos[i].inst), true)
    ensures Progress(s, u, k, filter, infos[..i + 1], true)
  {
    hide Partial;
    hide Shrinks;
    hide Buried;
    if k.fd in u.clients {
      var n :| Sent(t, u, k.fd, WatchNotify(n, k.id, ServiceIdentity(infos[i].name, infos[i].hostId, infos[i].inst),
          true));
      var m := WatchNotify(n, k.id, ServiceIdentity(infos[i].name, infos[i].hostId, infos[i].inst), true);
      GrewMore(s, t, u, k.fd, m);
      PartialNext(News(s, t, k.fd), k.id, s.tabs.reg, filter, infos[..i], infos[i], m);
    } else {
      GrewThenDied(s, t, u, k.fd);
    }
  }

  /** What sending one watch notification comes to. */
  ghost predicate NotifiedOrDied(t: Sm, u: Sm, k: WatchKey, who: ServiceIdentity, online: bool) {
    if k.fd in u.clients then
      exists n :: Sent(t, u, k.fd, WatchNotify(n, k.id, who, online))
    else
      Shrinks(t, u, {}) && Buried(t, u, {})
  }

  lemma NothingFound(s: Sm, t: Sm, u: Sm, k: WatchKey, filter: WatchFilter)
    requires Grew(s, t, k.fd) && News(s, t, k.fd) == []
    requires forall key :: key in s.tabs.reg ==> !FilterMatches(filter, key)
    requires SinceOk(u) && NotifiedOrDied(t, u, k, ServiceIdentity(filter.name, [], filter.inst), false)
    ensures k.fd in u.clients ==> Grew(s, u, k.fd) && Snapshot(News(s, u, k.fd), k.id, u.tabs.reg, [filter])
    ensures k.fd !in u.clients ==> Shrinks(s, u, {}) && Buried(s, u, {})
  {
    hide Snapshot;
    hide Shrinks;
    hide Buried;
    if k.fd in u.clients {
      var n :| Sent(t, u, k.fd, WatchNotify(n, k.id, ServiceIdentity(filter.name, [], filter.inst), false));
      var m := WatchNotify(n, k.id, ServiceIdentity(filter.name, [], filter.inst), false);
      GrewMore(s, t, u, k.fd, m);
      EmptySnapshot(m, k.id, s.tabs.reg, filter);
    } else {
      GrewThenDied(s, t, u, k.fd);
    }
  }

  // ---- A new watch group ----------------------------------------------------------------------

  /** The group exists from here on. */
  ghost function WithGroup(s: Sm, k: WatchKey, filters: seq<WatchFilter>): Sm
    requires k.fd in s.clients
  {
    s.(since := s.since[k := |s.clients[k.fd].out.frames|],
       tabs := s.tabs.(watches := s.tabs.watches[k := filters]))
  }

  /** The last report, when all reports of the instance agree. */
  lemma {:induction false} LastOfAll(frames: seq<Msg>, since: nat, id: u64, key: Ident, v: bool)
    requires forall i :: since <= i < |frames| && About(frames[i], id, key) ==> frames[i].online == v
    ensures LastSince(frames, since, id, key).Some? <==> exists i :: since <= i < |frames| && About(frames[i], id, key)
    ensures LastSince(frames, since, id, key).Some? ==> LastSince(frames, since, id, key) == Some(v)
  {
    if since < |frames| {
      var n := |frames| - 1;
      var front := frames[..n];
      LastOfAll(front, since, id, key, v);
      if !About(frames[n], id, key) {
        if i :| since <= i < |frames| && About(frames[i], id, key) {
          assert About(front[i], id, key);
        }
        if i :| since <= i < n && About(front[i], id, key) {
          assert About(frames[i], id, key);
        }
      }
    }
  }

  /** The new group was sent a snapshot, after the reply. */
  ghost predicate Snapped(s: Sm, u: Sm, k: WatchKey, filters: seq<WatchFilter>, reply: Msg, snaps: seq<Msg>) {
    && k.fd in s.clients && k !in s.tabs.watches && Grew(WithGroup(s, k, filters), u, k.fd)
    && reply.Plain? && News(WithGroup(s, k, filters), u, k.fd) == [reply] + snaps
    && Snapshot(snaps, k.id, s.tabs.reg, filters)
  }

  lemma NewGroupTold(s: Sm, u: Sm, k: WatchKey, filters: seq<WatchFilter>, reply: Msg, snaps: seq<Msg>, key: Ident)
    requires Snapped(s, u, k, filters, reply, snaps)
    ensures LastTold(u, k, key).Some? ==> GroupMatches(filters, key)
    ensures LastTold(u, k, key) == Some(true) ==> key in s.tabs.reg
    ensures key in s.tabs.reg && GroupMatches(filters, key) ==> LastTold(u, k, key) == Some(true)
  {
    hide GroupMatches;
    var n, frames := |s.clients[k.fd].out.frames|, u.clients[k.fd].out.frames;
    assert forall i :: n < i < |frames| ==> frames[i] == snaps[i - n - 1] && frames[i] in snaps;
    assert frames[n] == reply;
    LastOfAll(frames, n, k.id, key, key in s.tabs.reg);
    if key in s.tabs.reg && GroupMatches(filters, key) {
      var m :| m in snaps && SaysOnline(m, key);
      var j :| 0 <= j < |snaps| && snaps[j] == m;
      assert About(frames[n + 1 + j], k.id, key);
    }
  }

  lemma OldGroupTold(s: Sm, u: Sm, k: WatchKey, filters: seq<WatchFilter>, reply: Msg, snaps: seq<Msg>,
                     old': WatchKey, key: Ident)
    requires Snapped(s, u, k, filters, reply, snaps) && SinceOk(s)
    requires old' in s.tabs.watches && old'.fd in s.clients
    ensures old' in s.since && old' in u.since && old'.fd in u.clients
            && LastTold(u, old', key) == LastTold(s, old', key)
  {
    hide GroupMatches;
    if old'.fd == k.fd {
      var before, after := s.clients[k.fd].out.frames, u.clients[k.fd].out.frames;
      assert forall i :: |before| < i < |after| ==> after[i] in snaps;
      assert after[|before|] == reply;
      LastUnmoved(before, after, s.since[old'], old'.id, key);
    }
  }

  lemma SnappedReports(s: Sm, u: Sm, k: WatchKey, filters: seq<WatchFilter>, reply: Msg, snaps: seq<Msg>, clean: bool)
    requires Snapped(s, u, k, filters, reply, snaps) && SinceOk(s)
    requires OnlyWatched(s) && ReportedOnline(s) && (clean ==> NoStaleOnline(s))
    ensures SinceOk(u) && OnlyWatched(u) && ReportedOnline(u) && (clean ==> NoStaleOnline(u))
  {
    assert SinceOk(u);
    assert u.tabs.watches == s.tabs.watches[k := filters] && u.tabs.reg == s.tabs.reg
        && u.clients.Keys == s.clients.Keys;
    hide Snapped;
    hide LastTold;
    hide GroupMatches;
    forall g, key | g in u.tabs.watches && g.fd in u.clients && g in u.since
      ensures LastTold(u, g, key).Some? ==> GroupMatches(u.tabs.watches[g], key)
      ensures clean && LastTold(u, g, key) == Some(true) ==> key in u.tabs.reg
      ensures key in u.tabs.reg && GroupMatches(u.tabs.watches[g], key) ==> LastTold(u, g, key) == Some(true)
    {
      if g == k {
        NewGroupTold(s, u, k, filters, reply, snaps, key);
      } else {
        OldGroupTold(s, u, k, filters, reply, snaps, g, key);
        assert key in s.tabs.reg ==> Told(s, key, true);
      }
    }
  }

  lemma SnappedInv(s: Sm, u: Sm, k: WatchKey, filters: seq<WatchFilter>, reply: Msg, snaps: seq<Msg>, clean: bool)
    requires Snapped(s, u, k, filters, reply, snaps) && Inv(s, clean)
    ensures Inv(u, clean)
  {
    hide LastTold;
    hide GroupMatches;
    SnappedReports(s, u, k, filters, reply, snaps, clean);
    GrewRendezvous(s, u, k.fd);
    hide Rendezvous;
    hide SinceOk;
    hide OnlyWatched;
    hide ReportedOnline;
    hide NoStaleOnline;
    hide Snapshot;
  }

  lemma ReadyClients(s: Sm, clean: bool, f: Fd)
    requires Inv(s, clean) && f in s.clients
    ensures 0 <= f
  {
  }

  lemma GoodNotEmpty(filters: seq<WatchFilter>)
    requires GoodFilters(filters)
    ensures filters != []
  {
  }

  lemma WithGroupReady(s: Sm, k: WatchKey, filters: seq<WatchFilter>, clean: bool)
    requires Inv(s, clean) && k.fd in s.clients
    ensures var t := WithGroup(s, k, filters); PidsExact(t) && WatchersMirror(t) && SinceOk(t)
  {
  }

  lemma WithGroupOnly(s: Sm, k: WatchKey, filters: seq<WatchFilter>)
    requires k.fd in s.clients
    ensures OnlyOf(s, WithGroup(s, k, filters), k.fd)
  {
    assert s.clients == s.clients[k.fd := s.clients[k.fd]];
  }

  /** The state of the loop over the filters: alive and so far complete, or closed. */
  ghost predicate Snapping(s1: Sm, u: Sm, k: WatchKey, filters: seq<WatchFilter>,
                           reply: Msg, snaps: seq<Msg>) {
    if k.fd in u.clients then
      && Grew(s1, u, k.fd) && News(s1, u, k.fd) == [reply] + snaps
      && Snapshot(snaps, k.id, s1.tabs.reg, filters)
    else
      Shrinks(s1, u, {}) && Buried(s1, u, {})
  }

  lemma SnappingNext(s1: Sm, t: Sm, u: Sm, k: WatchKey, filters: seq<WatchFilter>,
                     i: nat, reply: Msg, snaps: seq<Msg>, more: seq<Msg>)
    requires Disjoint(filters) && i < |filters| && k.fd in t.clients
    requires Snapping(s1, t, k, filters[..i], reply, snaps) && SinceOk(u)
    requires if k.fd in u.clients then
               && Grew(t, u, k.fd) && more == News(t, u, k.fd)
               && Snapshot(more, k.id, t.tabs.reg, [filters[i]])
             else Shrinks(t, u, {}) && Buried(t, u, {})
    ensures Snapping(s1, u, k, filters[..i + 1], reply, snaps + more)
  {
    hide Snapshot;
    hide Shrinks;
    hide Buried;
    hide Disjoint;
    if k.fd in u.clients {
      GrewTwice(s1, t, u, k.fd);
      SnapshotMore(snaps, more, k.id, s1.tabs.reg, filters, i);
    } else {
      GrewThenDied(s1, t, u, k.fd);
    }
  }

  lemma SnappingStarts(s1: Sm, u: Sm, k: WatchKey, reply: Msg)
    requires if k.fd in u.clients then Grew(s1, u, k.fd) && News(s1, u, k.fd) == [reply]
             else Shrinks(s1, u, {}) && Buried(s1, u, {})
    ensures Snapping(s1, u, k, [], reply, [])
  {
    assert [reply] + [] == [reply];
  }

  lemma SnappingEnds(s: Sm, u: Sm, k: WatchKey, filters: seq<WatchFilter>, reply: Msg, snaps: seq<Msg>)
    requires k.fd in s.clients && k !in s.tabs.watches && reply.Plain?
    requires Snapping(WithGroup(s, k, filters), u, k, filters, reply, snaps)
    ensures if k.fd in u.clients then Snapped(s, u, k, filters, reply, snaps)
            else Shrinks(WithGroup(s, k, filters), u, {}) && Buried(WithGroup(s, k, filters), u, {})
  {
  }

  /** The loop of handleSubscribeServiceWatch over the filters. */
  method SendSnapshot(sm: ServiceManager, k: WatchKey, filters: seq<WatchFilter>, ghost s1: Sm, ghost reply: Msg)
    requires sm.Ready() && GoodFilters(filters) && k.fd in s1.clients
    requires k in s1.tabs.watches && s1.tabs.watches[k] == filters
    requires Snapping(s1, sm.V(), k, [], reply, [])
    modifies sm, sm.registry, sm.watchers, sm.topicManager
    ensures sm.Ready() && exists snaps :: Snapping(s1, sm.V(), k, filters, reply, snaps)
    ensures sm.clean == old(sm.clean)
    ensures old(sm.Smooth()) ==> sm.Smooth() && sm.clients.Keys == old(sm.clients.Keys)
  {
    hide PidTableHolds;
    hide WatcherTableHolds;
    hide ServiceRegistry.Valid;
    hide WatchNotifier.Valid;
    hide TopicManager.Valid;
    hide TopicManager.ExactIndex;
    hide ServiceManager.OutboxesOk;
    hide PidsExact;
    hide WatchersMirror;
    hide SinceOk;
    hide Shrinks;
    hide Told;
    hide Buried;
    hide Halted;
    hide Snapshot;
    hide Disjoint;
    hide Snapping;
    ghost var snaps := [];
    assert filters[..0] == [];
    for i := 0 to |filters|
      invariant sm.Ready() && Snapping(s1, sm.V(), k, filters[..i], reply, snaps) && sm.clean == old(sm.clean)
      invariant old(sm.Smooth()) ==> sm.Smooth() && sm.clients.Keys == old(sm.clients.Keys)
    {
      if k.fd !in sm.clients {
        SnappingDead(s1, sm.V(), k, filters[..i], filters, reply, snaps);
        return;
      }
      ghost var t := sm.V();
      SnappingAlive(s1, t, k, filters[..i], reply, snaps);
      SendInitial(sm, k, filters[i]);
      ghost var more := if k.fd in sm.clients then News(t, sm.V(), k.fd) else [];
      SnappingNext(s1, t, sm.V(), k, filters, i, reply, snaps, more);
      snaps := snaps + more;
    }
    assert filters[..|filters|] == filters;
  }

  lemma SnappingDead(s1: Sm, u: Sm, k: WatchKey, done: seq<WatchFilter>,
                     filters: seq<WatchFilter>, reply: Msg, snaps: seq<Msg>)
    requires k.fd !in u.clients && Snapping(s1, u, k, done, reply, snaps)
    ensures Snapping(s1, u, k, filters, reply, snaps)
  {
  }

  lemma SnappingAlive(s1: Sm, u: Sm, k: WatchKey, done: seq<WatchFilter>,
                      reply: Msg, snaps: seq<Msg>)
    requires k.fd in u.clients && Snapping(s1, u, k, done, reply, snaps)
    ensures u.tabs == s1.tabs
  {
  }

  /** History: the group begins with the connection's next message. */
  ghost method BeginHistory(sm: ServiceManager, k: WatchKey, filters: seq<WatchFilter>, s: Sm)
    requires Inv(s, sm.clean) && k.fd in s.clients
    requires sm.Objects() && sm.OutboxesOk() && SM_PROACTIVE_SEQ_BASE <= sm.smSeq
    requires sm.V() == s.(tabs := s.tabs.(watches := s.tabs.watches[k := filters]))
    modifies sm`since
    ensures sm.Ready() && sm.V() == WithGroup(s, k, filters)
  {
    hide PidTableHolds;
    hide WatcherTableHolds;
    hide ServiceRegistry.Valid;
    hide WatchNotifier.Valid;
    hide TopicManager.Valid;
    hide TopicManager.ExactIndex;
    hide ServiceManager.OutboxesOk;
    hide PidsExact;
    hide WatchersMirror;
    hide SinceOk;
    hide Shrinks;
    hide Told;
    hide Buried;
    hide Halted;
    hide Inv;
    sm.since := sm.since[k := |sm.clients[k.fd].out.frames|];
    WithGroupReady(s, k, filters, sm.clean);
  }

  /** History: the group is gone with its connection. */
  ghost method EndHistory(sm: ServiceManager, k: WatchKey, filters: seq<WatchFilter>, s: Sm)
    requires Inv(s, sm.clean) && k.fd in s.clients && k.fd !in sm.clients && sm.Ready()
    requires Shrinks(WithGroup(s, k, filters), sm.V(), {}) && Buried(WithGroup(s, k, filters), sm.V(), {})
    modifies sm`since
    ensures sm.Sound() && Shrinks(s, sm.V(), {})
  {
    hide PidTableHolds;
    hide WatcherTableHolds;
    hide ServiceRegistry.Valid;
    hide WatchNotifier.Valid;
    hide TopicManager.Valid;
    hide TopicManager.ExactIndex;
    hide ServiceManager.OutboxesOk;
    hide PidsExact;
    hide WatchersMirror;
    hide SinceOk;
    hide Shrinks;
    hide Told;
    hide Buried;
    hide Halted;
    hide Inv;
    hide OnlyOf;
    WithGroupOnly(s, k, filters);
    AbandonedInv(s, WithGroup(s, k, filters), sm.V(), k.fd, sm.clean);
    sm.since := s.since;
  }

  /** The rest of handleSubscribeServiceWatch, once the group is recorded. */
  method StartWatch(sm: ServiceManager, k: WatchKey, filters: seq<WatchFilter>, sequence: u32, ghost s: Sm)
    requires Inv(s, sm.clean) && k.fd in s.clients && k !in s.tabs.watches && GoodFilters(filters)
    requires sm.Objects() && sm.OutboxesOk() && SM_PROACTIVE_SEQ_BASE <= sm.smSeq
    requires sm.V() == s.(tabs := s.tabs.(watches := s.tabs.watches[k := filters]))
    modifies sm, sm.registry, sm.watchers, sm.topicManager
    ensures sm.Sound()
    ensures sm.clean == old(sm.clean)
    ensures old(sm.Smooth()) ==> sm.Smooth() && sm.clients.Keys == old(sm.clients.Keys)
    ensures k.fd !in sm.clients ==> Shrinks(s, sm.V(), {})
    ensures k.fd in sm.clients ==>
              exists snaps :: Snapped(s, sm.V(), k, filters,
                Plain(MSG_SUBSCRIBE_SERVICE_WATCH_REPLY, sequence, [BoolByte(true)]), snaps)
  {
    hide PidTableHolds;
    hide WatcherTableHolds;
    hide ServiceRegistry.Valid;
    hide WatchNotifier.Valid;
    hide TopicManager.Valid;
    hide TopicManager.ExactIndex;
    hide ServiceManager.OutboxesOk;
    hide PidsExact;
    hide WatchersMirror;
    hide SinceOk;
    hide Shrinks;
    hide Told;
    hide Buried;
    hide Halted;
    hide Inv;
    hide Snapped;
    hide Snapshot;
    hide GoodFilters;
    hide Snapping;
    hide Sent;
    hide Sendable;
    hide OnlyOf;
    hide Grew;
    hide News;
    var fd, yes := k.fd, [BoolByte(true)];
    SmallReply(MSG_SUBSCRIBE_SERVICE_WATCH_REPLY, sequence, yes);
    BeginHistory(sm, k, filters, s);
    ghost var s1 := sm.V();
    sm.SendReply(fd, MSG_SUBSCRIBE_SERVICE_WATCH_REPLY, sequence, yes);
    ghost var reply := Plain(MSG_SUBSCRIBE_SERVICE_WATCH_REPLY, sequence, yes);
    ReplyGrew(s1, sm.V(), fd, reply);
    SnappingStarts(s1, sm.V(), k, reply);
    SendSnapshot(sm, k, filters, s1, reply);
    ghost var snaps :| Snapping(s1, sm.V(), k, filters, reply, snaps);
    SnappingEnds(s, sm.V(), k, filters, reply, snaps);
    if fd in sm.clients {
      SnappedInv(s, sm.V(), k, filters, reply, snaps, sm.clean);
    } else {
      EndHistory(sm, k, filters, s);
    }
  }

  /** handleSubscribeServiceWatch. */
  method HandleSubscribeWatch(sm: ServiceManager, fd: Fd, sequence: u32, id: u64, request: Option<seq<WatchFilter>>)
    returns (accepted: bool)
    requires sm.Sound() && fd in sm.clients
    modifies sm, sm.registry, sm.watchers, sm.topicManager
    ensures sm.Sound()
    ensures sm.clean == old(sm.clean)
    ensures old(sm.Smooth()) ==> sm.Smooth() && sm.clients.Keys == old(sm.clients.Keys)
    ensures accepted <==>
              id != 0 && request.Some? && GoodFilters(request.value) && WatchKey(fd, id) !in old(sm.V()).tabs.watches
    ensures fd !in sm.clients || !accepted ==> Shrinks(old(sm.V()), sm.V(), {})
    ensures fd in sm.clients && accepted ==>
              exists snaps :: Snapped(old(sm.V()), sm.V(), WatchKey(fd, id), request.value,
                Plain(MSG_SUBSCRIBE_SERVICE_WATCH_REPLY, sequence, [BoolByte(true)]), snaps)
    ensures fd in sm.clients && !accepted ==>
              Answered(old(sm.V()), sm.V(), fd, Plain(MSG_SUBSCRIBE_SERVICE_WATCH_REPLY, sequence, [BoolByte(false)]))
  {
    hide PidTableHolds;
    hide WatcherTableHolds;
    hide ServiceRegistry.Valid;
    hide WatchNotifier.Valid;
    hide TopicManager.Valid;
    hide TopicManager.ExactIndex;
    hide ServiceManager.OutboxesOk;
    hide PidsExact;
    hide WatchersMirror;
    hide SinceOk;
    hide Shrinks;
    hide Told;
    hide Buried;
    hide Halted;
    hide Inv;
    hide Snapped;
    hide Snapshot;
    hide GoodFilters;
    hide Snapping;
    hide Sent;
    hide Answered;
    ghost var s := sm.V();
    var yes, no := [BoolByte(true)], [BoolByte(false)];
    SmallReply(MSG_SUBSCRIBE_SERVICE_WATCH_REPLY, sequence, yes);
    SmallReply(MSG_SUBSCRIBE_SERVICE_WATCH_REPLY, sequence, no);
    accepted := false;
    if request.Some? {
      accepted := CheckFilters(request.value);
    }
    if accepted && id != 0 {
      ReadyClients(s, sm.clean, fd);
      GoodNotEmpty(request.value);
      accepted := sm.watchers.Subscribe(fd, id, request.value);
    } else {
      accepted := false;
    }
    if !accepted {
      assert sm.V() == s;
      sm.Reply(fd, MSG_SUBSCRIBE_SERVICE_WATCH_REPLY, sequence, no);
      SentLast(s, sm.V(), fd, Plain(MSG_SUBSCRIBE_SERVICE_WATCH_REPLY, sequence, no));
      return;
    }
    StartWatch(sm, WatchKey(fd, id), request.value, sequence, s);
  }

  // ---- Ending a watch, and heartbeats -----------------------------------------------------------

  ghost function WithoutGroup(s: Sm, k: WatchKey): Sm {
    s.(tabs := s.tabs.(watches := s.tabs.watches - {k}))
  }

  lemma WithoutGroupInv(s: Sm, k: WatchKey, clean: bool)
    requires Inv(s, clean)
    ensures var t := WithoutGroup(s, k); Inv(t, clean) && WatchersMirror(t)
  {
    hide GroupMatches;
    var t := WithoutGroup(s, k);
    RendezvousLess(s, t);
    hide Rendezvous;
    assert forall g, key :: g in t.tabs.watches && g.fd in t.clients && g in t.since ==>
      LastTold(t, g, key) == LastTold(s, g, key);
    hide LastTold;
    assert forall key :: Told(s, key, true) ==> Told(t, key, true);
  }

  /** handleUnsubscribeServiceWatch: no reply. */
  method HandleUnsubscribeWatch(sm: ServiceManager, fd: Fd, request: Option<u64>)
    requires sm.Sound()
    modifies sm.watchers
    ensures sm.Sound()
    ensures sm.V() == if request.Some? && request.value != 0 then WithoutGroup(old(sm.V()), WatchKey(fd, request.value))
                      else old(sm.V())
  {
    hide PidTableHolds;
    hide WatcherTableHolds;
    hide ServiceRegistry.Valid;
    hide WatchNotifier.Valid;
    hide TopicManager.Valid;
    hide TopicManager.ExactIndex;
    hide ServiceManager.OutboxesOk;
    hide PidsExact;
    hide WatchersMirror;
    hide SinceOk;
    hide Shrinks;
    hide Told;
    hide Buried;
    hide Halted;
    hide Inv;
    if request.None? || request.value == 0 { return; }
    WithoutGroupInv(sm.V(), WatchKey(fd, request.value), sm.clean);
    InvMirrors(WithoutGroup(sm.V(), WatchKey(fd, request.value)), sm.clean);
    var _ := sm.watchers.Unsubscribe(fd, request.value);
  }

  /** handleControlHeartbeat: a heartbeat before hello, or with another
      incarnation than hello gave, closes the connection. */
  method HandleHeartbeat(sm: ServiceManager, fd: Fd, sequence: u32, request: Option<u32>, incarnation: u32)
    requires sm.Sound() && fd in sm.clients
    modifies sm, sm.registry, sm.watchers, sm.topicManager
    ensures sm.Sound() && Shrinks(old(sm.V()), sm.V(), {}) && sm.clean == old(sm.clean)
    ensures !(old(sm.clients)[fd].hello && request == Some(old(sm.clients)[fd].incarnation)) ==> fd !in sm.clients
    ensures Answered(old(sm.V()), sm.V(), fd, Plain(MSG_CONTROL_HEARTBEAT_ACK, sequence, Le32(incarnation)))
    ensures old(sm.Smooth()) ==>
              && sm.Smooth()
              && sm.clients.Keys == old(sm.clients.Keys)
                   - if old(sm.clients)[fd].hello && request == Some(old(sm.clients)[fd].incarnation) then {} else {fd}
    ensures Buried(old(sm.V()), sm.V(), {}) && Halted(old(sm.V()), sm.V())
  {
    hide ServiceManager.Objects;
    hide ServiceManager.OutboxesOk;
    hide ServiceManager.Smooth;
    hide PidsExact;
    hide WatchersMirror;
    hide SinceOk;
    hide Shrinks;
    hide Told;
    hide Buried;
    hide Halted;
    hide Inv;
    hide Sent;
    ghost var s := sm.V();
    var conn := sm.clients[fd];
    if !conn.hello || request.None? || request.value != conn.incarnation {
      sm.CloseClient(fd, true);
      CascadeInv(s, sm.V(), sm.clean, sm.clean);
      return;
    }
    SmallReply(MSG_CONTROL_HEARTBEAT_ACK, sequence, Le32(incarnation));
    sm.Reply(fd, MSG_CONTROL_HEARTBEAT_ACK, sequence, Le32(incarnation));
    SentLast(s, sm.V(), fd, Plain(MSG_CONTROL_HEARTBEAT_ACK, sequence, Le32(incarnation)));
  }
}

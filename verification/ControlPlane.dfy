/** The service manager's state between and within events, as a value: its
    connections, its tables, and what a cascade of closing connections does to
    them (service_manager/service_manager_app.h).
  */
module ControlPlane {
  import opened Base
  import opened ServiceCodec
  import opened Registry
  import opened Watching
  import opened TopicTables
  import opened TopicManagement
  import opened Outboxes

  /** ClientConnection.  `hello` stands for hello_received and
      runtime_registered, which are only ever set together. */
  datatype Conn = Conn(
    hello: bool, pid: Pid, hostId: Str, runtimeId: Str, sessionKey: Str, incarnation: u32, out: Outbox)

  /** One pair of the process tables: a connection of a process, or a watcher of it. */
  datatype PidFd = PidFd(pid: Pid, fd: Fd)

  /** Everything keyed by connections except the connections themselves.
      `pids` is pid_to_fds_; `pw` and `wp` are pid_watchers_ and watcher_to_pids_. */
  datatype Tables = Tables(
    reg: Entries, watches: Groups, slots: Slots, subs: Subs,
    pids: set<PidFd>, pw: set<PidFd>, wp: set<PidFd>)

  /** A publisher and a subscriber. */
  datatype Pair = Pair(slot: SlotId, sub: SubId)

  /** Two fields are history.  `since`: for each watch group, how many messages its
      connection had been sent when the group was created.  `met`: for each
      publisher and subscriber, how many the subscriber's connection had been
      sent when the later of the two appeared. */
  datatype Sm = Sm(
    clients: map<Fd, Conn>, sessions: map<Str, Fd>, since: map<WatchKey, nat>, met: map<Pair, nat>, tabs: Tables)

  // ---- Purging the connections that died -----------------------------------------

  ghost predicate HasPid(pids: set<PidFd>, pid: Pid) {
    exists x :: x in pids && x.pid == pid
  }

  ghost function PairsOutside(pairs: set<PidFd>, dead: set<Fd>): set<PidFd> {
    set x | x in pairs && x.fd !in dead
  }

  /** The process had connections, and all of them died. */
  ghost predicate Vanishes(pids: set<PidFd>, dead: set<Fd>, pid: Pid) {
    HasPid(pids, pid) && !HasPid(PairsOutside(pids, dead), pid)
  }

  /** Watch pairs survive while their watcher lives and their process does not vanish. */
  ghost function WatchPairsOutside(pairs: set<PidFd>, pids: set<PidFd>, dead: set<Fd>): set<PidFd> {
    set x | x in pairs && x.fd !in dead && !Vanishes(pids, dead, x.pid)
  }

  ghost function Purge(t: Tables, dead: set<Fd>): Tables {
    Tables(
      OwnedOutside(t.reg, dead), WatchedOutside(t.watches, dead),
      SlotsOutside(t.slots, dead), SubsOutside(t.subs, dead),
      PairsOutside(t.pids, dead),
      WatchPairsOutside(t.pw, t.pids, dead), WatchPairsOutside(t.wp, t.pids, dead))
  }

  /** A closed connection takes its session along, if the session is still its own. */
  ghost function PurgeSessions(clients: map<Fd, Conn>, sessions: map<Str, Fd>, dead: set<Fd>): map<Str, Fd> {
    map k | k in sessions
        && !(k != [] && sessions[k] in dead && sessions[k] in clients && clients[sessions[k]].sessionKey == k)
      :: sessions[k]
  }

  lemma VanishesTwice(pids: set<PidFd>, d1: set<Fd>, d2: set<Fd>, pid: Pid)
    ensures Vanishes(pids, d1 + d2, pid)
       <==> Vanishes(pids, d1, pid) || Vanishes(PairsOutside(pids, d1), d2, pid)
  {
    assert PairsOutside(PairsOutside(pids, d1), d2) == PairsOutside(pids, d1 + d2);
    if HasPid(PairsOutside(pids, d1), pid) {
      var x :| x in PairsOutside(pids, d1) && x.pid == pid;
      assert x in pids;
    }
    if HasPid(PairsOutside(pids, d1 + d2), pid) {
      var x :| x in PairsOutside(pids, d1 + d2) && x.pid == pid;
      assert x in PairsOutside(pids, d1);
    }
  }

  /** Purging in two rounds is purging once, whatever order the connections died in. */
  lemma PurgeTwice(t: Tables, d1: set<Fd>, d2: set<Fd>)
    ensures Purge(Purge(t, d1), d2) == Purge(t, d1 + d2)
  {
    hide Vanishes;
    var u := Purge(Purge(t, d1), d2);
    var w := Purge(t, d1 + d2);
    assert u.reg == w.reg;
    assert u.watches == w.watches;
    assert u.slots == w.slots;
    assert u.subs == w.subs;
    assert u.pids == w.pids;
    forall x: PidFd
      ensures Vanishes(t.pids, d1 + d2, x.pid)
         <==> Vanishes(t.pids, d1, x.pid) || Vanishes(PairsOutside(t.pids, d1), d2, x.pid)
    {
      VanishesTwice(t.pids, d1, d2, x.pid);
    }
    assert u.pw == w.pw;
    assert u.wp == w.wp;
  }

  // ---- What a connection is sent ----------------------------------------------------

  /** What may be sent besides: a statement about an instance's state, as watch
      notifications make it, or the offer of a publisher to one connection. */
  datatype Says =
    | Says(key: Ident, online: bool)
    | Offers(to: Fd, topic: Str, info: ServiceInfo, hash: u32)

  /** A message a cascade may add to connection `f`: a notification only to a
      matching watch group of it, and only that an instance registered before,
      in `reg`, is gone for good, unless it is one of the statements in `a`;
      publishers only as `a` offers them. */
  predicate Extra(f: Fd, m: Msg, reg: Entries, tabs: Tables, a: set<Says>) {
    match m
    case Plain(_, _, _) => true
    case PublisherNotify(_, topic, info, hash) => Offers(f, topic, info, hash) in a
    case WatchNotify(_, id, who, online) =>
      && WatchKey(f, id) in tabs.watches
      && GroupMatches(tabs.watches[WatchKey(f, id)], who.Key())
      && (|| (!online && who.Key() in reg && who.Key() !in tabs.reg)
          || Says(who.Key(), online) in a)
  }

  ghost predicate Appends(f: Fd, before: seq<Msg>, after: seq<Msg>, reg: Entries, tabs: Tables, a: set<Says>) {
    && before <= after
    && forall i :: |before| <= i < |after| ==> Extra(f, after[i], reg, tabs, a)
  }

  /** A surviving connection keeps its identity and its history of messages. */
  ghost predicate Continues(f: Fd, c: Conn, d: Conn, reg: Entries, tabs: Tables, a: set<Says>) {
    && d == c.(out := d.out)
    && Appends(f, c.out.frames, d.out.frames, reg, tabs, a)
  }

  /** The effect of any cascade: some connections died, the tables are what
      purging exactly these leaves, and the others were only sent messages.
      Which died, and in which order, does not matter beyond that. */
  ghost predicate Shrinks(s: Sm, t: Sm, a: set<Says>) {
    && t.clients.Keys <= s.clients.Keys
    && t.since == s.since && t.met == s.met
    && t.tabs == Purge(s.tabs, s.clients.Keys - t.clients.Keys)
    && t.sessions == PurgeSessions(s.clients, s.sessions, s.clients.Keys - t.clients.Keys)
    && forall f :: f in t.clients ==> Continues(f, s.clients[f], t.clients[f], s.tabs.reg, t.tabs, a)
  }

  lemma PurgeNothing(t: Tables)
    ensures Purge(t, {}) == t
  {
    forall pid: Pid
      ensures !Vanishes(t.pids, {}, pid)
    {
      assert PairsOutside(t.pids, {}) == t.pids;
    }
    assert OwnedOutside(t.reg, {}) == t.reg;
    assert WatchedOutside(t.watches, {}) == t.watches;
    assert SlotsOutside(t.slots, {}) == t.slots;
    assert SubsOutside(t.subs, {}) == t.subs;
    assert WatchPairsOutside(t.pw, t.pids, {}) == t.pw;
    assert WatchPairsOutside(t.wp, t.pids, {}) == t.wp;
  }

  lemma ShrinksSame(s: Sm, a: set<Says>)
    ensures Shrinks(s, s, a)
  {
    hide Purge;
    PurgeNothing(s.tabs);
    assert s.clients.Keys - s.clients.Keys == {};
    assert PurgeSessions(s.clients, s.sessions, {}) == s.sessions;
  }

  lemma SessionsTwice(clients: map<Fd, Conn>, clients': map<Fd, Conn>, sessions: map<Str, Fd>,
                      d1: set<Fd>, d2: set<Fd>)
    requires clients'.Keys == clients.Keys - d1
    requires forall f :: f in clients' ==> clients'[f].sessionKey == clients[f].sessionKey
    ensures PurgeSessions(clients', PurgeSessions(clients, sessions, d1), d2)
         == PurgeSessions(clients, sessions, d1 + d2)
  {
    var one := PurgeSessions(clients, sessions, d1);
    var two := PurgeSessions(clients', one, d2);
    var both := PurgeSessions(clients, sessions, d1 + d2);
    forall k | k in sessions
      ensures k in two <==> k in both
    {
      var f := sessions[k];
      assert f in clients' <==> f in clients && f !in d1;
      assert k in one <==> !(k != [] && f in d1 && f in clients && clients[f].sessionKey == k);
      assert k in two <==> k in one && !(k != [] && f in d2 && f in clients' && clients'[f].sessionKey == k);
    }
    assert two == both;
  }

  lemma ExtraLater(f: Fd, m: Msg, reg: Entries, s: Sm, t: Sm, a: set<Says>)
    requires Shrinks(s, t, a) && f in t.clients && Extra(f, m, reg, s.tabs, a)
    ensures Extra(f, m, reg, t.tabs, a)
  {
  }

  lemma ExtraWider(f: Fd, m: Msg, reg: Entries, more: Entries, tabs: Tables, a: set<Says>)
    requires Extra(f, m, reg, tabs, a) && reg.Keys <= more.Keys
    ensures Extra(f, m, more, tabs, a)
  {
  }

  /** Two cascades in a row are one cascade. */
  lemma ShrinksTwice(s: Sm, t: Sm, u: Sm, a: set<Says>)
    requires Shrinks(s, t, a) && Shrinks(t, u, a)
    ensures Shrinks(s, u, a)
  {
    hide Purge;
    hide Extra;
    RegShrinks(s, t, a);
    var d1, d2 := s.clients.Keys - t.clients.Keys, t.clients.Keys - u.clients.Keys;
    assert d1 + d2 == s.clients.Keys - u.clients.Keys;
    PurgeTwice(s.tabs, d1, d2);
    assert forall f :: f in t.clients ==> t.clients[f].sessionKey == s.clients[f].sessionKey;
    SessionsTwice(s.clients, t.clients, s.sessions, d1, d2);
    forall f | f in u.clients
      ensures Continues(f, s.clients[f], u.clients[f], s.tabs.reg, u.tabs, a)
    {
      var x, y, z := s.clients[f].out.frames, t.clients[f].out.frames, u.clients[f].out.frames;
      forall i | |x| <= i < |z|
        ensures Extra(f, z[i], s.tabs.reg, u.tabs, a)
      {
        if i < |y| {
          assert z[i] == y[i];
          ExtraLater(f, y[i], s.tabs.reg, t, u, a);
        } else {
          ExtraWider(f, z[i], t.tabs.reg, s.tabs.reg, u.tabs, a);
        }
      }
    }
  }

  lemma RegShrinks(s: Sm, t: Sm, a: set<Says>)
    requires Shrinks(s, t, a)
    ensures t.tabs.reg.Keys <= s.tabs.reg.Keys
    ensures forall id :: id in t.tabs.reg ==> t.tabs.reg[id] == s.tabs.reg[id]
  {
  }

  lemma ShrinksMore(s: Sm, t: Sm, a: set<Says>, b: set<Says>)
    requires Shrinks(s, t, a) && a <= b
    ensures Shrinks(s, t, b)
  {
    hide Purge;
  }

  // ---- The last notification of an instance -------------------------------------------

  predicate About(m: Msg, id: u64, key: Ident) {
    m.WatchNotify? && m.id == id && m.identity.Key() == key
  }

  /** What a watch group was last told of an instance, since the group exists. */
  function LastSince(frames: seq<Msg>, since: nat, id: u64, key: Ident): Option<bool> {
    if |frames| <= since then None
    else
      var m := frames[|frames| - 1];
      if About(m, id, key) then Some(m.online) else LastSince(frames[..|frames| - 1], since, id, key)
  }

  /** If all newer notifications say `v`, the last one is the old last one or says `v`. */
  lemma {:induction false} LastMoves(before: seq<Msg>, after: seq<Msg>, since: nat, id: u64, key: Ident, v: bool)
    requires before <= after && since <= |before|
    requires forall i :: |before| <= i < |after| && About(after[i], id, key) ==> after[i].online == v
    ensures LastSince(after, since, id, key) == LastSince(before, since, id, key)
         || LastSince(after, since, id, key) == Some(v)
  {
    if |before| < |after| {
      var shorter := after[..|after| - 1];
      LastMoves(before, shorter, since, id, key, v);
    } else {
      assert before == after;
    }
  }
}

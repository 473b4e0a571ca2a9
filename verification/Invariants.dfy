/** What holds of the service manager between any two events, and why a cascade
    of closing connections cannot break it.
  */
module Invariants {
  import opened Base
  import opened TopicKeys
  import opened ServiceCodec
  import opened Registry
  import opened Watching
  import opened TopicTables
  import opened Outboxes
  import opened ControlPlane

  // ---- Tables and connections ---------------------------------------------------------

  /** No table mentions a connection that is closed. */
  ghost predicate Live(s: Sm) {
    && (forall id :: id in s.tabs.reg ==> s.tabs.reg[id].fd in s.clients)
    && (forall k :: k in s.tabs.watches ==> k.fd in s.clients)
    && (forall id :: id in s.tabs.slots ==> s.tabs.slots[id].fd in s.clients)
    && (forall id :: id in s.tabs.subs ==> id.fd in s.clients)
    && (forall x :: x in s.tabs.pids ==> x.fd in s.clients)
    && (forall x :: x in s.tabs.pw ==> x.fd in s.clients)
    && (forall x :: x in s.tabs.wp ==> x.fd in s.clients)
  }

  /** pid_to_fds_ lists a live connection under its own process, once it said hello. */
  ghost predicate PidsExact(s: Sm) {
    forall x: PidFd :: x.fd in s.clients ==>
      (x in s.tabs.pids <==> s.clients[x.fd].hello && s.clients[x.fd].pid == x.pid)
  }

  /** For live watchers the two watcher tables mirror each other; a watcher that
      is being closed may only still stand in pid_watchers_. */
  ghost predicate WatchersMirror(s: Sm) {
    && s.tabs.wp <= s.tabs.pw
    && forall x :: x in s.tabs.pw && x.fd in s.clients ==> x in s.tabs.wp
  }

  /** Every publisher slot belongs to the connection that owns the instance. */
  ghost predicate Owned(s: Sm) {
    forall id: SlotId :: id in s.tabs.slots ==>
      var key := Ident(id.service, id.inst);
      key in s.tabs.reg && s.tabs.reg[key].fd == s.tabs.slots[id].fd
  }

  /** A connection that said hello is the one its session key stands for, and the
      key is made of its host and runtime id; one that did not has no key. */
  ghost predicate SessionsOk(s: Sm) {
    forall f :: f in s.clients ==>
      if s.clients[f].hello then
        && s.clients[f].sessionKey == SessionKey(s.clients[f].hostId, s.clients[f].runtimeId)
        && s.clients[f].sessionKey in s.sessions && s.sessions[s.clients[f].sessionKey] == f
      else s.clients[f].sessionKey == []
  }

  /** Every session entry is that of a live connection under its present key. */
  ghost predicate SessionsCurrent(s: Sm) {
    forall key :: key in s.sessions ==>
      key != [] && s.sessions[key] in s.clients && s.clients[s.sessions[key]].sessionKey == key
  }

  // ---- Publishers and subscribers -------------------------------------------------------

  predicate IsPublisherNotify(m: Msg, topic: Str, info: ServiceInfo, hash: u32) {
    m.PublisherNotify? && m.topic == topic && m.info == info && m.hash == hash
  }

  /** The connection was sent a notification with exactly this publisher. */
  ghost predicate Heard(frames: seq<Msg>, topic: Str, info: ServiceInfo, hash: u32) {
    exists i :: 0 <= i < |frames| && IsPublisherNotify(frames[i], topic, info, hash)
  }

  /** The notification of this publisher fits in a frame; its sequence number
      does not matter. */
  predicate NotifyFits(topic: Str, info: ServiceInfo, hash: u32) {
    Sendable(PublisherNotify(0, topic, info, hash))
  }

  ghost predicate Meets(s: Sm, slot: SlotId, sub: SubId) {
    && slot in s.tabs.slots && sub in s.tabs.subs
    && slot.topic == sub.topic && Asks(s.tabs.subs[sub], slot.service, slot.inst)
  }

  ghost predicate Met(s: Sm, slot: SlotId, sub: SubId)
    requires sub.fd in s.clients
  {
    Pair(slot, sub) in s.met && s.met[Pair(slot, sub)] <= |s.clients[sub.fd].out.frames|
  }

  /** Since both were there the subscriber has been sent the publisher as it is
      now, if that fits in a frame. */
  ghost predicate Knows(s: Sm, slot: SlotId, sub: SubId)
    requires slot in s.tabs.slots && sub.fd in s.clients
  {
    var p := s.tabs.slots[slot];
    && Met(s, slot, sub)
    && (NotifyFits(slot.topic, p.info, p.hash) ==>
          Heard(s.clients[sub.fd].out.frames[s.met[Pair(slot, sub)]..], slot.topic, p.info, p.hash))
  }

  /** Whichever came first: a subscriber has been sent every live publisher its
      selector matches, and this since both were there. */
  ghost predicate Rendezvous(s: Sm) {
    forall slot: SlotId, sub: SubId :: Meets(s, slot, sub) && sub.fd in s.clients ==> Knows(s, slot, sub)
  }

  // ---- Watch groups ---------------------------------------------------------------------

  ghost predicate SinceOk(s: Sm) {
    forall k :: k in s.tabs.watches && k.fd in s.clients ==>
      k in s.since && s.since[k] <= |s.clients[k.fd].out.frames|
  }

  ghost function LastTold(s: Sm, k: WatchKey, key: Ident): Option<bool>
    requires k in s.tabs.watches && k.fd in s.clients && k in s.since
  {
    LastSince(s.clients[k.fd].out.frames, s.since[k], k.id, key)
  }

  /** Every live group that watches the instance was last told this of it. */
  ghost predicate Told(s: Sm, key: Ident, online: bool) {
    forall k :: k in s.tabs.watches && k.fd in s.clients && GroupMatches(s.tabs.watches[k], key) ==>
      k in s.since && LastTold(s, k, key) == Some(online)
  }

  /** A registered instance was last reported online to every group watching it. */
  ghost predicate ReportedOnline(s: Sm) {
    forall key :: key in s.tabs.reg ==> Told(s, key, true)
  }

  /** A group is only told of instances it watches. */
  ghost predicate OnlyWatched(s: Sm) {
    forall k, key :: k in s.tabs.watches && k.fd in s.clients && k in s.since && LastTold(s, k, key).Some? ==>
      GroupMatches(s.tabs.watches[k], key)
  }

  /** What a group was last told is online is registered. */
  ghost predicate NoStaleOnline(s: Sm) {
    forall k, key :: k in s.tabs.watches && k.fd in s.clients && k in s.since && LastTold(s, k, key) == Some(true) ==>
      key in s.tabs.reg
  }

  // ---- Cascades keep all of it ----------------------------------------------------------

  lemma ShrinksKeepsTables(s: Sm, t: Sm, a: set<Says>)
    requires Shrinks(s, t, a)
    ensures Live(s) ==> Live(t)
    ensures PidsExact(s) ==> PidsExact(t)
    ensures Owned(s) ==> Owned(t)
    ensures WatchersMirror(s) ==> WatchersMirror(t)
  {
    hide Extra;
    hide PurgeSessions;
    hide Vanishes;
  }

  lemma ShrinksKeepsSessions(s: Sm, t: Sm, a: set<Says>)
    requires Shrinks(s, t, a) && SessionsOk(s)
    ensures SessionsOk(t)
  {
    hide Extra;
    hide Purge;
  }

  lemma KnowsLater(s: Sm, t: Sm, a: set<Says>, slot: SlotId, sub: SubId)
    requires Shrinks(s, t, a) && slot in t.tabs.slots && sub.fd in t.clients
    ensures slot in s.tabs.slots && sub.fd in s.clients && t.tabs.slots[slot] == s.tabs.slots[slot]
    ensures Meets(t, slot, sub) ==> Meets(s, slot, sub)
    ensures Met(s, slot, sub) ==> Met(t, slot, sub)
    ensures Knows(s, slot, sub) ==> Knows(t, slot, sub)
  {
    hide Extra;
    hide PurgeSessions;
    hide Vanishes;
    hide NotifyFits;
    var p := t.tabs.slots[slot];
    if Met(s, slot, sub) {
      var n := s.met[Pair(slot, sub)];
      HeardLater(s.clients[sub.fd].out.frames[n..], t.clients[sub.fd].out.frames[n..], slot.topic, p.info, p.hash);
    }
  }

  /** Connections that die take their session entries along. */
  lemma ShrinksKeepsCurrent(s: Sm, t: Sm, a: set<Says>)
    requires Shrinks(s, t, a) && SessionsCurrent(s)
    ensures SessionsCurrent(t)
  {
    hide Extra;
    hide Purge;
    forall key | key in t.sessions
      ensures key != [] && t.sessions[key] in t.clients && t.clients[t.sessions[key]].sessionKey == key
    {
      var f := s.sessions[key];
      assert f in s.clients && s.clients[f].sessionKey == key;
      assert f in t.clients && Continues(f, s.clients[f], t.clients[f], s.tabs.reg, t.tabs, a);
    }
  }

  lemma ShrinksKeepsRendezvous(s: Sm, t: Sm, a: set<Says>)
    requires Shrinks(s, t, a) && Rendezvous(s)
    ensures Rendezvous(t)
  {
    hide Shrinks;
    hide Knows;
    forall slot: SlotId, sub: SubId | Meets(t, slot, sub) && sub.fd in t.clients
      ensures Knows(t, slot, sub)
    {
      KnowsLater(s, t, a, slot, sub);
    }
  }

  lemma HeardLater(before: seq<Msg>, after: seq<Msg>, topic: Str, info: ServiceInfo, hash: u32)
    requires before <= after
    ensures Heard(before, topic, info, hash) ==> Heard(after, topic, info, hash)
  {
    if Heard(before, topic, info, hash) {
      var i :| 0 <= i < |before| && IsPublisherNotify(before[i], topic, info, hash);
      assert after[i] == before[i];
    }
  }

  /** A group of a surviving connection survives, unchanged. */
  lemma GroupSurvives(s: Sm, t: Sm, a: set<Says>, k: WatchKey)
    requires Shrinks(s, t, a) && k.fd in t.clients
    ensures k in t.tabs.watches <==> k in s.tabs.watches
    ensures k in t.tabs.watches ==> t.tabs.watches[k] == s.tabs.watches[k]
  {
    hide Extra;
    hide PurgeSessions;
    hide Vanishes;
  }

  /** What a surviving group was last told of an instance moves only one way:
      to online while the instance stays registered, or was not registered at
      all, and nobody may say otherwise; to offline when nobody may say online. */
  lemma LastToldMoves(s: Sm, t: Sm, a: set<Says>, k: WatchKey, key: Ident, v: bool)
    requires Shrinks(s, t, a) && SinceOk(s)
    requires k in t.tabs.watches && k.fd in t.clients
    requires if v then (key in t.tabs.reg || key !in s.tabs.reg) && Says(key, false) !in a else Says(key, true) !in a
    ensures k in s.tabs.watches && k in s.since && k in t.since
    ensures LastTold(t, k, key) == LastTold(s, k, key) || LastTold(t, k, key) == Some(v)
  {
    GroupSurvives(s, t, a, k);
    hide Purge;
    hide PurgeSessions;
    LastMoves(s.clients[k.fd].out.frames, t.clients[k.fd].out.frames, s.since[k], k.id, key, v);
  }

  lemma ShrinksKeepsSince(s: Sm, t: Sm, a: set<Says>)
    requires Shrinks(s, t, a) && SinceOk(s)
    ensures SinceOk(t)
  {
    hide Extra;
    hide PurgeSessions;
    hide Vanishes;
  }

  lemma ShrinksKeepsTold(s: Sm, t: Sm, a: set<Says>, key: Ident, v: bool)
    requires Shrinks(s, t, a) && SinceOk(s) && Told(s, key, v)
    requires if v then (key in t.tabs.reg || key !in s.tabs.reg) && Says(key, false) !in a else Says(key, true) !in a
    ensures Told(t, key, v)
  {
    hide Shrinks;
    forall k | k in t.tabs.watches && k.fd in t.clients && GroupMatches(t.tabs.watches[k], key)
      ensures k in t.since && LastTold(t, k, key) == Some(v)
    {
      LastToldMoves(s, t, a, k, key, v);
      GroupSurvives(s, t, a, k);
      ClientSurvived(s, t, a, k.fd);
    }
  }

  lemma ClientSurvived(s: Sm, t: Sm, a: set<Says>, f: Fd)
    requires Shrinks(s, t, a) && f in t.clients
    ensures f in s.clients
  {
  }

  lemma FramesGrow(s: Sm, t: Sm, a: set<Says>)
    requires Shrinks(s, t, a)
    ensures forall f :: f in t.clients ==> f in s.clients && s.clients[f].out.frames <= t.clients[f].out.frames
  {
    hide Purge;
    hide PurgeSessions;
    hide Extra;
  }

  /** While every client lives, a cascade changes nothing but what they are sent. */
  lemma NobodyDied(s: Sm, t: Sm, a: set<Says>)
    requires Shrinks(s, t, a) && t.clients.Keys == s.clients.Keys
    ensures t.tabs == s.tabs && t.sessions == s.sessions && t.since == s.since
    ensures forall f :: f in t.clients ==> t.clients[f] == s.clients[f].(out := t.clients[f].out)
  {
    hide Purge;
    hide Extra;
    assert s.clients.Keys - t.clients.Keys == {};
    PurgeNothing(s.tabs);
    assert PurgeSessions(s.clients, s.sessions, {}) == s.sessions;
  }

  // ---- Instances that disappear are reported ----------------------------------------------

  /** Every instance that left the registry, except those in `x`, was reported
      offline to every group still watching it. */
  ghost predicate Buried(s: Sm, t: Sm, x: set<Ident>) {
    forall key :: key in s.tabs.reg && key !in t.tabs.reg && key !in x ==> Told(t, key, false)
  }

  lemma BuriedTwice(s: Sm, t: Sm, u: Sm, a: set<Says>, x: set<Ident>)
    requires Buried(s, t, x) && Buried(t, u, x) && Shrinks(t, u, a) && SinceOk(t)
    requires forall y :: y in a && y.Says? && y.online ==> y.key in x
    ensures Buried(s, u, x)
  {
    hide Shrinks;
    hide Told;
    forall key | key in s.tabs.reg && key !in u.tabs.reg && key !in x
      ensures Told(u, key, false)
    {
      if key !in t.tabs.reg {
        ShrinksKeepsTold(t, u, a, key, false);
      }
    }
  }

  // ---- Sending one message ----------------------------------------------------------------

  /** One connection was handed one more message; nothing else changed. */
  ghost predicate Sent(s: Sm, t: Sm, f: Fd, m: Msg) {
    && f in s.clients && f in t.clients
    && t == s.(clients := s.clients[f := t.clients[f]])
    && t.clients[f] == s.clients[f].(out := t.clients[f].out)
    && t.clients[f].out.frames == s.clients[f].out.frames + [m]
  }

  lemma SentShrinks(s: Sm, t: Sm, f: Fd, m: Msg, a: set<Says>)
    requires Sent(s, t, f, m) && Extra(f, m, s.tabs.reg, s.tabs, a)
    ensures Shrinks(s, t, a)
  {
    hide Extra;
    hide Purge;
    assert s.clients.Keys - t.clients.Keys == {};
    PurgeNothing(s.tabs);
    assert PurgeSessions(s.clients, s.sessions, {}) == s.sessions;
  }

  /** The connection's next message after those it had been sent is this one. */
  ghost predicate Answered(s: Sm, t: Sm, f: Fd, m: Msg) {
    f in s.clients && f in t.clients ==> s.clients[f].out.frames + [m] <= t.clients[f].out.frames
  }

  /** The connection's last message so far. */
  ghost predicate LastSent(t: Sm, f: Fd, m: Msg)
    requires f in t.clients
  {
    var frames := t.clients[f].out.frames;
    frames != [] && frames[|frames| - 1] == m
  }

  lemma SentLast(s: Sm, t: Sm, f: Fd, m: Msg)
    ensures Sent(s, t, f, m) ==> LastSent(t, f, m)
    ensures (f in t.clients ==> Sent(s, t, f, m)) ==> Answered(s, t, f, m)
  {
  }

  lemma AnsweredLater(s: Sm, t: Sm, u: Sm, f: Fd, m: Msg, a: set<Says>)
    requires Answered(s, t, f, m) && Shrinks(t, u, a)
    ensures Answered(s, u, f, m)
  {
    hide Purge;
    hide PurgeSessions;
    hide Extra;
  }

  /** The group the message was for now has this as its last report. */
  lemma SentTells(s: Sm, t: Sm, k: WatchKey, m: Msg)
    requires Sent(s, t, k.fd, m) && SinceOk(s) && k in s.tabs.watches
    requires m.WatchNotify? && m.id == k.id
    ensures k in t.since && LastTold(t, k, m.identity.Key()) == Some(m.online)
  {
    var before, after := s.clients[k.fd].out.frames, t.clients[k.fd].out.frames;
    assert after[|after| - 1] == m;
  }
}

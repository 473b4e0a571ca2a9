/** The invariant of the service manager between events, and the ways in which
    the handlers reach it again: local changes of tables, and cascades.
  */
module StateInvariant {
  import opened Base
  import opened Registry
  import opened Watching
  import opened TopicTables
  import opened TopicManagement
  import opened Outboxes
  import opened ControlPlane
  import opened Invariants

  // ---- The invariant, with exceptions for instances in transition ------------------------

  ghost predicate OwnedBut(s: Sm, x: set<Ident>) {
    forall id: SlotId :: id in s.tabs.slots && Ident(id.service, id.inst) !in x ==>
      var key := Ident(id.service, id.inst);
      key in s.tabs.reg && s.tabs.reg[key].fd == s.tabs.slots[id].fd
  }

  ghost predicate ReportedBut(s: Sm, x: set<Ident>) {
    forall key :: key in s.tabs.reg && key !in x ==> Told(s, key, true)
  }

  ghost predicate NoStaleBut(s: Sm, x: set<Ident>) {
    forall k, key ::
      k in s.tabs.watches && k.fd in s.clients && k in s.since && LastTold(s, k, key) == Some(true) && key !in x ==>
        key in s.tabs.reg
  }

  /** All of it but the rendezvous, except for the instances in `x`.  What
      watchers were told may be stale only after events that leave it so. */
  ghost predicate InvBut(s: Sm, clean: bool, x: set<Ident>) {
    && (forall f :: f in s.clients ==> 0 <= f)
    && Live(s) && PidsExact(s) && s.tabs.pw == s.tabs.wp && SessionsOk(s)
    && OwnedBut(s, x)
    && SinceOk(s) && OnlyWatched(s) && ReportedBut(s, x) && (clean ==> NoStaleBut(s, x))
  }

  /** The invariant between events. */
  ghost predicate Inv(s: Sm, clean: bool) {
    && (forall f :: f in s.clients ==> 0 <= f)
    && Live(s) && PidsExact(s) && s.tabs.pw == s.tabs.wp && SessionsOk(s)
    && Owned(s) && Rendezvous(s)
    && SinceOk(s) && OnlyWatched(s) && ReportedOnline(s) && (clean ==> NoStaleOnline(s))
  }

  lemma InvIsInvBut(s: Sm, clean: bool)
    ensures Inv(s, clean) <==> InvBut(s, clean, {}) && Rendezvous(s)
  {
    hide Live;
    hide PidsExact;
    hide SessionsOk;
    hide Rendezvous;
    hide SinceOk;
    hide OnlyWatched;
    hide Told;
  }

  // ---- Cascades -------------------------------------------------------------------------

  /** What is not about the instance does not change its last report. */
  lemma {:induction false} LastUnmoved(before: seq<Msg>, after: seq<Msg>, since: nat, id: u64, key: Ident)
    requires before <= after && since <= |before|
    requires forall i :: |before| <= i < |after| ==> !About(after[i], id, key)
    ensures LastSince(after, since, id, key) == LastSince(before, since, id, key)
  {
    if |before| < |after| {
      LastUnmoved(before, after[..|after| - 1], since, id, key);
    } else {
      assert before == after;
    }
  }

  lemma ShrinksKeepsOnlyWatched(s: Sm, t: Sm, a: set<Says>)
    requires Shrinks(s, t, a) && SinceOk(s) && OnlyWatched(s)
    ensures OnlyWatched(t)
  {
    forall k, key | k in t.tabs.watches && k.fd in t.clients && k in t.since && LastTold(t, k, key).Some?
      ensures GroupMatches(t.tabs.watches[k], key)
    {
      GroupSurvives(s, t, a, k);
      hide Purge;
      hide PurgeSessions;
      hide GroupMatches;
      var before, after := s.clients[k.fd].out.frames, t.clients[k.fd].out.frames;
      if i :| |before| <= i < |after| && About(after[i], k.id, key) {
        assert Extra(k.fd, after[i], s.tabs.reg, t.tabs, a);
      } else {
        LastUnmoved(before, after, s.since[k], k.id, key);
        assert LastTold(s, k, key).Some?;
      }
    }
  }

  lemma ShrinksKeepsReported(s: Sm, t: Sm, a: set<Says>, x: set<Ident>)
    requires Shrinks(s, t, a) && SinceOk(s) && ReportedBut(s, x)
    requires forall y :: y in a && y.Says? ==> y.key in x
    ensures ReportedBut(t, x)
  {
    hide Shrinks;
    hide Told;
    RegShrinks(s, t, a);
    forall key | key in t.tabs.reg && key !in x
      ensures Told(t, key, true)
    {
      ShrinksKeepsTold(s, t, a, key, true);
    }
  }

  lemma ShrinksKeepsNoStale(s: Sm, t: Sm, a: set<Says>, x: set<Ident>)
    requires Shrinks(s, t, a) && SinceOk(s) && NoStaleBut(s, x) && OnlyWatched(t) && Buried(s, t, x)
    requires forall y :: y in a && y.Says? ==> y.key in x
    ensures NoStaleBut(t, x)
  {
    hide Shrinks;
    forall k, key |
      k in t.tabs.watches && k.fd in t.clients && k in t.since && LastTold(t, k, key) == Some(true) && key !in x
      ensures key in t.tabs.reg
    {
      if key !in t.tabs.reg {
        LastToldMoves(s, t, a, k, key, false);
        ClientSurvived(s, t, a, k.fd);
      }
    }
  }

  lemma ShrinksKeepsOwned(s: Sm, t: Sm, a: set<Says>, x: set<Ident>)
    requires Shrinks(s, t, a) && OwnedBut(s, x)
    ensures OwnedBut(t, x)
  {
    hide Extra;
    hide PurgeSessions;
    hide Vanishes;
  }

  /** A cascade keeps the invariant, whatever failed in it. */
  lemma Cascade(s: Sm, t: Sm, a: set<Says>, x: set<Ident>, clean: bool, clean': bool)
    requires InvBut(s, clean, x) && Shrinks(s, t, a)
    requires forall y :: y in a && y.Says? ==> y.key in x
    requires clean' ==> clean && Buried(s, t, x)
    ensures InvBut(t, clean', x)
  {
    ShrinksKeepsTables(s, t, a);
    ShrinksKeepsSessions(s, t, a);
    ShrinksKeepsSince(s, t, a);
    ShrinksKeepsOnlyWatched(s, t, a);
    ShrinksKeepsReported(s, t, a, x);
    ShrinksKeepsOwned(s, t, a, x);
    if clean' { ShrinksKeepsNoStale(s, t, a, x); }
    MirrorsShrink(s, t, a);
    hide *;
  }

  lemma MirrorsShrink(s: Sm, t: Sm, a: set<Says>)
    requires Shrinks(s, t, a) && s.tabs.pw == s.tabs.wp
    ensures t.tabs.pw == t.tabs.wp && t.clients.Keys <= s.clients.Keys
  {
    hide Extra;
    hide PurgeSessions;
    hide Vanishes;
  }

  lemma CascadeInv(s: Sm, t: Sm, clean: bool, clean': bool)
    requires Inv(s, clean) && Shrinks(s, t, {}) && (clean' ==> clean && Buried(s, t, {}))
    ensures Inv(t, clean')
  {
    InvIsInvBut(s, clean);
    Cascade(s, t, {}, {}, clean, clean');
    ShrinksKeepsRendezvous(s, t, {});
    InvIsInvBut(t, clean');
  }

  /** The last exception goes once the instance was reported as it is. */
  lemma ExceptionGone(s: Sm, clean: bool, key: Ident)
    requires InvBut(s, clean, {key}) && OwnedBut(s, {}) && Rendezvous(s)
    requires key in s.tabs.reg ==> Told(s, key, true)
    requires key !in s.tabs.reg && clean ==> Told(s, key, false)
    ensures Inv(s, clean)
  {
    hide Live;
    hide PidsExact;
    hide SessionsOk;
    hide Rendezvous;
    hide SinceOk;
    hide LastTold;
  }

  // ---- Changes of tables alone --------------------------------------------------------------

  /** Same connections and watch groups, hence the same was reported. */
  ghost predicate SameReports(s: Sm, t: Sm) {
    t.clients == s.clients && t.since == s.since && t.tabs.watches == s.tabs.watches
  }

  lemma ToldSame(s: Sm, t: Sm, key: Ident, online: bool)
    requires SameReports(s, t)
    ensures Told(s, key, online) <==> Told(t, key, online)
  {
    assert forall k :: k in s.tabs.watches && k.fd in s.clients && k in s.since ==>
      LastTold(s, k, key) == LastTold(t, k, key);
  }

  /** When instances in `x` come or go without notice, the rest stays reported. */
  lemma ReportsKept(s: Sm, t: Sm, x: set<Ident>, clean: bool)
    requires Inv(s, clean) && SameReports(s, t)
    requires forall key :: key !in x ==> (key in t.tabs.reg <==> key in s.tabs.reg)
    ensures SinceOk(t) && OnlyWatched(t) && ReportedBut(t, x) && (clean ==> NoStaleBut(t, x))
  {
    hide Live;
    hide PidsExact;
    hide SessionsOk;
    hide Rendezvous;
    hide Owned;
    forall k, key | k in t.tabs.watches && k.fd in t.clients && k in t.since
      ensures LastTold(t, k, key) == LastTold(s, k, key)
    {
    }
    hide LastTold;
    forall key | key in t.tabs.reg && key !in x
      ensures Told(t, key, true)
    {
      ToldSame(s, t, key, true);
    }
  }

  lemma BuriedAlike(s: Sm, t: Sm, s': Sm, t': Sm, x: set<Ident>)
    requires Buried(s, t, x) && s'.tabs.reg == s.tabs.reg && t'.tabs.reg == t.tabs.reg && SameReports(t, t')
    ensures Buried(s', t', x)
  {
    hide Told;
    forall key | key in s'.tabs.reg && key !in t'.tabs.reg && key !in x
      ensures Told(t', key, false)
    {
      ToldSame(t, t', key, false);
    }
  }

  /** Fewer publishers or subscribers, same messages: nobody is owed more. */
  lemma RendezvousLess(s: Sm, t: Sm)
    requires Rendezvous(s) && t.clients == s.clients && t.met == s.met
    requires forall id :: id in t.tabs.slots ==> id in s.tabs.slots && t.tabs.slots[id] == s.tabs.slots[id]
    requires forall id :: id in t.tabs.subs ==> id in s.tabs.subs && t.tabs.subs[id] == s.tabs.subs[id]
    ensures Rendezvous(t)
  {
    hide NotifyFits;
    hide Heard;
    forall slot: SlotId, sub: SubId | Meets(t, slot, sub) && sub.fd in t.clients
      ensures Knows(t, slot, sub)
    {
      assert Meets(s, slot, sub);
    }
  }

  // ---- Requests that concern one connection only ---------------------------------------------

  /** At most what belongs to connection `f` alone differs: its messages, its
      watch groups, its subscriptions, the processes it watches. */
  ghost predicate OnlyOf(s: Sm, u: Sm, f: Fd) {
    && f in s.clients && f in u.clients
    && u.clients == s.clients[f := u.clients[f]] && u.clients[f] == s.clients[f].(out := u.clients[f].out)
    && u.sessions == s.sessions && u.met == s.met
    && u.tabs.reg == s.tabs.reg && u.tabs.slots == s.tabs.slots && u.tabs.pids == s.tabs.pids
    && WatchedOutside(u.tabs.watches, {f}) == WatchedOutside(s.tabs.watches, {f})
    && SubsOutside(u.tabs.subs, {f}) == SubsOutside(s.tabs.subs, {f})
    && PairsOutside(u.tabs.pw, {f}) == PairsOutside(s.tabs.pw, {f})
    && PairsOutside(u.tabs.wp, {f}) == PairsOutside(s.tabs.wp, {f})
    && forall k: WatchKey :: k.fd != f ==>
        (k in u.since <==> k in s.since) && (k in u.since ==> u.since[k] == s.since[k])
  }

  /** If the connection then dies, it is as if the request had never been made. */
  lemma DiedAnyway(s: Sm, u: Sm, t: Sm, f: Fd)
    requires OnlyOf(s, u, f) && Shrinks(u, t, {}) && f !in t.clients
    ensures Shrinks(s, t.(since := s.since), {})
  {
    hide Extra;
    hide Vanishes;
    var dead := s.clients.Keys - t.clients.Keys;
    assert dead == u.clients.Keys - t.clients.Keys && f in dead;
    WatchesOutside(s.tabs.watches, u.tabs.watches, f, dead);
    SubsOutsideMore(s.tabs.subs, u.tabs.subs, f, dead);
    PairsOutsideMore(s.tabs.pw, u.tabs.pw, s.tabs.pids, f, dead);
    PairsOutsideMore(s.tabs.wp, u.tabs.wp, s.tabs.pids, f, dead);
    assert t.sessions == PurgeSessions(s.clients, s.sessions, dead);
  }

  lemma WatchesOutside(a: Groups, b: Groups, f: Fd, dead: set<Fd>)
    requires f in dead && WatchedOutside(a, {f}) == WatchedOutside(b, {f})
    ensures WatchedOutside(a, dead) == WatchedOutside(b, dead)
  {
    forall k: WatchKey
      ensures k in WatchedOutside(a, dead) <==> k in WatchedOutside(b, dead)
      ensures k in WatchedOutside(a, dead) && k in WatchedOutside(b, dead) ==> a[k] == b[k]
    {
      assert k in WatchedOutside(a, dead) <==> k in WatchedOutside(a, {f}) && k.fd !in dead;
      assert k in WatchedOutside(b, dead) <==> k in WatchedOutside(b, {f}) && k.fd !in dead;
      assert k in WatchedOutside(a, {f}) ==> WatchedOutside(a, {f})[k] == a[k] && WatchedOutside(b, {f})[k] == b[k];
    }
  }

  lemma SubsOutsideMore(a: Subs, b: Subs, f: Fd, dead: set<Fd>)
    requires f in dead && SubsOutside(a, {f}) == SubsOutside(b, {f})
    ensures SubsOutside(a, dead) == SubsOutside(b, dead)
  {
    forall k: SubId
      ensures k in SubsOutside(a, dead) <==> k in SubsOutside(b, dead)
      ensures k in SubsOutside(a, dead) && k in SubsOutside(b, dead) ==> a[k] == b[k]
    {
      assert k in SubsOutside(a, dead) <==> k in SubsOutside(a, {f}) && k.fd !in dead;
      assert k in SubsOutside(b, dead) <==> k in SubsOutside(b, {f}) && k.fd !in dead;
      assert k in SubsOutside(a, {f}) ==> SubsOutside(a, {f})[k] == a[k] && SubsOutside(b, {f})[k] == b[k];
    }
  }

  lemma PairsOutsideMore(a: set<PidFd>, b: set<PidFd>, pids: set<PidFd>, f: Fd, dead: set<Fd>)
    requires f in dead && PairsOutside(a, {f}) == PairsOutside(b, {f})
    ensures WatchPairsOutside(a, pids, dead) == WatchPairsOutside(b, pids, dead)
  {
    hide Vanishes;
    forall x: PidFd | x.fd !in dead
      ensures x in a <==> x in b
    {
      assert x in PairsOutside(a, {f}) <==> x in a;
      assert x in PairsOutside(b, {f}) <==> x in b;
    }
  }

  /** What the others were told is the same either way. */
  lemma BuriedAnyway(s: Sm, u: Sm, t: Sm, f: Fd, x: set<Ident>)
    requires OnlyOf(s, u, f) && Shrinks(u, t, {}) && f !in t.clients && SinceOk(t) && Buried(u, t, x)
    ensures Buried(s, t.(since := s.since), x)
  {
    var t' := t.(since := s.since);
    assert t.since == u.since;
    hide Shrinks;
    forall key | key in s.tabs.reg && key !in t.tabs.reg && key !in x
      ensures Told(t', key, false)
    {
      assert Told(t, key, false);
      forall k | k in t'.tabs.watches && k.fd in t'.clients && GroupMatches(t'.tabs.watches[k], key)
        ensures k in t'.since && LastTold(t', k, key) == Some(false)
      {
        assert k.fd != f && LastTold(t, k, key) == Some(false);
      }
    }
  }

  /** Only connection `f` changed, by being sent more. */
  ghost predicate Grew(s: Sm, u: Sm, f: Fd) {
    && f in s.clients && f in u.clients
    && u == s.(clients := s.clients[f := u.clients[f]])
    && u.clients[f] == s.clients[f].(out := u.clients[f].out)
    && s.clients[f].out.frames <= u.clients[f].out.frames
  }

  ghost function News(s: Sm, u: Sm, f: Fd): seq<Msg>
    requires Grew(s, u, f)
  {
    u.clients[f].out.frames[|s.clients[f].out.frames|..]
  }

  lemma GrewMore(s: Sm, t: Sm, u: Sm, f: Fd, m: Msg)
    requires Grew(s, t, f) && Sent(t, u, f, m)
    ensures Grew(s, u, f) && News(s, u, f) == News(s, t, f) + [m]
  {
  }

  lemma GrewTwice(s: Sm, t: Sm, u: Sm, f: Fd)
    requires Grew(s, t, f) && Grew(t, u, f)
    ensures Grew(s, u, f) && News(s, u, f) == News(s, t, f) + News(t, u, f)
  {
  }

  lemma GrewOnly(s: Sm, u: Sm, f: Fd)
    requires Grew(s, u, f)
    ensures OnlyOf(s, u, f)
  {
  }

  /** The connection died in the middle of a request that was its own business. */
  lemma GrewThenDied(s: Sm, t: Sm, u: Sm, f: Fd)
    requires Grew(s, t, f) && Shrinks(t, u, {}) && Buried(t, u, {}) && f !in u.clients && SinceOk(u)
    ensures Shrinks(s, u, {}) && Buried(s, u, {})
  {
    GrewOnly(s, t, f);
    DiedAnyway(s, t, u, f);
    BuriedAnyway(s, t, u, f, {});
    assert u.since == s.since;
    assert u.(since := s.since) == u;
  }

  lemma GrewRendezvous(s: Sm, u: Sm, f: Fd)
    requires Rendezvous(s) && f in s.clients && f in u.clients && u.clients == s.clients[f := u.clients[f]]
    requires s.clients[f].out.frames <= u.clients[f].out.frames
    requires u.tabs.slots == s.tabs.slots && u.tabs.subs == s.tabs.subs && u.met == s.met
    ensures Rendezvous(u)
  {
    hide NotifyFits;
    forall slot: SlotId, sub: SubId | Meets(u, slot, sub) && sub.fd in u.clients
      ensures Knows(u, slot, sub)
    {
      assert Meets(s, slot, sub);
      var p := u.tabs.slots[slot];
      var n := s.met[Pair(slot, sub)];
      HeardLater(s.clients[sub.fd].out.frames[n..], u.clients[sub.fd].out.frames[n..], slot.topic, p.info, p.hash);
    }
  }

  lemma InvSince(s: Sm, clean: bool)
    requires Inv(s, clean)
    ensures SinceOk(s)
  {
  }

  lemma InvMirrors(s: Sm, clean: bool)
    requires Inv(s, clean)
    ensures PidsExact(s) && WatchersMirror(s) && SinceOk(s)
  {
  }

  lemma SinceDoesNotMatter(s: Sm, t: Sm)
    requires t == s.(since := t.since)
    ensures PidsExact(s) ==> PidsExact(t)
    ensures WatchersMirror(s) ==> WatchersMirror(t)
  {
  }

  /** The requester died: all is as if it had not asked. */
  lemma AbandonedInv(s: Sm, s1: Sm, t: Sm, f: Fd, clean: bool)
    requires Inv(s, clean) && OnlyOf(s, s1, f)
    requires Shrinks(s1, t, {}) && Buried(s1, t, {}) && f !in t.clients
    requires PidsExact(t) && WatchersMirror(t) && SinceOk(t)
    ensures var t' := t.(since := s.since);
            PidsExact(t') && WatchersMirror(t') && SinceOk(t') && Shrinks(s, t', {}) && Inv(t', clean)
  {
    hide Shrinks;
    hide Inv;
    hide Buried;
    hide OnlyOf;
    var t' := t.(since := s.since);
    DiedAnyway(s, s1, t, f);
    InvSince(s, clean);
    ShrinksKeepsSince(s, t', {});
    SinceDoesNotMatter(t, t');
    BuriedAnyway(s, s1, t, f, {});
    CascadeInv(s, t', clean, clean);
  }

  lemma ReplyGrew(s: Sm, t: Sm, f: Fd, reply: Msg)
    ensures Sent(s, t, f, reply) ==> Grew(s, t, f) && News(s, t, f) == [reply]
  {
  }
}

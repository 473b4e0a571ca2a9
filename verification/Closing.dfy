/** The algebra of closing one connection: the pieces in which closeClient
    clears the tables, with cascades in between, add up to one purge.
  */
module Closing {
  import opened Base
  import opened Registry
  import opened Outboxes
  import opened ControlPlane

  /** First step: the connection leaves `clients`, its session and its services go. */
  ghost function Erased(s: Sm, f: Fd): Sm
    requires f in s.clients
  {
    s.(clients := s.clients - {f},
       sessions := PurgeSessions(s.clients, s.sessions, {f}),
       tabs := s.tabs.(reg := OwnedOutside(s.tabs.reg, {f})))
  }

  /** Both watcher tables without one watcher. */
  ghost function Forget(s: Sm, w: Fd): Sm {
    s.(tabs := s.tabs.(pw := PairsOutside(s.tabs.pw, {w}), wp := PairsOutside(s.tabs.wp, {w})))
  }

  /** pid_watchers_ without one pair. */
  ghost function Unpair(s: Sm, x: PidFd): Sm {
    s.(tabs := s.tabs.(pw := s.tabs.pw - {x}))
  }

  /** What the tables must hold of a connection whose services, watches, topics
      and process are cleared, watcher pairs aside. */
  ghost predicate Cleared(t: Sm, u: Sm, f: Fd) {
    u == t.(tabs := u.tabs) && Forget(u, f).tabs == Purge(t.tabs, {f})
  }

  lemma ErasedPurge(s: Tables, f: Fd, dead: set<Fd>)
    ensures Purge(s.(reg := OwnedOutside(s.reg, {f})), dead + {f}) == Purge(s, dead + {f})
  {
    hide Vanishes;
    assert OwnedOutside(OwnedOutside(s.reg, {f}), dead + {f}) == OwnedOutside(s.reg, dead + {f});
  }

  /** Statements that instances of connection `f` went offline. */
  ghost predicate OfLost(s: Sm, f: Fd, a: set<Says>) {
    forall x :: x in a ==> x.Says? && !x.online && x.key in s.tabs.reg && s.tabs.reg[x.key].fd == f
  }

  /** Erase, cascade, clear, cascade: together one cascade that closed `f` too.
      What was said of the instances of `f` is covered by their loss. */
  lemma CloseAddsUp(s: Sm, f: Fd, t: Sm, u: Sm, v: Sm, a: set<Says>)
    requires f in s.clients && OfLost(s, f, a)
    requires Shrinks(Erased(s, f), t, a) && Cleared(t, u, f) && Shrinks(Forget(u, f), v, {})
    ensures Shrinks(s, v, {}) && f !in v.clients
  {
    hide Purge;
    hide Extra;
    var s1 := Erased(s, f);
    var d1, d2 := s1.clients.Keys - t.clients.Keys, t.clients.Keys - v.clients.Keys;
    PurgeTwice(s1.tabs, d1, {f});
    ErasedPurge(s.tabs, f, d1);
    PurgeTwice(s.tabs, d1 + {f}, d2);
    assert d1 + {f} + d2 == s.clients.Keys - v.clients.Keys;
    assert v.tabs == Purge(s.tabs, s.clients.Keys - v.clients.Keys);
    SessionsTwice(s.clients, s1.clients, s.sessions, {f}, d1);
    assert forall g :: g in t.clients ==> t.clients[g].sessionKey == s.clients[g].sessionKey;
    SessionsTwice(s.clients, t.clients, s.sessions, {f} + d1, d2);
    assert {f} + d1 + d2 == s.clients.Keys - v.clients.Keys;
    forall g | g in v.clients
      ensures Continues(g, s.clients[g], v.clients[g], s.tabs.reg, v.tabs, {})
    {
      ContinuesTwice(s, t, u, v, f, g, a);
    }
  }

  lemma ContinuesTwice(s: Sm, t: Sm, u: Sm, v: Sm, f: Fd, g: Fd, a: set<Says>)
    requires f in s.clients && OfLost(s, f, a)
    requires Shrinks(Erased(s, f), t, a) && Cleared(t, u, f) && Shrinks(Forget(u, f), v, {})
    requires g in v.clients
    ensures g in s.clients && Continues(g, s.clients[g], v.clients[g], s.tabs.reg, v.tabs, {})
  {
    var s1, u' := Erased(s, f), Forget(u, f);
    assert g in t.clients && g in s.clients && u'.clients == t.clients;
    assert u'.tabs == Purge(t.tabs, {f});
    RegShrinks(s1, t, a);
    var x, y, z := s.clients[g].out.frames, t.clients[g].out.frames, v.clients[g].out.frames;
    hide Shrinks;
    forall i | |x| <= i < |z|
      ensures Extra(g, z[i], s.tabs.reg, v.tabs, {})
    {
      if i < |y| {
        assert z[i] == y[i];
        assert Extra(g, y[i], s1.tabs.reg, t.tabs, a);
        assert Extra(g, y[i], s.tabs.reg, u'.tabs, {});
        ExtraLater(g, y[i], s.tabs.reg, u', v, {});
      } else {
        ExtraWider(g, z[i], u'.tabs.reg, s.tabs.reg, v.tabs, {});
      }
    }
  }

  /** No new notification is about an instance that connection `f` owned. */
  ghost predicate Silent(s: Sm, t: Sm, f: Fd) {
    forall g :: g in s.clients && g in t.clients ==>
        SilentTo(s.clients[g].out.frames, t.clients[g].out.frames, s.tabs.reg, f)
  }

  ghost predicate SilentTo(before: seq<Msg>, after: seq<Msg>, reg: Entries, f: Fd) {
    forall i :: |before| <= i < |after| && after[i].WatchNotify? ==>
      !(after[i].identity.Key() in reg && reg[after[i].identity.Key()].fd == f)
  }

  /** Without notification the instances of the closed connection go silently. */
  lemma CloseIsSilent(s: Sm, f: Fd, u: Sm, v: Sm)
    requires f in s.clients && Cleared(Erased(s, f), u, f) && Shrinks(Forget(u, f), v, {})
    ensures Silent(s, v, f)
  {
    var u' := Forget(u, f);
    assert u'.clients == s.clients - {f} && u'.tabs.reg == OwnedOutside(OwnedOutside(s.tabs.reg, {f}), {f});
    hide Purge;
    hide PurgeSessions;
    forall g | g in s.clients && g in v.clients
      ensures SilentTo(s.clients[g].out.frames, v.clients[g].out.frames, s.tabs.reg, f)
    {
      var before, after := s.clients[g].out.frames, v.clients[g].out.frames;
      forall i | |before| <= i < |after| && after[i].WatchNotify?
        ensures !(after[i].identity.Key() in s.tabs.reg && s.tabs.reg[after[i].identity.Key()].fd == f)
      {
        assert Extra(g, after[i], u'.tabs.reg, v.tabs, {});
      }
    }
  }

  /** A cascade while one watcher's remaining pairs are still listed. */
  lemma ForgetShrinks(s: Sm, t: Sm, w: Fd)
    requires Shrinks(s, t, {}) && w !in s.clients
    ensures Shrinks(Forget(s, w), Forget(t, w), {})
  {
    hide Extra;
    hide Vanishes;
    var dead := s.clients.Keys - t.clients.Keys;
    assert Forget(t, w).tabs.pw == WatchPairsOutside(Forget(s, w).tabs.pw, s.tabs.pids, dead);
    assert Forget(t, w).tabs.wp == WatchPairsOutside(Forget(s, w).tabs.wp, s.tabs.pids, dead);
    forall f | f in t.clients
      ensures Continues(f, s.clients[f], t.clients[f], s.tabs.reg, Forget(t, w).tabs, {})
    {
      var x, y := s.clients[f].out.frames, t.clients[f].out.frames;
      forall i | |x| <= i < |y|
        ensures Extra(f, y[i], s.tabs.reg, Forget(t, w).tabs, {})
      {
        ExtraSame(f, y[i], s.tabs.reg, t.tabs, Forget(t, w).tabs);
      }
    }
  }

  lemma ExtraSame(f: Fd, m: Msg, reg: Entries, a: Tables, b: Tables)
    requires a.watches == b.watches && a.reg == b.reg
    ensures Extra(f, m, reg, a, {}) == Extra(f, m, reg, b, {})
  {
  }
}

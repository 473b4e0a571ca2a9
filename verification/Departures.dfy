/** Nobody is closed without cause: whom an event closes although every send
    succeeds, and that all others stay (service_manager/sm_registry.cpp
    handleRegister and handleControlHeartbeat, sm_diag.cpp handleRuntimeHello).
  */
module Departures {
  import opened Base
  import opened Registry
  import opened ControlPlane
  import opened DiagHandlers
  import opened Transitions

  /** A heartbeat without hello, undecodable, or of another incarnation. */
  ghost predicate BeatsWrongly(s: Sm, e: Event, f: Fd)
    requires f in s.clients
  {
    && e.Received? && e.request.Heartbeat? && e.fd == f
    && (!s.clients[f].hello || e.request.incarnation != Some(s.clients[f].incarnation))
  }

  /** The registration takes the last instance of connection `f`. */
  ghost predicate TakesLast(s: Sm, e: Event, f: Fd) {
    && e.Received? && e.request.Register? && e.fd in s.clients && e.fd != f && s.clients[e.fd].hello
    && e.request.info.Some? && Acceptable(e.request.info.value)
    && var key := KeyOf(e.request.info.value);
       && key in s.tabs.reg && s.tabs.reg[key].fd == f
       && forall id :: id in s.tabs.reg && s.tabs.reg[id].fd == f ==> id == key
  }

  /** The hello claims the session entry that stands for connection `f`. */
  ghost predicate TakesSession(s: Sm, e: Event, f: Fd) {
    && e.Received? && e.request.Greeting? && e.fd in s.clients && e.fd != f && GoodHello(e.request.hello)
    && KeyFor(e.request.hello.value) in s.sessions && s.sessions[KeyFor(e.request.hello.value)] == f
  }

  /** While sends succeed a connection leaves for one of four reasons: it is gone or
      overdue, its own heartbeat is wrong, another connection takes its last
      instance, or another takes its session. */
  lemma LeavesIff(s: Sm, e: Event, t: Sm, f: Fd)
    requires f in s.clients && t.clients.Keys == Present(s, e)
    ensures f !in t.clients <==>
              || e == Disconnected(f) || e == Deadline(f)
              || BeatsWrongly(s, e, f) || TakesLast(s, e, f) || TakesSession(s, e, f)
  {
    hide KeyFor;
    hide GoodHello;
    hide Acceptable;
  }

  /** So a connection that nothing of the kind happens to stays through any run. */
  lemma {:induction false} StaysUnless(trail: seq<Sm>, events: seq<Event>, f: Fd)
    requires |trail| == |events| + 1 && f in trail[0].clients
    requires forall n: nat :: n < |events| ==> trail[n + 1].clients.Keys == Present(trail[n], events[n])
    requires forall n: nat :: n < |events| && f in trail[n].clients ==>
               && events[n] != Disconnected(f) && events[n] != Deadline(f) && !BeatsWrongly(trail[n], events[n], f)
               && !TakesLast(trail[n], events[n], f) && !TakesSession(trail[n], events[n], f)
    ensures forall n: nat :: n <= |events| ==> f in trail[n].clients
    decreases |events|
  {
    hide Present;
    hide BeatsWrongly;
    hide TakesLast;
    hide TakesSession;
    if events != [] {
      var m := |events| - 1;
      StaysUnless(trail[..m + 1], events[..m], f);
      assert trail[..m + 1][m] == trail[m];
      LeavesIff(trail[m], events[m], trail[m + 1], f);
      forall n: nat | n <= |events|
        ensures f in trail[n].clients
      {
        if n <= m { assert trail[..m + 1][n] == trail[n]; }
      }
    }
  }
}

/** Heartbeat intervals and session timeouts (include/omnibinder/types.h,
    service_manager/sm_diag.cpp), in milliseconds.
  */
module SessionTiming {
  import opened Base
  import opened Wire

  const DEFAULT_HEARTBEAT_INTERVAL: u32 := 3000
  const DEFAULT_HEARTBEAT_TIMEOUT: u32 := 10000
  const MIN_HEARTBEAT_INTERVAL: u32 := 100
  const HEARTBEAT_MISSED_FACTOR := 3
  const U32_LIMIT := 0xFFFF_FFFF

  const SESSION_PROTOCOL_VERSION: u32 := 1
  const SESSION_STATUS_OK: u32 := 0
  const SESSION_STATUS_CLAMPED: u32 := 1
  const SESSION_STATUS_REJECTED: u32 := 2

  /** clampHeartbeatInterval. */
  function ClampInterval(interval: u32): u32 {
    if interval == 0 then DEFAULT_HEARTBEAT_INTERVAL
    else if interval < MIN_HEARTBEAT_INTERVAL then MIN_HEARTBEAT_INTERVAL
    else interval
  }

  /** negotiateSessionTimeout: the 64-bit steps, in the source's order.  Its last
      resort, turning 0 into 1, is never needed. */
  method NegotiateTimeout(interval: u32, requested: u32, cap: u32) returns (timeout: u32)
    ensures timeout == Negotiated(interval, requested, cap) && timeout > 0
  {
    var floor := interval * HEARTBEAT_MISSED_FACTOR;
    var effective := if requested == 0 then floor else requested;
    if requested == 0 && effective < DEFAULT_HEARTBEAT_TIMEOUT { effective := DEFAULT_HEARTBEAT_TIMEOUT; }
    if effective < floor { effective := floor; }
    if cap != 0 && effective > cap { effective := cap; }
    if effective > U32_LIMIT { effective := U32_LIMIT; }
    timeout := effective;
  }

  function Max(a: nat, b: nat): nat { if a < b then b else a }
  function Min(a: nat, b: nat): nat { if a < b then a else b }

  /** The longest timeout the server grants. */
  function Limit(cap: u32): u32 {
    if cap == 0 then U32_LIMIT else cap
  }

  /** Three intervals, what was asked for, or the default when nothing was: the
      longest of these, within the limit. */
  function Negotiated(interval: u32, requested: u32, cap: u32): u32 {
    Min(Limit(cap), Max(HEARTBEAT_MISSED_FACTOR * interval,
                        if requested == 0 then DEFAULT_HEARTBEAT_TIMEOUT else requested))
  }

  /** The timeout covers three intervals and the request exactly when the limit
      allows both. */
  lemma NegotiatedCoversIff(interval: u32, requested: u32, cap: u32)
    ensures Negotiated(interval, requested, cap) >= Max(HEARTBEAT_MISSED_FACTOR * interval, requested)
       <==> Max(HEARTBEAT_MISSED_FACTOR * interval, requested) <= Limit(cap)
  {
  }

  /** Without a cap, only intervals above a third of the 32-bit range fail. */
  lemma UncappedCoversIff(interval: u32, requested: u32)
    ensures Negotiated(interval, requested, 0) >= Max(HEARTBEAT_MISSED_FACTOR * interval, requested)
       <==> interval <= 0x5555_5555
  {
    NegotiatedCoversIff(interval, requested, 0);
  }

  datatype SessionConfig = SessionConfig(defaultTimeout: u32, cap: u32, incarnation: u32)

  /** The timeout handleRuntimeHello settles on: a request of 0 takes the
      server's default as it is, even below three intervals. */
  method EffectiveTimeout(interval: u32, requested: u32, config: SessionConfig) returns (timeout: u32)
    ensures timeout == Effective(interval, requested, config) && timeout > 0
  {
    if requested != 0 {
      timeout := NegotiateTimeout(interval, requested, config.cap);
      return;
    }
    timeout := config.defaultTimeout;
    if config.cap != 0 && timeout > config.cap { timeout := config.cap; }
    if timeout == 0 { timeout := NegotiateTimeout(interval, 0, config.cap); }
  }

  function Effective(interval: u32, requested: u32, config: SessionConfig): u32 {
    if requested == 0 && config.defaultTimeout != 0 then Min(config.defaultTimeout, Limit(config.cap))
    else Negotiated(interval, requested, config.cap)
  }

  /** serializeSessionHelloAck. */
  function Ack(status: u32, interval: u32, timeout: u32, incarnation: u32): Bytes {
    Le32(SESSION_PROTOCOL_VERSION) + Le32(status) + Le32(interval) + Le32(timeout) + Le32(incarnation)
  }

  function RejectAck(config: SessionConfig): Bytes {
    Ack(SESSION_STATUS_REJECTED, DEFAULT_HEARTBEAT_INTERVAL, DEFAULT_HEARTBEAT_TIMEOUT, config.incarnation)
  }

  /** The acknowledgement of an accepted hello: OK exactly when the client gets
      the interval and the timeout it asked for. */
  function HelloAck(requestedInterval: u32, requestedTimeout: u32, config: SessionConfig): Bytes {
    var interval := ClampInterval(requestedInterval);
    var timeout := Effective(interval, requestedTimeout, config);
    var status := if interval == requestedInterval && (requestedTimeout == 0 || timeout == requestedTimeout)
                  then SESSION_STATUS_OK else SESSION_STATUS_CLAMPED;
    Ack(status, interval, timeout, config.incarnation)
  }

  // ---- What the client makes of it ---------------------------------------------------------------

  datatype SessionAck = SessionAck(version: u32, status: u32, interval: u32, timeout: u32, incarnation: u32)

  /** deserializeSessionHelloAck. */
  function ReadAck(payload: Bytes): Parsed<SessionAck> {
    var (version, p) :- ReadU32(payload, 0);
    var (status, p) :- ReadU32(payload, p);
    var (interval, p) :- ReadU32(payload, p);
    var (timeout, p) :- ReadU32(payload, p);
    var (incarnation, p) :- ReadU32(payload, p);
    Ok(SessionAck(version, status, interval, timeout, incarnation), p)
  }

  lemma AckRoundTrip(status: u32, interval: u32, timeout: u32, incarnation: u32)
    ensures ReadAck(Ack(status, interval, timeout, incarnation))
         == Ok(SessionAck(SESSION_PROTOCOL_VERSION, status, interval, timeout, incarnation), 20)
  {
    hide ReadU32;
    hide Le32;
    hide At;
    var s := Ack(status, interval, timeout, incarnation);
    var t4 := Le32(incarnation) + [];
    var t3 := Le32(timeout) + t4;
    var t2 := Le32(interval) + t3;
    var t1 := Le32(status) + t2;
    assert s == Le32(SESSION_PROTOCOL_VERSION) + t1;
    assert At(s, 0, s) by { AtStart(s); }
    U32Then(s, 0, SESSION_PROTOCOL_VERSION, t1);
    U32Then(s, 4, status, t2);
    U32Then(s, 8, interval, t3);
    U32Then(s, 12, timeout, t4);
    U32Then(s, 16, incarnation, []);
  }

  lemma AtStart(s: Bytes)
    ensures At(s, 0, s)
  {
  }

  datatype Terms = Terms(interval: u32, timeout: u32, incarnation: u32)

  /** What sendRuntimeHello adopts: nothing after a rejection or a malformed reply. */
  function Adopted(payload: Bytes): Option<Terms> {
    match ReadAck(payload)
    case Fail(_) => None
    case Ok(ack, _) =>
      if ack.status == SESSION_STATUS_REJECTED then None
      else Some(Terms(ClampInterval(ack.interval),
                      if ack.timeout != 0 then ack.timeout else DEFAULT_HEARTBEAT_TIMEOUT, ack.incarnation))
  }

  /** Both ends work with the same interval and timeout, and the client is told OK
      exactly when they are what it asked for. */
  lemma BothEndsAgree(interval: u32, timeout: u32, config: SessionConfig)
    ensures Adopted(RejectAck(config)) == None
    ensures var granted := ClampInterval(interval);
            Adopted(HelloAck(interval, timeout, config)) ==
              Some(Terms(granted, Effective(granted, timeout, config), config.incarnation))
    ensures var terms := Adopted(HelloAck(interval, timeout, config)).value;
            && terms.interval == (if interval == 0 then 3000 else Max(100, interval))
            && ReadAck(HelloAck(interval, timeout, config)).Ok?
            && var status := ReadAck(HelloAck(interval, timeout, config)).value.status;
               && (status == SESSION_STATUS_OK || status == SESSION_STATUS_CLAMPED)
               && (status == SESSION_STATUS_OK <==>
                     terms.interval == interval && (timeout == 0 || terms.timeout == timeout))
  {
    hide ReadAck;
    hide Ack;
    hide Negotiated;
    AckRoundTrip(SESSION_STATUS_REJECTED, DEFAULT_HEARTBEAT_INTERVAL, DEFAULT_HEARTBEAT_TIMEOUT, config.incarnation);
    var granted := ClampInterval(interval);
    assert Effective(granted, timeout, config) > 0 by { EffectivePositive(granted, timeout, config); }
    AckRoundTrip(SESSION_STATUS_OK, granted, Effective(granted, timeout, config), config.incarnation);
    AckRoundTrip(SESSION_STATUS_CLAMPED, granted, Effective(granted, timeout, config), config.incarnation);
  }

  lemma EffectivePositive(interval: u32, requested: u32, config: SessionConfig)
    ensures Effective(interval, requested, config) > 0
  {
  }

  /** The agreed timeout leaves room for three heartbeats exactly when the server's
      limit does, and its default too where the client leaves the choice to it. */
  lemma ThreeBeatsIff(interval: u32, timeout: u32, config: SessionConfig)
    ensures var terms := Adopted(HelloAck(interval, timeout, config));
            && terms.Some?
            && (HEARTBEAT_MISSED_FACTOR * terms.value.interval <= terms.value.timeout <==>
                  && HEARTBEAT_MISSED_FACTOR * ClampInterval(interval) <= Limit(config.cap)
                  && (timeout == 0 && config.defaultTimeout != 0 ==>
                        HEARTBEAT_MISSED_FACTOR * ClampInterval(interval) <= config.defaultTimeout))
  {
    hide Adopted;
    hide HelloAck;
    hide ClampInterval;
    BothEndsAgree(interval, timeout, config);
  }
}

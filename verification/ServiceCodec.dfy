/** The nested length-prefixed encodings of service descriptions
    (src/core/message.cpp serializers, include/omnibinder/message.h
    deserializers, src/core/runtime_service.cpp decodeCountedVector).
  */
module ServiceCodec {
  import opened Base
  import opened Wire

  datatype MethodInfo = MethodInfo(id: u32, name: Str, params: Str, returns_: Str, idlHash: u32)

  datatype InterfaceInfo = InterfaceInfo(id: u32, name: Str, methods: seq<MethodInfo>)

  /** Ring capacities are size_t in memory and 32 bits on the wire. */
  datatype ServiceInfo = ServiceInfo(
    name: Str, host: Str, port: u16, hostId: Str, inst: Str,
    reqCapacity: u64, respCapacity: u64, interfaces: seq<InterfaceInfo>)

  const MAX_COUNT: nat := 0xFFFF
  const U32_MOD: nat := 0x1_0000_0000

  // ---- What the serializers accept -------------------------------------------

  predicate EncodableMethod(m: MethodInfo) {
    |m.name| <= MAX_STRING && |m.params| <= MAX_STRING && |m.returns_| <= MAX_STRING
  }

  predicate EncodableInterface(i: InterfaceInfo) {
    && |i.name| <= MAX_STRING
    && |i.methods| <= MAX_COUNT
    && forall m :: m in i.methods ==> EncodableMethod(m)
  }

  predicate Encodable(s: ServiceInfo) {
    && |s.name| <= MAX_STRING && |s.host| <= MAX_STRING
    && |s.hostId| <= MAX_STRING && |s.inst| <= MAX_STRING
    && |s.interfaces| <= MAX_COUNT
    && forall i :: i in s.interfaces ==> EncodableInterface(i)
  }

  // ---- Encodings -----------------------------------------------------------

  function EncMethod(m: MethodInfo): (r: Bytes)
    ensures |r| >= 20
  {
    Le32(m.id) + (EncString(m.name) + (EncString(m.params) + (EncString(m.returns_) + Le32(m.idlHash))))
  }

  function EncInterface(i: InterfaceInfo): (r: Bytes)
    ensures |r| >= 10
  {
    Le32(i.id) + (EncString(i.name)
    + (Le16(|i.methods| % 0x1_0000) + EncList(i.methods, EncMethod)))
  }

  function EncService(s: ServiceInfo): (r: Bytes)
    ensures |r| >= 28
  {
    EncString(s.name) + (EncString(s.host) + (Le16(s.port)
    + (EncString(s.hostId) + (EncString(s.inst) + EncOffer(s)))))
  }

  /** The part behind the identity: ring capacities and interfaces. */
  function EncOffer(s: ServiceInfo): (r: Bytes)
    ensures |r| >= 10
  {
    Le32(s.reqCapacity % U32_MOD) + (Le32(s.respCapacity % U32_MOD)
    + (Le16(|s.interfaces| % 0x1_0000) + EncList(s.interfaces, EncInterface)))
  }

  // ---- Decoders ------------------------------------------------------------

  function ReadMethod(s: Bytes, pos: nat): Parsed<MethodInfo> {
    var (id, p1) :- ReadU32(s, pos);
    var (name, p2) :- ReadString(s, p1);
    var (params, p3) :- ReadString(s, p2);
    var (returns_, p4) :- ReadString(s, p3);
    var (hash, p5) :- ReadU32(s, p4);
    Ok(MethodInfo(id, name, params, returns_, hash), p5)
  }

  function ReadInterface(s: Bytes, pos: nat): Parsed<InterfaceInfo> {
    var (id, p1) :- ReadU32(s, pos);
    var (name, p2) :- ReadString(s, p1);
    var (count, p3) :- ReadU16(s, p2);
    var (methods, p4) :- ReadList(s, p3, count, ReadMethod);
    Ok(InterfaceInfo(id, name, methods), p4)
  }

  datatype Offer = Offer(req: u32, resp: u32, interfaces: seq<InterfaceInfo>)

  function ReadOffer(s: Bytes, pos: nat): Parsed<Offer> {
    var (req, p1) :- ReadU32(s, pos);
    var (resp, p2) :- ReadU32(s, p1);
    var (count, p3) :- ReadU16(s, p2);
    var (interfaces, p4) :- ReadList(s, p3, count, ReadInterface);
    Ok(Offer(req, resp, interfaces), p4)
  }

  function ReadService(s: Bytes, pos: nat): Parsed<ServiceInfo> {
    var (name, p1) :- ReadString(s, pos);
    var (host, p2) :- ReadString(s, p1);
    var (port, p3) :- ReadU16(s, p2);
    var (hostId, p4) :- ReadString(s, p3);
    var (inst, p5) :- ReadString(s, p4);
    var (o, p6) :- ReadOffer(s, p5);
    Ok(ServiceInfo(name, host, port, hostId, inst, o.req, o.resp, o.interfaces), p6)
  }

  // ---- Round trips -----------------------------------------------------------

  lemma ReadMethodAt(s: Bytes, pos: nat, m: MethodInfo)
    requires EncodableMethod(m) && At(s, pos, EncMethod(m))
    ensures ReadMethod(s, pos) == Ok(m, pos + |EncMethod(m)|)
  {
    hide ReadString;
    hide ReadU32;
    hide EncString;
    hide At;
    hide Le32;
    var t3 := Le32(m.idlHash);
    var t2 := EncString(m.returns_) + t3;
    var t1 := EncString(m.params) + t2;
    var t0 := EncString(m.name) + t1;
    U32Then(s, pos, m.id, t0);
    var p := pos + 4;
    StringThen(s, p, m.name, t1);
    p := p + 4 + |m.name|;
    StringThen(s, p, m.params, t2);
    p := p + 4 + |m.params|;
    StringThen(s, p, m.returns_, t3);
    ReadU32At(s, p + 4 + |m.returns_|, m.idlHash);
  }

  lemma MethodUndone(m: MethodInfo)
    requires EncodableMethod(m)
    ensures Undoes(ReadMethod, EncMethod, m)
  {
    forall s, pos: nat | At(s, pos, EncMethod(m))
      ensures ReadMethod(s, pos) == Ok(m, pos + |EncMethod(m)|)
    {
      ReadMethodAt(s, pos, m);
    }
  }

  lemma ReadInterfaceAt(s: Bytes, pos: nat, i: InterfaceInfo)
    requires EncodableInterface(i) && At(s, pos, EncInterface(i))
    ensures ReadInterface(s, pos) == Ok(i, pos + |EncInterface(i)|)
  {
    hide ReadString;
    hide ReadU32;
    hide ReadU16;
    hide EncString;
    hide At;
    hide Undoes;
    hide Le32;
    hide Le16;
    var t2 := EncList(i.methods, EncMethod);
    var t1 := Le16(|i.methods|) + t2;
    U32Then(s, pos, i.id, EncString(i.name) + t1);
    var p := pos + 4;
    StringThen(s, p, i.name, t1);
    p := p + 4 + |i.name|;
    U16Then(s, p, |i.methods|, t2);
    forall m | m in i.methods ensures Undoes(ReadMethod, EncMethod, m) { MethodUndone(m); }
    ReadListAt(s, p + 2, i.methods, ReadMethod, EncMethod);
  }

  lemma InterfaceUndone(i: InterfaceInfo)
    requires EncodableInterface(i)
    ensures Undoes(ReadInterface, EncInterface, i)
  {
    forall s, pos: nat | At(s, pos, EncInterface(i))
      ensures ReadInterface(s, pos) == Ok(i, pos + |EncInterface(i)|)
    {
      ReadInterfaceAt(s, pos, i);
    }
  }

  /** What comes back: the capacities reduced to the 32 bits the wire carries. */
  function OnWire(s: ServiceInfo): ServiceInfo {
    s.(reqCapacity := s.reqCapacity % U32_MOD, respCapacity := s.respCapacity % U32_MOD)
  }

  /** Service descriptions of any nesting come back wherever they stand in the
      payload, with the bytes behind them untouched. */
  lemma ReadServiceAt(s: Bytes, pos: nat, v: ServiceInfo)
    requires Encodable(v) && At(s, pos, EncService(v))
    ensures ReadService(s, pos) == Ok(OnWire(v), pos + |EncService(v)|)
  {
    hide ReadString;
    hide ReadU32;
    hide ReadU16;
    hide EncString;
    hide At;
    hide Undoes;
    hide Le32;
    hide Le16;
    hide ReadOffer;
    hide EncOffer;
    var t5 := EncOffer(v);
    var t4 := EncString(v.inst) + t5;
    var t3 := EncString(v.hostId) + t4;
    var t2 := Le16(v.port) + t3;
    var t1 := EncString(v.host) + t2;
    StringThen(s, pos, v.name, t1);
    var p := pos + 4 + |v.name|;
    StringThen(s, p, v.host, t2);
    p := p + 4 + |v.host|;
    U16Then(s, p, v.port, t3);
    p := p + 2;
    StringThen(s, p, v.hostId, t4);
    p := p + 4 + |v.hostId|;
    StringThen(s, p, v.inst, t5);
    ReadOfferAt(s, p + 4 + |v.inst|, v);
  }

  lemma ReadOfferAt(s: Bytes, pos: nat, v: ServiceInfo)
    requires Encodable(v) && At(s, pos, EncOffer(v))
    ensures ReadOffer(s, pos) == Ok(Offer(v.reqCapacity % U32_MOD, v.respCapacity % U32_MOD, v.interfaces),
                                    pos + |EncOffer(v)|)
  {
    hide ReadU32;
    hide ReadU16;
    hide At;
    hide Undoes;
    hide Le32;
    hide Le16;
    hide ReadInterface;
    hide EncInterface;
    hide EncList;
    hide ReadList;
    var req, resp := v.reqCapacity % U32_MOD, v.respCapacity % U32_MOD;
    var t3 := EncList(v.interfaces, EncInterface);
    var t2 := Le16(|v.interfaces|) + t3;
    U32Then(s, pos, req, Le32(resp) + t2);
    U32Then(s, pos + 4, resp, t2);
    U16Then(s, pos + 8, |v.interfaces|, t3);
    forall i | i in v.interfaces ensures Undoes(ReadInterface, EncInterface, i) { InterfaceUndone(i); }
    ReadListAt(s, pos + 10, v.interfaces, ReadInterface, EncInterface);
  }

  /** The round trip is exact precisely when both ring capacities fit in 32 bits. */
  lemma ServiceRoundTripIff(v: ServiceInfo, tail: Bytes)
    requires Encodable(v)
    ensures ReadService(EncService(v) + tail, 0) == Ok(v, |EncService(v)|)
            <==> v.reqCapacity < U32_MOD && v.respCapacity < U32_MOD
  {
    hide EncService;
    hide ReadService;
    hide Encodable;
    var e := EncService(v);
    var s := e + tail;
    assert s[0..|e|] == e;
    ReadServiceAt(s, 0, v);
  }

  // ---- Counted replies -------------------------------------------------------

  /** `count` elements of at least `minBytes` bytes could stand in `room` bytes. */
  predicate CountPlausible(count: nat, room: nat, minBytes: nat) {
    count <= room / (if minBytes == 0 then 1 else minBytes)
  }

  /** decodeCountedVector: a count from the network is believed only if that
      many elements of minimal size could follow. */
  function ReadCounted<T>(s: Bytes, pos: nat, minBytes: nat, read: (Bytes, nat) -> Parsed<T>): Parsed<seq<T>> {
    var (count, p) :- ReadU32(s, pos);
    if p <= |s| && CountPlausible(count, |s| - p, minBytes) then ReadList(s, p, count, read) else Fail(p)
  }

  method DecodeCounted<T>(s: Bytes, pos: nat, minBytes: nat, read: (Bytes, nat) -> Parsed<T>)
    returns (r: Parsed<seq<T>>)
    ensures r == ReadCounted(s, pos, minBytes, read)
  {
    hide CountPlausible;
    hide ReadList;
    hide Un32;
    var header := ReadU32(s, pos);
    if header.Fail? { return Fail(header.pos); }
    if !CountPlausible(header.value, |s| - header.pos, minBytes) { return Fail(header.pos); }
    r := ReadListLoop(s, header.pos, header.value, read);
  }

  /** No reply yields more elements than its bytes could hold. */
  lemma CountedBounded<T>(s: Bytes, pos: nat, minBytes: nat, read: (Bytes, nat) -> Parsed<T>)
    requires minBytes > 0
    ensures ReadCounted(s, pos, minBytes, read).Ok? ==>
              |ReadCounted(s, pos, minBytes, read).value| * minBytes <= |s|
  {
    hide CountPlausible;
    hide ReadList;
    var header := ReadU32(s, pos);
    if header.Ok? && CountPlausible(header.value, |s| - header.pos, minBytes) {
      ReadListLength(s, header.pos, header.value, read);
      GuardMeans(header.value, minBytes, |s| - header.pos);
    }
  }

  lemma {:induction false} ReadListLength<T>(s: Bytes, pos: nat, n: nat, read: (Bytes, nat) -> Parsed<T>)
    ensures ReadList(s, pos, n, read).Ok? ==> |ReadList(s, pos, n, read).value| == n
    decreases n
  {
    if n > 0 && read(s, pos).Ok? { ReadListLength(s, read(s, pos).pos, n - 1, read); }
  }

  lemma {:induction false} EncListSize<T>(xs: seq<T>, enc: T -> Bytes, least: nat)
    requires forall x :: x in xs ==> least <= |enc(x)|
    ensures |xs| * least <= |EncList(xs, enc)|
  {
    if xs == [] {
      assert |xs| * least == 0;
    } else {
      var n := |xs| - 1;
      EncListSize(xs[..n], enc, least);
      assert |xs| * least == n * least + least;
    }
  }

  /** The guard of `least` bytes per element never rejects a genuine list whose
      elements each take at least that much, whatever follows it. */
  lemma CountedRoundTrip<T>(xs: seq<T>, read: (Bytes, nat) -> Parsed<T>, enc: T -> Bytes,
                            least: nat, tail: Bytes)
    requires |xs| < U32_MOD && least > 0
    requires forall x :: x in xs ==> Undoes(read, enc, x) && least <= |enc(x)|
    ensures var e := Le32(|xs|) + EncList(xs, enc);
            ReadCounted(e + tail, 0, least, read) == Ok(xs, |e|)
  {
    hide Undoes;
    hide CountPlausible;
    hide ReadU32;
    hide Le32;
    hide EncList;
    hide ReadList;
    var items := EncList(xs, enc);
    var s := Le32(|xs|) + items + tail;
    assert At(s, 0, Le32(|xs|) + items) by {
      assert s[0..4 + |items|] == Le32(|xs|) + items;
    }
    U32Then(s, 0, |xs|, items);
    EncListSize(xs, enc, least);
    GuardHolds(|xs|, least, |s| - 4);
    ReadListAt(s, 4, xs, read, enc);
  }

  lemma GuardHolds(n: nat, least: nat, room: nat)
    requires least > 0 && n * least <= room
    ensures CountPlausible(n, room, least)
  {
    var q := room / least;
    assert room < (q + 1) * least;
    assert q + 1 <= n ==> (q + 1) * least <= n * least;
  }

  lemma GuardMeans(n: nat, least: nat, room: nat)
    requires least > 0 && CountPlausible(n, room, least)
    ensures n * least <= room
  {
    var q := room / least;
    assert n * least <= q * least <= room;
  }

  /** Service lists (28 bytes each) and interface lists (10 bytes each). */
  lemma ReplyListsRoundTrip(services: seq<ServiceInfo>, interfaces: seq<InterfaceInfo>, tail: Bytes)
    requires |services| < U32_MOD && |interfaces| < U32_MOD
    requires forall v :: v in services ==> Encodable(v) && OnWire(v) == v
    requires forall i :: i in interfaces ==> EncodableInterface(i)
    ensures ReadCounted(Le32(|services|) + EncList(services, EncService) + tail, 0, 28, ReadService)
         == Ok(services, 4 + |EncList(services, EncService)|)
    ensures ReadCounted(Le32(|interfaces|) + EncList(interfaces, EncInterface) + tail, 0, 10, ReadInterface)
         == Ok(interfaces, 4 + |EncList(interfaces, EncInterface)|)
  {
    hide Undoes;
    forall v | v in services ensures Undoes(ReadService, EncService, v) && 28 <= |EncService(v)| {
      ServiceUndone(v);
    }
    forall i | i in interfaces ensures Undoes(ReadInterface, EncInterface, i) && 10 <= |EncInterface(i)| {
      InterfaceUndone(i);
    }
    hide EncService;
    hide EncInterface;
    hide ReadService;
    hide ReadInterface;
    hide ReadCounted;
    CountedRoundTrip(services, ReadService, EncService, 28, tail);
    CountedRoundTrip(interfaces, ReadInterface, EncInterface, 10, tail);
  }

  lemma ServiceUndone(v: ServiceInfo)
    requires Encodable(v) && OnWire(v) == v
    ensures Undoes(ReadService, EncService, v)
  {
    hide EncService;
    hide ReadService;
    hide At;
    forall s, pos: nat | At(s, pos, EncService(v))
      ensures ReadService(s, pos) == Ok(v, pos + |EncService(v)|)
    {
      ReadServiceAt(s, pos, v);
    }
  }
}

/** The serializers of service descriptions, writing into a Buffer
    (src/core/message.cpp serializeServiceInfo, serializeInterfaceInfo).
    They succeed exactly when everything is encodable and fits, and then append
    exactly the encoding.  After a failure the buffer holds a partial encoding
    that callers throw away.
  */
module ServiceSerializer {
  import opened Base
  import opened Wire
  import opened ByteBuffer
  import opened ServiceCodec

  /** `part` fits behind what the buffer holds. */
  predicate Fits(size: nat, part: Bytes) {
    size + |part| <= MAX_CAPACITY
  }

  lemma FourParts(c: Bytes, x1: Bytes, x2: Bytes, x3: Bytes, x4: Bytes)
    ensures c + x1 + x2 + x3 + x4 == c + (x1 + (x2 + (x3 + x4)))
  {
  }

  /** Three strings in a row. */
  method WriteStrings(buf: Buffer, x: Str, y: Str, z: Str) returns (ok: bool)
    requires buf.Valid()
    modifies buf, buf.data
    ensures buf.Valid() && (buf.data == old(buf.data) || fresh(buf.data))
    ensures ok <==> !old(buf.failed) && |x| <= MAX_STRING && |y| <= MAX_STRING && |z| <= MAX_STRING
                    && Fits(old(buf.writePos), EncString(x) + EncString(y) + EncString(z))
    ensures ok ==> !buf.failed && buf.Content() == old(buf.Content()) + EncString(x) + EncString(y) + EncString(z)
  {
    hide EncString;
    hide IsCapacity;
    ok := buf.WriteString(x);
    if !ok { return; }
    ok := buf.WriteString(y);
    if !ok { return; }
    ok := buf.WriteString(z);
  }

  /** The body of the loop over methods. */
  method WriteMethod(buf: Buffer, m: MethodInfo) returns (ok: bool)
    requires buf.Valid()
    modifies buf, buf.data
    ensures buf.Valid() && (buf.data == old(buf.data) || fresh(buf.data))
    ensures ok <==> !old(buf.failed) && EncodableMethod(m) && Fits(old(buf.writePos), EncMethod(m))
    ensures ok ==> !buf.failed && buf.Content() == old(buf.Content()) + EncMethod(m)
  {
    hide Le32;
    hide EncString;
    hide IsCapacity;
    hide EncMethod;
    MethodParts(buf.Content(), m);
    ok := buf.WriteUint32(m.id);
    if !ok { return; }
    ok := WriteStrings(buf, m.name, m.params, m.returns_);
    if !ok { return; }
    ok := buf.WriteUint32(m.idlHash);
  }

  lemma MethodParts(c: Bytes, m: MethodInfo)
    ensures c + Le32(m.id) + EncString(m.name) + EncString(m.params) + EncString(m.returns_) + Le32(m.idlHash)
         == c + EncMethod(m)
    ensures |EncMethod(m)| == 20 + |m.name| + |m.params| + |m.returns_|
  {
    hide Le32;
    hide EncString;
  }

  /** The loop over methods. */
  method WriteMethods(buf: Buffer, ms: seq<MethodInfo>) returns (ok: bool)
    requires buf.Valid() && !buf.failed
    modifies buf, buf.data
    ensures buf.Valid() && (buf.data == old(buf.data) || fresh(buf.data))
    ensures ok <==> (forall m :: m in ms ==> EncodableMethod(m)) && Fits(old(buf.writePos), EncList(ms, EncMethod))
    ensures ok ==> !buf.failed && buf.Content() == old(buf.Content()) + EncList(ms, EncMethod)
  {
    hide IsCapacity;
    hide EncMethod;
    hide EncodableMethod;
    ghost var c := buf.Content();
    assert c + [] == c;
    for i := 0 to |ms|
      invariant buf.Valid() && !buf.failed && (buf.data == old(buf.data) || fresh(buf.data))
      invariant forall m :: m in ms[..i] ==> EncodableMethod(m)
      invariant buf.Content() == c + EncList(ms[..i], EncMethod)
      invariant Fits(|c|, EncList(ms[..i], EncMethod))
    {
      ListGrows(ms, EncMethod, i);
      assert ms[i] in ms && ms[..i + 1] == ms[..i] + [ms[i]];
      ok := WriteMethod(buf, ms[i]);
      if !ok { return; }
      assert c + EncList(ms[..i], EncMethod) + EncMethod(ms[i]) == c + (EncList(ms[..i], EncMethod) + EncMethod(ms[i]));
    }
    assert ms[..|ms|] == ms;
    ok := true;
  }

  lemma {:induction false} ListGrows<T>(xs: seq<T>, enc: T -> Bytes, i: nat)
    requires i < |xs|
    ensures EncList(xs[..i + 1], enc) == EncList(xs[..i], enc) + enc(xs[i])
    ensures |EncList(xs[..i], enc)| + |enc(xs[i])| <= |EncList(xs, enc)|
    decreases |xs|
  {
    assert xs[..i + 1][..i] == xs[..i];
    if i + 1 < |xs| {
      var front := xs[..|xs| - 1];
      ListGrows(front, enc, i);
      assert front[..i] == xs[..i] && front[..i + 1] == xs[..i + 1];
    } else {
      assert xs[..i + 1] == xs;
    }
  }

  /** serializeInterfaceInfo. */
  method WriteInterface(buf: Buffer, info: InterfaceInfo) returns (ok: bool)
    requires buf.Valid()
    modifies buf, buf.data
    ensures buf.Valid() && (buf.data == old(buf.data) || fresh(buf.data))
    ensures ok <==> !old(buf.failed) && EncodableInterface(info) && Fits(old(buf.writePos), EncInterface(info))
    ensures ok ==> !buf.failed && buf.Content() == old(buf.Content()) + EncInterface(info)
  {
    hide Le32;
    hide Le16;
    hide EncString;
    hide EncList;
    hide EncodableMethod;
    hide IsCapacity;
    ghost var c := buf.Content();
    ok := buf.WriteUint32(info.id);
    if !ok { return; }
    ok := buf.WriteString(info.name);
    if !ok { return; }
    if |info.methods| > MAX_COUNT { return false; }
    ok := buf.WriteUint16(|info.methods|);
    if !ok { return; }
    ok := WriteMethods(buf, info.methods);
    FourParts(c, Le32(info.id), EncString(info.name), Le16(|info.methods|), EncList(info.methods, EncMethod));
  }

  /** The loop over interfaces. */
  method WriteInterfaces(buf: Buffer, infos: seq<InterfaceInfo>) returns (ok: bool)
    requires buf.Valid() && !buf.failed
    modifies buf, buf.data
    ensures buf.Valid() && (buf.data == old(buf.data) || fresh(buf.data))
    ensures ok <==>
            (forall i :: i in infos ==> EncodableInterface(i)) && Fits(old(buf.writePos), EncList(infos, EncInterface))
    ensures ok ==> !buf.failed && buf.Content() == old(buf.Content()) + EncList(infos, EncInterface)
  {
    hide IsCapacity;
    hide EncInterface;
    hide EncodableInterface;
    ghost var c := buf.Content();
    assert c + [] == c;
    for i := 0 to |infos|
      invariant buf.Valid() && !buf.failed && (buf.data == old(buf.data) || fresh(buf.data))
      invariant forall x :: x in infos[..i] ==> EncodableInterface(x)
      invariant buf.Content() == c + EncList(infos[..i], EncInterface)
      invariant Fits(|c|, EncList(infos[..i], EncInterface))
    {
      ListGrows(infos, EncInterface, i);
      assert infos[i] in infos && infos[..i + 1] == infos[..i] + [infos[i]];
      ok := WriteInterface(buf, infos[i]);
      if !ok { return; }
      assert c + EncList(infos[..i], EncInterface) + EncInterface(infos[i])
          == c + (EncList(infos[..i], EncInterface) + EncInterface(infos[i]));
    }
    assert infos[..|infos|] == infos;
    ok := true;
  }

  /** The second half of serializeServiceInfo: capacities and interfaces. */
  method WriteOffer(buf: Buffer, info: ServiceInfo) returns (ok: bool)
    requires buf.Valid()
    modifies buf, buf.data
    ensures buf.Valid() && (buf.data == old(buf.data) || fresh(buf.data))
    ensures ok <==> !old(buf.failed) && EncodableOffer(info) && Fits(old(buf.writePos), EncOffer(info))
    ensures ok ==> !buf.failed && buf.Content() == old(buf.Content()) + EncOffer(info)
  {
    hide Le32;
    hide Le16;
    hide EncList;
    hide EncodableInterface;
    hide IsCapacity;
    ghost var c := buf.Content();
    ok := buf.WriteUint32(info.reqCapacity % U32_MOD);
    if !ok { return; }
    ok := buf.WriteUint32(info.respCapacity % U32_MOD);
    if !ok { return; }
    if |info.interfaces| > MAX_COUNT { return false; }
    ok := buf.WriteUint16(|info.interfaces|);
    if !ok { return; }
    ok := WriteInterfaces(buf, info.interfaces);
    FourParts(c, Le32(info.reqCapacity % U32_MOD), Le32(info.respCapacity % U32_MOD), Le16(|info.interfaces|),
              EncList(info.interfaces, EncInterface));
  }

  predicate EncodableOffer(info: ServiceInfo) {
    |info.interfaces| <= MAX_COUNT && forall i :: i in info.interfaces ==> EncodableInterface(i)
  }

  /** serializeServiceInfo: it succeeds exactly on encodable descriptions that
      fit, and then appends exactly the encoding the readers undo. */
  method SerializeServiceInfo(buf: Buffer, info: ServiceInfo) returns (ok: bool)
    requires buf.Valid()
    modifies buf, buf.data
    ensures buf.Valid() && (buf.data == old(buf.data) || fresh(buf.data))
    ensures ok <==> !old(buf.failed) && Encodable(info) && Fits(old(buf.writePos), EncService(info))
    ensures ok ==> !buf.failed && buf.Content() == old(buf.Content()) + EncService(info)
  {
    hide Le16;
    hide EncString;
    hide EncOffer;
    hide EncodableInterface;
    hide IsCapacity;
    ghost var c := buf.Content();
    ok := buf.WriteString(info.name);
    if !ok { return; }
    ok := buf.WriteString(info.host);
    if !ok { return; }
    ok := buf.WriteUint16(info.port);
    if !ok { return; }
    ok := buf.WriteString(info.hostId);
    if !ok { return; }
    ok := buf.WriteString(info.inst);
    if !ok { return; }
    ok := WriteOffer(buf, info);
    ghost var end := EncString(info.hostId) + (EncString(info.inst) + EncOffer(info));
    FourParts(c, EncString(info.name), EncString(info.host), Le16(info.port), end);
    FourParts(c + EncString(info.name) + EncString(info.host) + Le16(info.port), EncString(info.hostId),
              EncString(info.inst), EncOffer(info), []);
    assert EncOffer(info) + [] == EncOffer(info);
  }
}

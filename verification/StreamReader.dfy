/** Reassembly of messages from a byte stream (src/core/message_reader.cpp, the
    byte-stream branch of readNextMessage, and the read loop of
    service_manager_app.cpp onClientReadable).

    The transport may hand over the stream in any pieces.  A session records
    the bytes received, the bytes already turned into messages and the messages
    delivered; what it delivers depends on the bytes alone.
  */
module StreamReader {
  import opened Base
  import opened Frames
  import opened ByteBuffer

  /** The receiving side of a TCP connection.  How many bytes a call yields,
      and whether the connection has broken, is up to the network. */
  class StreamTransport {
    var incoming: Bytes
    var broken: bool
    ghost var received: Bytes

    constructor (stream: Bytes)
      ensures incoming == stream && received == [] && !broken
    {
      incoming, broken := stream, false;
      received := [];
    }

    /** Positive: that many bytes.  Zero: nothing yet.  Negative: error or end. */
    method Recv(space: nat) returns (ret: int, chunk: Bytes)
      requires space >= 1
      modifies this
      ensures ret == |chunk| || (ret == -1 && chunk == [])
      ensures |chunk| <= space
      ensures chunk + incoming == old(incoming) && received == old(received) + chunk
      ensures broken == (old(broken) || ret < 0)
    {
      var n: int := *;
      if n < 0 {
        broken := true;
        return -1, [];
      }
      var k := if n < space then n else space;
      k := if k < |incoming| then k else |incoming|;
      ret, chunk := k, incoming[..k];
      incoming := incoming[k..];
      received := received + chunk;
    }
  }

  /** State of a receive buffer between two calls of the reader: nothing read
      but not compacted, and a capacity that is 0 or 4096 * 2^k, at most 2^24. */
  ghost predicate Ready(buf: Buffer)
    reads buf
  {
    buf.Valid() && buf.readPos == 0 && !buf.failed && buf.data.Length <= MAX_MESSAGE_SIZE
  }

  /** A full buffer of the largest capacity never waits for more. */
  lemma FullBufferIsDecided(s: Bytes)
    requires |s| >= MAX_MESSAGE_SIZE
    ensures !TryExtract(s).NeedMore?
  {
  }

  /** While a frame is incomplete, the buffer can take another byte without
      its capacity ever passing the frame limit. */
  lemma RoomBelowLimit(buf: Buffer, avail: Bytes)
    requires Ready(buf) && |avail| == buf.writePos
    requires TryExtract(avail).NeedMore?
    ensures buf.writePos < MAX_MESSAGE_SIZE
    ensures buf.writePos == buf.data.Length ==> Buffer.FirstStep(buf.data.Length) <= MAX_MESSAGE_SIZE
  {
    if |avail| >= MAX_MESSAGE_SIZE { FullBufferIsDecided(avail); }
    var c := buf.data.Length;
    CapacityLimits();
    if c != 0 && c < MAX_MESSAGE_SIZE { DoublingStep(c, MAX_MESSAGE_SIZE); }
  }

  /** The tail of the reader's loop: receive straight into the buffer.  The
      oversize test never fires: the bytes held never exceed the capacity,
      and the capacity never exceeds the frame limit. */
  method Fill(t: StreamTransport, buf: Buffer) returns (ret: int)
    requires Ready(buf) && TryExtract(buf.Unread()).NeedMore?
    modifies t, buf, buf.data
    ensures Ready(buf) && (buf.data == old(buf.data) || fresh(buf.data))
    ensures old(t.received) <= t.received
    ensures t.received + t.incoming == old(t.received + t.incoming)
    ensures buf.Unread() == old(buf.Unread()) + t.received[|old(t.received)|..]
    ensures |t.received| == |old(t.received)| + (if ret > 0 then ret else 0)
    ensures ret >= -1 && t.broken == (old(t.broken) || ret < 0)
  {
    hide TryExtract;
    hide IsDoubling;
    RoomBelowLimit(buf, buf.Unread());
    var space := buf.WritableTail();
    ghost var content := buf.Content();
    assert content == old(buf.Unread());
    var chunk;
    ret, chunk := t.Recv(space.value);
    assert t.received[|old(t.received)|..] == chunk;
    if ret <= 0 {
      assert buf.Unread() == content;
      return;
    }
    if buf.writePos - buf.readPos + ret > MAX_MESSAGE_SIZE {
      assert false;
    }
    forall i | 0 <= i < ret {
      buf.data[buf.writePos + i] := chunk[i];
    }
    var committed := buf.CommitWritten(ret);
    assert committed;
    assert buf.Unread() == content + chunk;
  }

  /** What one call of the reader does with the bytes it had and received. */
  ghost predicate ReadStep(avail: Bytes, ret: int, msg: Option<Message>, left: Bytes, broken: bool) {
    match TryExtract(avail)
    case Complete(h, n) =>
      ret == 1 && msg == Some(Message(h, avail[MESSAGE_HEADER_SIZE..n])) && left == avail[n..]
    case Corrupt =>
      ret == -1 && msg.None? && left == avail
    case NeedMore =>
      (ret == 0 || (ret == -1 && broken)) && msg.None? && left == avail
  }

  /** readNextMessage.  1: one message.  0: no complete message yet.
      -1: the front header is invalid, or the transport broke. */
  method ReadNextMessage(t: StreamTransport, buf: Buffer) returns (ret: int, msg: Option<Message>)
    requires Ready(buf)
    modifies t, buf, buf.data
    ensures Ready(buf) && (buf.data == old(buf.data) || fresh(buf.data))
    ensures old(t.received) <= t.received
    ensures t.received + t.incoming == old(t.received + t.incoming)
    ensures old(t.broken) ==> t.broken
    ensures ReadStep(old(buf.Unread()) + t.received[|old(t.received)|..], ret, msg, buf.Unread(), t.broken)
  {
    hide TryExtract;
    hide IsDoubling;
    ghost var unread0, received0, all := buf.Unread(), t.received, t.received + t.incoming;
    assert unread0 == unread0 + t.received[|received0|..];
    while true
      invariant Ready(buf) && (buf.data == old(buf.data) || fresh(buf.data))
      invariant received0 <= t.received && t.received + t.incoming == all
      invariant old(t.broken) ==> t.broken
      invariant buf.Unread() == unread0 + t.received[|received0|..]
      decreases |t.incoming|
    {
      var avail := buf.data[buf.readPos..buf.writePos];
      match TryExtract(avail) {
        case Complete(h, n) =>
          msg := Some(Message(h, avail[MESSAGE_HEADER_SIZE..n]));
          var moved := buf.TrySetReadPosition(buf.readPos + n);
          assert buf.Unread() == avail[n..];
          buf.Compact();
          return 1, msg;
        case Corrupt =>
          return -1, None;
        case NeedMore =>
          ghost var before := t.received;
          ret := Fill(t, buf);
          assert t.received[|received0|..] == before[|received0|..] + t.received[|before|..];
          assert buf.Unread() == unread0 + t.received[|received0|..];
          if ret <= 0 {
            assert t.received[|before|..] == [];
            assert buf.Unread() == avail;
            return ret, None;
          }
      }
    }
  }

  /** Cutting off one frame at the front leaves just that frame's bytes. */
  lemma FrameAlone(avail: Bytes)
    requires TryExtract(avail).Complete?
    ensures var n := TryExtract(avail).size;
            CutStream(avail[..n]) ==
              Cut([Message(TryExtract(avail).header, avail[MESSAGE_HEADER_SIZE..n])], [], false)
  {
    var n := TryExtract(avail).size;
    var frame := avail[..n];
    assert TryExtract(frame) == TryExtract(avail) by {
      assert ParseHeader(frame) == ParseHeader(avail);
    }
    hide TryExtract;
    assert frame[n..] == [] && frame[MESSAGE_HEADER_SIZE..n] == avail[MESSAGE_HEADER_SIZE..n];
    NothingToCut();
  }

  /** Delivering one more message keeps the consumed bytes and the messages in step. */
  lemma DeliverOne(consumed: Bytes, delivered: seq<Message>, avail: Bytes)
    requires CutStream(consumed) == Cut(delivered, [], false)
    requires TryExtract(avail).Complete?
    ensures var n := TryExtract(avail).size;
            var m := Message(TryExtract(avail).header, avail[MESSAGE_HEADER_SIZE..n]);
            CutStream(consumed + avail[..n]) == Cut(delivered + [m], [], false)
  {
    hide TryExtract;
    hide CutStream;
    var n := TryExtract(avail).size;
    FrameAlone(avail);
    CutInTwo(consumed, avail[..n]);
    assert [] + avail[..n] == avail[..n];
  }

  /** What one reader step means for a session that was in step before it. */
  lemma StepKeepsPace(consumed: Bytes, delivered: seq<Message>, received: Bytes,
                      avail: Bytes, ret: int, msg: Option<Message>, left: Bytes, broken: bool)
    requires CutStream(consumed) == Cut(delivered, [], false) && received == consumed + avail
    requires ReadStep(avail, ret, msg, left, broken)
    ensures ret == 1 || ret == 0 || ret == -1
    ensures ret == 1 ==> msg.Some? && |left| < |avail|
    ensures ret == 1 ==> var frame := avail[..|avail| - |left|];
              && CutStream(consumed + frame) == Cut(delivered + [msg.value], [], false)
              && received == consumed + frame + left
    ensures ret != 1 ==> left == avail && !TryExtract(left).Complete?
    ensures ret == 0 ==> !TryExtract(left).Corrupt?
    ensures ret == -1 ==> TryExtract(left).Corrupt? || broken
  {
    hide TryExtract;
    hide CutStream;
    if ret == 1 {
      DeliverOne(consumed, delivered, avail);
      assert avail == avail[..TryExtract(avail).size] + left;
    }
  }

  lemma NothingToCut()
    ensures CutStream([]) == Cut([], [], false)
  {
  }

  /** A session that has read all complete messages has read what a one-shot
      parse of everything received would yield, however the bytes arrived. */
  lemma DrainedIsCut(consumed: Bytes, delivered: seq<Message>, unread: Bytes)
    requires CutStream(consumed) == Cut(delivered, [], false)
    requires !TryExtract(unread).Complete?
    ensures CutStream(consumed + unread) == Cut(delivered, unread, TryExtract(unread).Corrupt?)
  {
    hide TryExtract;
    CutInTwo(consumed, unread);
    assert [] + unread == unread;
  }

  /** One connection's receive side over its whole life. */
  class StreamSession {
    const transport: StreamTransport
    const buf: Buffer
    ghost var consumed: Bytes
    ghost var delivered: seq<Message>

    constructor (stream: Bytes)
      ensures Consistent() && fresh(transport) && fresh(buf) && fresh(buf.data)
      ensures delivered == [] && transport.received == [] && transport.incoming == stream
    {
      transport := new StreamTransport(stream);
      buf := new Buffer();
      consumed, delivered := [], [];
      NothingToCut();
    }

    ghost predicate Consistent()
      reads this, transport, buf, buf.data
    {
      && Ready(buf)
      && transport.received == consumed + buf.Unread()
      && CutStream(consumed) == Cut(delivered, [], false)
    }

    /** One call of the reader, recorded. */
    method ReadOne() returns (ret: int, msg: Option<Message>)
      requires Consistent()
      modifies this, transport, buf, buf.data
      ensures Consistent() && (buf.data == old(buf.data) || fresh(buf.data))
      ensures transport.received + transport.incoming == old(transport.received + transport.incoming)
      ensures delivered == old(delivered) + (if ret == 1 && msg.Some? then [msg.value] else [])
      ensures ret == 1 ==> msg.Some?
      ensures ret == 1 ==> |transport.incoming| + buf.writePos < old(|transport.incoming| + buf.writePos)
      ensures ret != 1 ==> !TryExtract(buf.Unread()).Complete?
      ensures ret == 1 || ret == 0 || ret == -1
      ensures ret == 0 ==> !TryExtract(buf.Unread()).Corrupt?
      ensures ret == -1 ==> TryExtract(buf.Unread()).Corrupt? || transport.broken
    {
      hide TryExtract;
      hide CutStream;
      hide ReadStep;
      hide IsDoubling;
      ghost var unread, received := buf.Unread(), transport.received;
      ret, msg := ReadNextMessage(transport, buf);
      ghost var avail := unread + transport.received[|received|..];
      ghost var left := buf.Unread();
      assert transport.received == received + transport.received[|received|..];
      assert transport.received == consumed + avail;
      StepKeepsPace(consumed, delivered, transport.received, avail, ret, msg, left, transport.broken);
      if ret == 1 {
        consumed := consumed + avail[..|avail| - |left|];
        delivered := delivered + [msg.value];
      }
    }

    /** The loop of onClientReadable: read messages until none is complete.
        Whatever pieces `Recv` chose, the messages delivered over the whole
        life of the session are those of the one-shot parse of all bytes
        received, and the buffer holds exactly the bytes that parse leaves. */
    method OnReadable() returns (messages: seq<Message>, ret: int)
      requires Consistent()
      modifies this, transport, buf, buf.data
      ensures Consistent() && (buf.data == old(buf.data) || fresh(buf.data))
      ensures delivered == old(delivered) + messages
      ensures transport.received + transport.incoming == old(transport.received + transport.incoming)
      ensures CutStream(transport.received) == Cut(delivered, buf.Unread(), TryExtract(buf.Unread()).Corrupt?)
      ensures ret == 0 || ret == -1
      ensures ret == 0 ==> !CutStream(transport.received).corrupt
      ensures ret == -1 ==> CutStream(transport.received).corrupt || transport.broken
    {
      hide TryExtract;
      hide CutStream;
      hide IsDoubling;
      messages := [];
      while true
        invariant Consistent() && (buf.data == old(buf.data) || fresh(buf.data))
        invariant delivered == old(delivered) + messages
        invariant transport.received + transport.incoming == old(transport.received + transport.incoming)
        decreases |transport.incoming| + buf.writePos
      {
        var msg;
        ret, msg := ReadOne();
        if ret != 1 {
          DrainedIsCut(consumed, delivered, buf.Unread());
          return;
        }
        messages := messages + [msg.value];
      }
    }
  }
}

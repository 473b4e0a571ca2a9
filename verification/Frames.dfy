/** Message frames: the 16-byte header, frame extraction, and the one-shot
    parse of a byte stream that the incremental reader is measured against
    (src/core/message.cpp).
  */
module Frames {
  import opened Base
  import opened Wire

  /** MessageHeader; every field is present on the wire. */
  datatype Header = Header(magic: u32, version: u16, mtype: u16, sequence: u32, length: u32)

  /** A received message: its header and its payload bytes. */
  datatype Message = Message(header: Header, payload: Bytes)

  function HeaderBytes(h: Header): (r: Bytes)
    ensures |r| == MESSAGE_HEADER_SIZE
  {
    Le32(h.magic) + Le16(h.version) + Le16(h.mtype) + Le32(h.sequence) + Le32(h.length)
  }

  /** Message::parseHeader, which reads the fields at their fixed offsets. */
  function ParseHeader(s: Bytes): Header
    requires MESSAGE_HEADER_SIZE <= |s|
  {
    Header(Un32(s[0], s[1], s[2], s[3]), Un16(s[4], s[5]), Un16(s[6], s[7]),
           Un32(s[8], s[9], s[10], s[11]), Un32(s[12], s[13], s[14], s[15]))
  }

  /** Message::validateHeader: the magic and the length are checked, the version is not. */
  predicate ValidHeader(h: Header) {
    h.magic == OMNI_MAGIC && h.length <= MAX_MESSAGE_SIZE - MESSAGE_HEADER_SIZE
  }

  lemma ParseHeaderBytes(h: Header, tail: Bytes)
    ensures ParseHeader(HeaderBytes(h) + tail) == h
  {
    Un32Le32(h.magic);
    Un32Le32(h.sequence);
    Un32Le32(h.length);
  }

  // ---- Sending -------------------------------------------------------------

  /** The payload leaves room for the header within the frame limit. */
  predicate FitsFrame(payload: Bytes) {
    |payload| <= MAX_MESSAGE_SIZE - MESSAGE_HEADER_SIZE
  }

  /** Message::serialize: the length field is taken from the payload. */
  function Serialize(h: Header, payload: Bytes): (r: Bytes)
    requires FitsFrame(payload)
    ensures |r| == MESSAGE_HEADER_SIZE + |payload|
  {
    HeaderBytes(h.(length := |payload|)) + payload
  }

  // ---- Extracting one frame ------------------------------------------------

  datatype FrameStatus = NeedMore | Corrupt | Complete(header: Header, size: nat)

  /** tryExtractFrame, on the bytes available at the cursor. */
  function TryExtract(s: Bytes): (r: FrameStatus)
    ensures r.Complete? ==> MESSAGE_HEADER_SIZE <= r.size <= |s| && r.size <= MAX_MESSAGE_SIZE
  {
    if |s| < MESSAGE_HEADER_SIZE then NeedMore
    else
      var h := ParseHeader(s);
      if !ValidHeader(h) then Corrupt
      else if |s| < MESSAGE_HEADER_SIZE + h.length then NeedMore
      else Complete(h, MESSAGE_HEADER_SIZE + h.length)
  }

  /** What a frame extraction decided is not changed by bytes that arrive later. */
  lemma ExtractStable(s: Bytes, more: Bytes)
    requires !TryExtract(s).NeedMore?
    ensures TryExtract(s + more) == TryExtract(s)
  {
    assert ParseHeader(s + more) == ParseHeader(s);
  }

  /** A serialized frame followed by anything extracts as itself; each of its
      strict prefixes only asks for more. */
  lemma SerializedExtracts(h: Header, payload: Bytes, tail: Bytes, k: nat)
    requires h.magic == OMNI_MAGIC && FitsFrame(payload)
    requires k < |Serialize(h, payload)|
    ensures var frame := Serialize(h, payload);
            && TryExtract(frame + tail) == Complete(h.(length := |payload|), |frame|)
            && (frame + tail)[MESSAGE_HEADER_SIZE..|frame|] == payload
            && TryExtract(frame[..k]) == NeedMore
  {
    var frame := Serialize(h, payload);
    var h' := h.(length := |payload|);
    assert frame + tail == HeaderBytes(h') + (payload + tail);
    ParseHeaderBytes(h', payload + tail);
    if MESSAGE_HEADER_SIZE <= k {
      assert frame[..k] == HeaderBytes(h') + payload[..k - MESSAGE_HEADER_SIZE];
      ParseHeaderBytes(h', payload[..k - MESSAGE_HEADER_SIZE]);
    }
  }

  // ---- The one-shot parse --------------------------------------------------

  /** A whole stream cut into messages: the messages, the bytes left over, and
      whether the left-over bytes begin with an invalid header. */
  datatype Cut = Cut(messages: seq<Message>, rest: Bytes, corrupt: bool)

  function CutStream(s: Bytes): Cut {
    match TryExtract(s)
    case NeedMore => Cut([], s, false)
    case Corrupt => Cut([], s, true)
    case Complete(h, n) =>
      var c := CutStream(s[n..]);
      c.(messages := [Message(h, s[MESSAGE_HEADER_SIZE..n])] + c.messages)
  }

  /** The messages of a cut put in front of another cut. */
  function After(ms: seq<Message>, c: Cut): Cut {
    c.(messages := ms + c.messages)
  }

  /** The left-over bytes of a cut hold no complete frame. */
  lemma {:induction false} CutRest(s: Bytes)
    ensures CutStream(s).corrupt <==> TryExtract(CutStream(s).rest).Corrupt?
    ensures !CutStream(s).corrupt <==> TryExtract(CutStream(s).rest).NeedMore?
    decreases |s|
  {
    hide TryExtract;
    match TryExtract(s)
    case NeedMore =>
    case Corrupt =>
    case Complete(_, n) => CutRest(s[n..]);
  }

  lemma CutUnfolds(s: Bytes)
    ensures TryExtract(s).NeedMore? ==> CutStream(s) == Cut([], s, false)
    ensures TryExtract(s).Corrupt? ==> CutStream(s) == Cut([], s, true)
    ensures TryExtract(s).Complete? ==>
              CutStream(s) == After([FirstOf(s)], CutStream(s[TryExtract(s).size..]))
  {
    hide TryExtract;
  }

  /** The message a stream begins with. */
  function FirstOf(s: Bytes): Message
    requires TryExtract(s).Complete?
  {
    Message(TryExtract(s).header, s[MESSAGE_HEADER_SIZE..TryExtract(s).size])
  }

  lemma AfterTwice(a: seq<Message>, b: seq<Message>, c: Cut)
    ensures After(a, After(b, c)) == After(a + b, c) && After([], c) == c
  {
    assert a + (b + c.messages) == a + b + c.messages;
    assert [] + c.messages == c.messages;
  }

  /** Cutting what has arrived, and later the rest of it followed by new bytes,
      is the same as cutting everything at once. */
  lemma {:induction false} CutInTwo(s: Bytes, more: Bytes)
    requires !CutStream(s).corrupt
    ensures CutStream(s + more) == After(CutStream(s).messages, CutStream(CutStream(s).rest + more))
    decreases |s|
  {
    hide TryExtract;
    hide CutStream;
    CutUnfolds(s);
    if TryExtract(s).Complete? {
      var n := TryExtract(s).size;
      ExtractStable(s, more);
      CutUnfolds(s + more);
      CutInTwo(s[n..], more);
      var rest := CutStream(s[n..]);
      assert (s + more)[n..] == s[n..] + more;
      assert (s + more)[MESSAGE_HEADER_SIZE..n] == s[MESSAGE_HEADER_SIZE..n];
      AfterTwice([FirstOf(s)], rest.messages, CutStream(rest.rest + more));
    } else {
      AfterTwice([], [], CutStream(s + more));
    }
  }

  /** A stream found corrupt stays corrupt, whatever follows. */
  lemma {:induction false} CorruptStays(s: Bytes, more: Bytes)
    requires CutStream(s).corrupt
    ensures CutStream(s + more).corrupt
    decreases |s|
  {
    hide TryExtract;
    ExtractStable(s, more);
    if TryExtract(s).Complete? {
      var n := TryExtract(s).size;
      CorruptStays(s[n..], more);
      assert (s + more)[n..] == s[n..] + more;
    }
  }

  // ---- A stream of serialized messages --------------------------------------

  /** The bytes of a list of frames, in order. */
  function Stream(frames: seq<Bytes>): Bytes {
    if frames == [] then [] else Stream(frames[..|frames| - 1]) + frames[|frames| - 1]
  }

  lemma {:induction false} StreamAppend(frames: seq<Bytes>, frame: Bytes)
    ensures Stream(frames + [frame]) == Stream(frames) + frame
  {
    assert (frames + [frame])[..|frames|] == frames;
  }

  lemma {:induction false} StreamFirst(frames: seq<Bytes>)
    requires frames != []
    ensures Stream(frames) == frames[0] + Stream(frames[1..])
  {
    var n := |frames| - 1;
    if n > 0 {
      StreamFirst(frames[..n]);
      assert frames[1..][..n - 1] == frames[..n][1..];
    } else {
      assert frames[..n] == [] && frames[1..] == [];
    }
  }

  /** `frame` is what some sender's `serialize` produced, read back as `m`. */
  predicate FrameOf(frame: Bytes, m: Message) {
    && m.header.magic == OMNI_MAGIC
    && FitsFrame(m.payload)
    && m.header.length == |m.payload|
    && frame == Serialize(m.header, m.payload)
  }

  /** A stream of serialized messages is cut back into exactly these messages. */
  lemma {:induction false} CutSerialized(frames: seq<Bytes>, messages: seq<Message>)
    requires |frames| == |messages|
    requires forall i :: 0 <= i < |frames| ==> FrameOf(frames[i], messages[i])
    ensures CutStream(Stream(frames)) == Cut(messages, [], false)
  {
    if frames != [] {
      hide TryExtract;
      var m, tail := messages[0], Stream(frames[1..]);
      StreamFirst(frames);
      SerializedExtracts(m.header, m.payload, tail, 0);
      assert (frames[0] + tail)[|frames[0]|..] == tail;
      CutSerialized(frames[1..], messages[1..]);
    }
  }
}

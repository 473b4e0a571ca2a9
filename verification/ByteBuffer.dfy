/** The growable byte buffer of src/core/buffer.cpp: one raw array with a read
    and a write cursor, a capacity that doubles, and a sticky failure flag.
  */
module ByteBuffer {
  import opened Base
  import opened Wire
  import opened Frames

  const SIZE_MAX: nat := 0xFFFF_FFFF_FFFF_FFFF

  /** Largest capacity that doubling from 4096 can reach. */
  const MAX_CAPACITY: nat := 0x8000_0000_0000_0000

  /** 4096, 8192, 16384, ... */
  predicate IsDoubling(c: nat) {
    c == DEFAULT_BUFFER_SIZE || (c > DEFAULT_BUFFER_SIZE && c % 2 == 0 && IsDoubling(c / 2))
  }

  predicate IsCapacity(c: nat) {
    c == 0 || IsDoubling(c)
  }

  /** The doublings double: between two of them there is a factor of two. */
  lemma {:induction false} DoublingStep(c: nat, d: nat)
    requires IsDoubling(c) && IsDoubling(d) && c < d
    ensures 2 * c <= d
  {
    if c > DEFAULT_BUFFER_SIZE {
      DoublingStep(c / 2, d / 2);
    } else if d / 2 > DEFAULT_BUFFER_SIZE {
      DoublingStep(c, d / 2);
    }
  }

  lemma DefaultIsDoubling()
    ensures IsDoubling(DEFAULT_BUFFER_SIZE)
  {
  }

  lemma DoublingDoubles(c: nat)
    requires IsDoubling(c)
    ensures IsDoubling(2 * c) && c >= DEFAULT_BUFFER_SIZE
  {
    assert 2 * c / 2 == c;
  }

  /** A doubling above half of size_t is the largest one. */
  lemma DoublingLimit(c: nat)
    requires IsDoubling(c) && SIZE_MAX / 2 < c <= MAX_CAPACITY
    ensures c == MAX_CAPACITY
  {
    CapacityLimits();
    if c < MAX_CAPACITY { DoublingStep(c, MAX_CAPACITY); }
  }

  /** 4096 times a power of two is a doubling. */
  lemma {:induction false} DoublingPowers(k: nat, c: nat)
    requires c == DEFAULT_BUFFER_SIZE * Pow2(k)
    ensures IsDoubling(c)
  {
    if k > 0 {
      assert c / 2 == DEFAULT_BUFFER_SIZE * Pow2(k - 1);
      Pow2Positive(k);
      DoublingPowers(k - 1, c / 2);
    }
  }

  function Pow2(k: nat): nat {
    if k == 0 then 1 else 2 * Pow2(k - 1)
  }

  lemma {:induction false} Pow2Positive(k: nat)
    ensures Pow2(k) >= 1
    ensures k > 0 ==> Pow2(k) >= 2
  {
    if k > 0 { Pow2Positive(k - 1); }
  }

  lemma CapacityLimits()
    ensures IsDoubling(MAX_MESSAGE_SIZE) && IsDoubling(MAX_CAPACITY)
  {
    var p8, p12 := Pow2(8), Pow2(12);
    assert p8 == 256 && p12 == 4096 by {
      assert Pow2(4) == 16;
      assert Pow2(8) == 16 * Pow2(4);
      assert Pow2(12) == 16 * Pow2(8);
    }
    DoublingPowers(12, MAX_MESSAGE_SIZE);
    Pow2Of51();
    DoublingPowers(51, MAX_CAPACITY);
  }

  lemma Pow2Of51()
    ensures Pow2(51) == 0x8_0000_0000_0000
  {
    assert Pow2(3) == 8;
    assert Pow2(7) == 16 * Pow2(3);
    assert Pow2(11) == 16 * Pow2(7);
    assert Pow2(15) == 16 * Pow2(11);
    assert Pow2(19) == 16 * Pow2(15);
    assert Pow2(23) == 16 * Pow2(19);
    assert Pow2(27) == 16 * Pow2(23);
    assert Pow2(31) == 16 * Pow2(27);
    assert Pow2(35) == 16 * Pow2(31);
    assert Pow2(39) == 16 * Pow2(35);
    assert Pow2(43) == 16 * Pow2(39);
    assert Pow2(47) == 16 * Pow2(43);
    assert Pow2(51) == 16 * Pow2(47);
  }

  class Buffer {
    var data: array<byte>
    var writePos: nat
    var readPos: nat
    var failed: bool

    ghost predicate Valid()
      reads this
    {
      && readPos <= writePos <= data.Length
      && IsCapacity(data.Length)
      && data.Length <= MAX_CAPACITY
    }

    /** Everything written and not cleared. */
    ghost function Content(): (r: Bytes)
      reads this, data
      requires writePos <= data.Length
      ensures |r| == writePos
    {
      data[..writePos]
    }

    /** What a reader has not consumed yet. */
    ghost function Unread(): (r: Bytes)
      reads this, data
      requires readPos <= writePos <= data.Length
      ensures |r| == writePos - readPos
    {
      data[readPos..writePos]
    }

    constructor ()
      ensures Valid() && fresh(data)
      ensures Content() == [] && readPos == 0 && !failed && data.Length == 0
    {
      data := new byte[0];
      writePos, readPos, failed := 0, 0, false;
    }

    /** The first capacity `grow` considers. */
    static function FirstStep(current: nat): nat {
      if current == 0 then DEFAULT_BUFFER_SIZE else current * 2
    }

    /** Below the largest capacity, the first step is a capacity too. */
    static lemma FirstStepFits(current: nat)
      requires IsCapacity(current) && current < MAX_CAPACITY
      ensures current < FirstStep(current) <= MAX_CAPACITY
    {
      CapacityLimits();
      if current != 0 { DoublingStep(current, MAX_CAPACITY); }
    }

    /** The doubling loop of `grow`: a doubling above `current` that holds
        `minCapacity` and wastes at most half, or None if no size_t does. */
    static method NextCapacity(current: nat, minCapacity: nat) returns (r: Option<nat>)
      requires IsCapacity(current) && current <= MAX_CAPACITY
      ensures r.None? <==> current == MAX_CAPACITY || minCapacity > MAX_CAPACITY
      ensures r.Some? ==> IsDoubling(r.value) && minCapacity <= r.value <= MAX_CAPACITY
      ensures r.Some? ==> if minCapacity <= FirstStep(current) then r.value == FirstStep(current)
                          else r.value < 2 * minCapacity
    {
      hide IsDoubling;
      CapacityLimits();
      if current > SIZE_MAX / 2 {
        DoublingLimit(current);
        return None;
      }
      DefaultIsDoubling();
      if current != 0 {
        DoublingDoubles(current);
        DoublingStep(current, MAX_CAPACITY);
      }
      var newCapacity := FirstStep(current);
      while newCapacity < minCapacity
        invariant IsDoubling(newCapacity) && newCapacity <= MAX_CAPACITY
        invariant newCapacity == FirstStep(current) || FirstStep(current) < newCapacity < 2 * minCapacity
        invariant minCapacity <= FirstStep(current) ==> newCapacity == FirstStep(current)
        decreases MAX_CAPACITY - newCapacity
      {
        if newCapacity > SIZE_MAX / 2 {
          DoublingLimit(newCapacity);
          return None;
        }
        DoublingStep(newCapacity, MAX_CAPACITY);
        DoublingDoubles(newCapacity);
        newCapacity := newCapacity * 2;
      }
      r := Some(newCapacity);
    }

    /** Keeps the content in a larger array, or marks the buffer failed. */
    method Grow(minCapacity: nat)
      requires Valid()
      modifies this
      ensures Valid() && readPos == old(readPos) && writePos == old(writePos)
      ensures Content() == old(Content())
      ensures failed == (old(failed) || old(data.Length) == MAX_CAPACITY || minCapacity > MAX_CAPACITY)
      ensures if old(data.Length) == MAX_CAPACITY || minCapacity > MAX_CAPACITY then data == old(data)
              else fresh(data) && minCapacity <= data.Length
      ensures data != old(data) ==> if minCapacity <= FirstStep(old(data.Length))
                                    then data.Length == FirstStep(old(data.Length))
                                    else data.Length < 2 * minCapacity
    {
      var next := NextCapacity(data.Length, minCapacity);
      if next.None? {
        failed := true;
        return;
      }
      var newData := new byte[next.value];
      forall i | 0 <= i < writePos {
        newData[i] := data[i];
      }
      data := newData;
      assert Content() == old(Content());
    }

    /** ensureCapacity: room for `additional` bytes after the write cursor. */
    method EnsureCapacity(additional: nat) returns (ok: bool)
      requires Valid()
      modifies this
      ensures Valid() && readPos == old(readPos) && writePos == old(writePos)
      ensures Content() == old(Content())
      ensures data == old(data) || fresh(data)
      ensures ok == !failed == (!old(failed) && writePos + additional <= MAX_CAPACITY)
      ensures ok ==> writePos + additional <= data.Length
    {
      hide IsDoubling;
      if failed { return false; }
      if additional > SIZE_MAX - writePos {
        failed := true;
        return false;
      }
      if writePos + additional > data.Length {
        Grow(writePos + additional);
      }
      ok := !failed;
    }

    method Reserve(newCapacity: nat)
      requires Valid()
      modifies this
      ensures Valid() && readPos == old(readPos) && writePos == old(writePos)
      ensures Content() == old(Content())
      ensures data == old(data) || fresh(data)
      ensures failed == (old(failed) || newCapacity > MAX_CAPACITY)
      ensures newCapacity <= MAX_CAPACITY ==> newCapacity <= data.Length
      ensures newCapacity <= old(data.Length) ==> data == old(data)
      ensures old(data.Length) < newCapacity <= FirstStep(old(data.Length)) <= MAX_CAPACITY ==>
                data.Length == FirstStep(old(data.Length))
    {
      hide IsDoubling;
      if newCapacity > data.Length {
        Grow(newCapacity);
      }
    }

    /** writeRaw: appends the bytes, or fails and appends nothing. */
    method WriteRaw(bytes: Bytes) returns (ok: bool)
      requires Valid()
      modifies this, data
      ensures Valid() && readPos == old(readPos) && (data == old(data) || fresh(data))
      ensures ok == (bytes == [] || (!old(failed) && old(writePos) + |bytes| <= MAX_CAPACITY))
      ensures failed == (old(failed) || !ok)
      ensures Content() == if ok then old(Content()) + bytes else old(Content())
    {
      hide IsDoubling;
      if |bytes| > 0 {
        ok := EnsureCapacity(|bytes|);
        if !ok { return; }
        forall i | 0 <= i < |bytes| {
          data[writePos + i] := bytes[i];
        }
        writePos := writePos + |bytes|;
        assert Content() == old(Content()) + bytes;
      }
      ok := true;
    }

    method WriteUint16(v: u16) returns (ok: bool)
      requires Valid()
      modifies this, data
      ensures Valid() && readPos == old(readPos) && (data == old(data) || fresh(data))
      ensures ok == !failed == (!old(failed) && old(writePos) + 2 <= MAX_CAPACITY)
      ensures Content() == if ok then old(Content()) + Le16(v) else old(Content())
    {
      hide IsDoubling;
      ok := EnsureCapacity(2);
      if !ok { return; }
      data[writePos], data[writePos + 1] := v % 0x100, v / 0x100;
      writePos := writePos + 2;
      assert Content() == old(Content()) + Le16(v);
    }

    method WriteUint32(v: u32) returns (ok: bool)
      requires Valid()
      modifies this, data
      ensures Valid() && readPos == old(readPos) && (data == old(data) || fresh(data))
      ensures ok == !failed == (!old(failed) && old(writePos) + 4 <= MAX_CAPACITY)
      ensures Content() == if ok then old(Content()) + Le32(v) else old(Content())
    {
      hide IsDoubling;
      ok := EnsureCapacity(4);
      if !ok { return; }
      data[writePos], data[writePos + 1] := v % 0x100, v / 0x100 % 0x100;
      data[writePos + 2], data[writePos + 3] := v / 0x1_0000 % 0x100, v / 0x100_0000;
      writePos := writePos + 4;
      assert Content() == old(Content()) + Le32(v);
    }

    /** writeString: length prefix and bytes together, or nothing. */
    method WriteString(s: Str) returns (ok: bool)
      requires Valid()
      modifies this, data
      ensures Valid() && readPos == old(readPos) && (data == old(data) || fresh(data))
      ensures ok == !failed == (!old(failed) && |s| <= MAX_STRING && old(writePos) + 4 + |s| <= MAX_CAPACITY)
      ensures Content() == if ok then old(Content()) + EncString(s) else old(Content())
    {
      hide IsDoubling;
      if |s| > MAX_STRING {
        failed := true;
        return false;
      }
      ok := EnsureCapacity(4 + |s|);
      if !ok { return; }
      ok := WriteUint32(|s|);
      assert ok;
      if |s| > 0 {
        ok := WriteRaw(s);
        assert ok;
      }
      assert Content() == old(Content()) + Le32(|s|) + s;
      assert Content() == old(Content()) + (Le32(|s|) + s);
    }

    method Clear()
      requires Valid()
      modifies this
      ensures Valid() && data == old(data) && Content() == [] && readPos == 0 && !failed
    {
      writePos, readPos, failed := 0, 0, false;
    }

    /** assign: the content becomes the given bytes, unless they exceed every capacity. */
    method Assign(bytes: Bytes)
      requires Valid()
      modifies this, data
      ensures Valid() && readPos == 0 && (data == old(data) || fresh(data))
      ensures failed == (|bytes| > MAX_CAPACITY)
      ensures Content() == if failed then [] else bytes
    {
      hide IsDoubling;
      Clear();
      if |bytes| > 0 {
        Reserve(|bytes|);
        if failed { return; }
        forall i | 0 <= i < |bytes| {
          data[i] := bytes[i];
        }
        writePos := |bytes|;
        assert Content() == bytes;
      }
    }

    method TrySetReadPosition(pos: nat) returns (ok: bool)
      requires Valid()
      modifies this`readPos
      ensures Valid()
      ensures ok == (pos <= writePos)
      ensures readPos == if ok then pos else old(readPos)
    {
      if pos > writePos { return false; }
      readPos := pos;
      ok := true;
    }

    /** setWritePosition: ignored if it would move before the read cursor. */
    method SetWritePosition(pos: nat)
      requires Valid()
      modifies this
      ensures Valid() && readPos == old(readPos) && (data == old(data) || fresh(data))
      ensures pos <= old(data.Length) ==> data == old(data)
      ensures failed == (old(failed) || (readPos <= pos && pos > MAX_CAPACITY))
      ensures writePos == if readPos <= pos && (pos <= old(data.Length) || !failed) then pos else old(writePos)
      ensures old(Content()) <= Content() || Content() <= old(Content())
    {
      hide IsDoubling;
      if pos < readPos { return; }
      if pos > data.Length {
        Reserve(pos);
        if failed { return; }
      }
      writePos := pos;
    }

    /** compact: moves the unread bytes to the front of the same array. */
    method Compact()
      requires Valid()
      modifies this, data
      ensures Valid() && data == old(data) && failed == old(failed)
      ensures readPos == 0 && Unread() == Content() == old(Unread())
    {
      hide IsDoubling;
      var remaining := writePos - readPos;
      if remaining > 0 && readPos > 0 {
        var r := readPos;
        forall i | 0 <= i < remaining {
          data[i] := data[r + i];
        }
      }
      writePos, readPos := remaining, 0;
      assert Unread() == old(Unread());
    }

    /** writableTail: makes room for at least one byte after the write cursor.
        None stands for the NULL pointer. */
    method WritableTail() returns (space: Option<nat>)
      requires Valid()
      modifies this
      ensures Valid() && readPos == old(readPos) && writePos == old(writePos)
      ensures Content() == old(Content())
      ensures data == old(data) || fresh(data)
      ensures space.None? <==> old(failed) || old(writePos) == MAX_CAPACITY
      ensures space.Some? ==> !failed && space.value == data.Length - writePos >= 1
      ensures space.Some? ==> data.Length == if old(writePos) == old(data.Length)
                                             then FirstStep(old(data.Length)) else old(data.Length)
    {
      if failed { return None; }
      if writePos == data.Length {
        if data.Length < MAX_CAPACITY { FirstStepFits(data.Length); }
        Reserve(writePos + 1);
        if failed { return None; }
      }
      space := Some(data.Length - writePos);
    }

    method CommitWritten(n: nat) returns (ok: bool)
      requires Valid()
      modifies this`writePos
      ensures Valid()
      ensures ok == (!failed && n <= data.Length - old(writePos))
      ensures writePos == if ok then old(writePos) + n else old(writePos)
    {
      hide IsDoubling;
      if failed || n > data.Length - writePos { return false; }
      writePos := writePos + n;
      ok := true;
    }

    /** Message::serializeInPlace on the payload buffer: moves the payload right
        by the header size within the one array and stores the header in front.
        The buffer then holds exactly what `serialize` would have produced. */
    method SerializeInPlace(h: Header) returns (ok: bool)
      requires Valid()
      modifies this, data
      ensures Valid() && (data == old(data) || fresh(data)) && failed == old(failed)
      ensures ok == FitsFrame(old(Content()))
      ensures Content() == if ok then Serialize(h, old(Content())) else old(Content())
    {
      hide IsDoubling;
      hide HeaderBytes;
      var len := writePos;
      if len > MAX_MESSAGE_SIZE - MESSAGE_HEADER_SIZE { return false; }
      Reserve(MESSAGE_HEADER_SIZE + len);
      ghost var payload := Content();
      forall i | 0 <= i < len {
        data[MESSAGE_HEADER_SIZE + i] := data[i];
      }
      assert data[MESSAGE_HEADER_SIZE..MESSAGE_HEADER_SIZE + len] == payload;
      assert forall i :: 0 <= i < len ==> data[MESSAGE_HEADER_SIZE + i] == payload[i];
      PutHeader(h.(length := len));
      assert forall i :: 0 <= i < len ==> data[MESSAGE_HEADER_SIZE + i] == payload[i];
      assert data[MESSAGE_HEADER_SIZE..MESSAGE_HEADER_SIZE + len] == payload;
      SetWritePosition(MESSAGE_HEADER_SIZE + len);
      assert Content() == data[..MESSAGE_HEADER_SIZE] + data[MESSAGE_HEADER_SIZE..MESSAGE_HEADER_SIZE + len];
      ok := true;
    }

    /** The five header stores, at their fixed offsets. */
    method PutHeader(h: Header)
      requires MESSAGE_HEADER_SIZE <= data.Length
      modifies data
      ensures data[..MESSAGE_HEADER_SIZE] == HeaderBytes(h)
      ensures forall i :: MESSAGE_HEADER_SIZE <= i < data.Length ==> data[i] == old(data[i])
    {
      PutUint32(0, h.magic);
      PutUint16(4, h.version);
      PutUint16(6, h.mtype);
      PutUint32(8, h.sequence);
      PutUint32(12, h.length);
      assert data[..16] == data[0..4] + data[4..6] + data[6..8] + data[8..12] + data[12..16];
    }

    /** putUint16LE. */
    method PutUint16(p: nat, v: u16)
      requires p + 2 <= data.Length
      modifies data
      ensures data[p..p + 2] == Le16(v)
      ensures forall i :: 0 <= i < data.Length && !(p <= i < p + 2) ==> data[i] == old(data[i])
    {
      data[p], data[p + 1] := v % 0x100, v / 0x100;
    }

    /** putUint32LE. */
    method PutUint32(p: nat, v: u32)
      requires p + 4 <= data.Length
      modifies data
      ensures data[p..p + 4] == Le32(v)
      ensures forall i :: 0 <= i < data.Length && !(p <= i < p + 4) ==> data[i] == old(data[i])
    {
      data[p], data[p + 1] := v % 0x100, v / 0x100 % 0x100;
      data[p + 2], data[p + 3] := v / 0x1_0000 % 0x100, v / 0x100_0000;
    }
  }
}

/** Little-endian integers and length-prefixed strings on the wire.

    The readers follow src/core/buffer_read_utils.h: they work on a byte
    sequence and a cursor, never read past the end, and report where the
    cursor stands afterwards, on failure as well as on success.
  */
module Wire {
  import opened Base

  // ---- Encoding ----------------------------------------------------------

  function Le16(v: u16): (r: Bytes)
    ensures |r| == 2
  {
    [v % 0x100, v / 0x100]
  }

  function Le32(v: u32): (r: Bytes)
    ensures |r| == 4
  {
    [v % 0x100, v / 0x100 % 0x100, v / 0x1_0000 % 0x100, v / 0x100_0000]
  }

  function Le64(v: u64): (r: Bytes)
    ensures |r| == 8
  {
    Le32(v % 0x1_0000_0000) + Le32(v / 0x1_0000_0000)
  }

  function BoolByte(b: bool): byte {
    if b then 1 else 0
  }

  /** Longest string writeString accepts: its length and prefix stay within 32 bits. */
  const MAX_STRING: nat := 0xFFFF_FFFB

  /** uint32 length, then the bytes.  Only meant for strings writeString accepts. */
  function EncString(s: Str): (r: Bytes)
    ensures |r| == 4 + |s|
  {
    Le32(|s| % 0x1_0000_0000) + s
  }

  // ---- Decoding ----------------------------------------------------------

  function Un16(b0: byte, b1: byte): u16 {
    b0 + 0x100 * b1
  }

  function Un32(b0: byte, b1: byte, b2: byte, b3: byte): u32 {
    b0 + 0x100 * b1 + 0x1_0000 * b2 + 0x100_0000 * b3
  }

  /** What a reader returns: a value and the cursor after it, or the cursor at which it gave up. */
  datatype Parsed<+T> = Ok(value: T, pos: nat) | Fail(pos: nat) {
    predicate IsFailure() { Fail? }

    function PropagateFailure<U>(): Parsed<U>
      requires Fail?
    {
      Fail(pos)
    }

    function Extract(): (T, nat)
      requires Ok?
    {
      (value, pos)
    }
  }

  predicate CanRead(s: Bytes, pos: nat, n: nat) {
    pos <= |s| && n <= |s| - pos
  }

  function ReadU16(s: Bytes, pos: nat): Parsed<u16> {
    if CanRead(s, pos, 2) then Ok(Un16(s[pos], s[pos + 1]), pos + 2) else Fail(pos)
  }

  function ReadU32(s: Bytes, pos: nat): Parsed<u32> {
    if CanRead(s, pos, 4) then
      Ok(Un32(s[pos], s[pos + 1], s[pos + 2], s[pos + 3]), pos + 4)
    else
      Fail(pos)
  }

  /** A power of the base. */
  function Base256(n: nat): nat {
    if n == 0 then 1 else 0x100 * Base256(n - 1)
  }

  /** The value of little-endian bytes. */
  function LeValue(b: Bytes): nat {
    if b == [] then 0 else LeValue(b[..|b| - 1]) + b[|b| - 1] * Base256(|b| - 1)
  }

  lemma {:induction false} LeValueBound(b: Bytes)
    ensures LeValue(b) < Base256(|b|)
  {
    if b != [] {
      LeValueBound(b[..|b| - 1]);
      ScaledByte(b[|b| - 1], Base256(|b| - 1));
    }
  }

  lemma ScaledByte(x: byte, w: nat)
    ensures x * w <= 0xFF * w
  {
  }

  lemma Base256Eight()
    ensures Base256(4) == 0x1_0000_0000 && Base256(8) == 0x1_0000_0000_0000_0000
  {
    assert Base256(5) == 0x100 * Base256(4) && Base256(6) == 0x100 * Base256(5);
    assert Base256(7) == 0x100 * Base256(6) && Base256(8) == 0x100 * Base256(7);
  }

  function ReadU64(s: Bytes, pos: nat): Parsed<u64> {
    Base256Eight();
    if CanRead(s, pos, 8) then LeValueBound(s[pos..pos + 8]); Ok(LeValue(s[pos..pos + 8]), pos + 8) else Fail(pos)
  }

  /** readUint64, byte by byte. */
  method ReadUint64(s: Bytes, pos: nat) returns (r: Parsed<u64>)
    ensures r == ReadU64(s, pos)
  {
    if !CanRead(s, pos, 8) { return Fail(pos); }
    var out: nat, weight: nat := 0, 1;
    for i := 0 to 8
      invariant out == LeValue(s[pos..pos + i]) && weight == Base256(i)
    {
      assert s[pos..pos + i + 1][..i] == s[pos..pos + i];
      out, weight := out + s[pos + i] * weight, 0x100 * weight;
    }
    Base256Eight();
    LeValueBound(s[pos..pos + 8]);
    r := Ok(out, pos + 8);
  }

  /** readBool: any byte but 0 is true. */
  function ReadBool(s: Bytes, pos: nat): Parsed<bool> {
    if CanRead(s, pos, 1) then Ok(s[pos] != 0, pos + 1) else Fail(pos)
  }

  /** A truncated body leaves the cursor after the length prefix. */
  function ReadString(s: Bytes, pos: nat): Parsed<Str> {
    match ReadU32(s, pos)
    case Fail(p) => Fail(p)
    case Ok(len, p) =>
      if CanRead(s, p, len) then Ok(s[p..p + len], p + len) else Fail(p)
  }

  // ---- Round trips at a cursor ---------------------------------------------

  /** `part` stands in `s` at `pos`. */
  predicate At(s: Bytes, pos: nat, part: Bytes) {
    CanRead(s, pos, |part|) && s[pos..pos + |part|] == part
  }

  /** A concatenation standing at a cursor splits into its parts. */
  lemma AtSplit(s: Bytes, pos: nat, a: Bytes, b: Bytes)
    requires At(s, pos, a + b)
    ensures At(s, pos, a) && At(s, pos + |a|, b)
  {
    assert s[pos..pos + |a|] == (a + b)[..|a|] == a;
    assert s[pos + |a|..pos + |a| + |b|] == (a + b)[|a|..] == b;
  }

  lemma ReadU16At(s: Bytes, pos: nat, v: u16)
    requires At(s, pos, Le16(v))
    ensures ReadU16(s, pos) == Ok(v, pos + 2)
  {
    var e := s[pos..pos + 2];
    assert s[pos] == e[0] && s[pos + 1] == e[1];
  }

  lemma Un32Le32(v: u32)
    ensures Un32(Le32(v)[0], Le32(v)[1], Le32(v)[2], Le32(v)[3]) == v
  {
    assert v / 0x1_0000 == v / 0x100 / 0x100;
    assert v / 0x100_0000 == v / 0x100 / 0x100 / 0x100;
  }

  lemma ReadU32At(s: Bytes, pos: nat, v: u32)
    requires At(s, pos, Le32(v))
    ensures ReadU32(s, pos) == Ok(v, pos + 4)
  {
    var e := s[pos..pos + 4];
    assert s[pos] == e[0] && s[pos + 1] == e[1] && s[pos + 2] == e[2] && s[pos + 3] == e[3];
    Un32Le32(v);
  }

  lemma LeValueFour(b: Bytes)
    requires |b| == 4
    ensures LeValue(b) == Un32(b[0], b[1], b[2], b[3])
  {
    assert b[..3][..2] == b[..2] && b[..3][..2][..1] == b[..1] && b[..3][..2][..1][..0] == [];
    assert Base256(1) == 0x100 && Base256(2) == 0x1_0000 && Base256(3) == 0x100_0000;
    assert LeValue(b[..1]) == b[0];
    assert LeValue(b[..2]) == LeValue(b[..1]) + b[1] * Base256(1);
    assert LeValue(b[..3]) == LeValue(b[..2]) + b[2] * Base256(2);
  }

  lemma {:induction false} LeValueAppend(a: Bytes, b: Bytes)
    ensures LeValue(a + b) == LeValue(a) + Base256(|a|) * LeValue(b)
    decreases |b|
  {
    if b == [] {
      assert a + b == a;
    } else {
      var front, last := b[..|b| - 1], b[|b| - 1];
      LeValueAppend(a, front);
      assert (a + b)[..|a + b| - 1] == a + front;
      Base256Sum(|a|, |front|);
      DistributeRight(Base256(|a|), LeValue(front), last, Base256(|front|));
    }
  }

  lemma {:induction false} Base256Sum(m: nat, n: nat)
    ensures Base256(m + n) == Base256(m) * Base256(n)
  {
    if n > 0 { Base256Sum(m, n - 1); }
  }

  lemma DistributeRight(p: nat, x: nat, y: nat, q: nat)
    ensures p * (x + y * q) == p * x + y * (p * q)
  {
  }

  lemma ReadU64At(s: Bytes, pos: nat, v: u64)
    requires At(s, pos, Le64(v))
    ensures ReadU64(s, pos) == Ok(v, pos + 8)
  {
    var lo, hi := v % 0x1_0000_0000, v / 0x1_0000_0000;
    LeValueAppend(Le32(lo), Le32(hi));
    LeValueFour(Le32(lo));
    LeValueFour(Le32(hi));
    Un32Le32(lo);
    Un32Le32(hi);
    Base256Eight();
    hide Le32;
    hide Un32;
    assert Base256(4) * hi + lo == v;
  }

  lemma U64Then(s: Bytes, pos: nat, v: u64, rest: Bytes)
    requires At(s, pos, Le64(v) + rest)
    ensures ReadU64(s, pos) == Ok(v, pos + 8) && At(s, pos + 8, rest)
  {
    AtSplit(s, pos, Le64(v), rest);
    ReadU64At(s, pos, v);
  }

  lemma ReadBoolAt(s: Bytes, pos: nat, v: bool)
    requires At(s, pos, [BoolByte(v)])
    ensures ReadBool(s, pos) == Ok(v, pos + 1)
  {
    assert s[pos..pos + 1][0] == s[pos];
  }

  lemma ReadStringAt(s: Bytes, pos: nat, v: Str)
    requires |v| <= MAX_STRING
    requires At(s, pos, EncString(v))
    ensures ReadString(s, pos) == Ok(v, pos + 4 + |v|)
  {
    hide Le32;
    hide ReadU32;
    AtSplit(s, pos, Le32(|v|), v);
    ReadU32At(s, pos, |v|);
  }

  // ---- One field, then the rest ---------------------------------------------

  lemma StringThen(s: Bytes, pos: nat, v: Str, rest: Bytes)
    requires |v| <= MAX_STRING && At(s, pos, EncString(v) + rest)
    ensures ReadString(s, pos) == Ok(v, pos + 4 + |v|) && At(s, pos + 4 + |v|, rest)
  {
    AtSplit(s, pos, EncString(v), rest);
    ReadStringAt(s, pos, v);
  }

  lemma U32Then(s: Bytes, pos: nat, v: u32, rest: Bytes)
    requires At(s, pos, Le32(v) + rest)
    ensures ReadU32(s, pos) == Ok(v, pos + 4) && At(s, pos + 4, rest)
  {
    AtSplit(s, pos, Le32(v), rest);
    ReadU32At(s, pos, v);
  }

  lemma U16Then(s: Bytes, pos: nat, v: u16, rest: Bytes)
    requires At(s, pos, Le16(v) + rest)
    ensures ReadU16(s, pos) == Ok(v, pos + 2) && At(s, pos + 2, rest)
  {
    AtSplit(s, pos, Le16(v), rest);
    ReadU16At(s, pos, v);
  }

  // ---- Lists ---------------------------------------------------------------

  function EncList<T>(xs: seq<T>, enc: T -> Bytes): Bytes {
    if xs == [] then [] else EncList(xs[..|xs| - 1], enc) + enc(xs[|xs| - 1])
  }

  lemma {:induction false} EncListFirst<T>(xs: seq<T>, enc: T -> Bytes)
    requires xs != []
    ensures EncList(xs, enc) == enc(xs[0]) + EncList(xs[1..], enc)
  {
    var n := |xs| - 1;
    if n == 0 {
      assert xs[..n] == [] && xs[1..] == [];
    } else {
      EncListFirst(xs[..n], enc);
      var tail := xs[1..];
      assert tail[..n - 1] == xs[..n][1..] && tail[n - 1] == xs[n];
      var head, middle, last := enc(xs[0]), EncList(tail[..n - 1], enc), enc(xs[n]);
      assert EncList(tail, enc) == middle + last;
      assert head + middle + last == head + (middle + last);
    }
  }

  /** A reader applied `n` times in a row. */
  function ReadList<T>(s: Bytes, pos: nat, n: nat, read: (Bytes, nat) -> Parsed<T>): Parsed<seq<T>>
    decreases n
  {
    if n == 0 then Ok([], pos)
    else
      var (x, p) :- read(s, pos);
      var (xs, q) :- ReadList(s, p, n - 1, read);
      Ok([x] + xs, q)
  }

  /** `read` undoes `enc` on `x`, wherever the encoding stands. */
  ghost predicate Undoes<T>(read: (Bytes, nat) -> Parsed<T>, enc: T -> Bytes, x: T) {
    forall s, pos: nat :: At(s, pos, enc(x)) ==> read(s, pos) == Ok(x, pos + |enc(x)|)
  }

  lemma {:induction false} ReadListAt<T>(s: Bytes, pos: nat, xs: seq<T>,
                                         read: (Bytes, nat) -> Parsed<T>, enc: T -> Bytes)
    requires At(s, pos, EncList(xs, enc))
    requires forall x :: x in xs ==> Undoes(read, enc, x)
    ensures ReadList(s, pos, |xs|, read) == Ok(xs, pos + |EncList(xs, enc)|)
    decreases |xs|
  {
    if xs != [] {
      EncListFirst(xs, enc);
      AtSplit(s, pos, enc(xs[0]), EncList(xs[1..], enc));
      assert Undoes(read, enc, xs[0]);
      ReadListAt(s, pos + |enc(xs[0])|, xs[1..], read, enc);
      assert [xs[0]] + xs[1..] == xs;
    }
  }

  /** An accumulated prefix in front of what the rest of a list read yields. */
  function Prepend<T>(xs: seq<T>, r: Parsed<seq<T>>): Parsed<seq<T>> {
    match r
    case Ok(ys, p) => Ok(xs + ys, p)
    case Fail(p) => Fail(p)
  }

  /** The element loop of the deserializers: stops at the first failure. */
  method ReadListLoop<T>(s: Bytes, pos: nat, n: nat, read: (Bytes, nat) -> Parsed<T>)
    returns (r: Parsed<seq<T>>)
    ensures r == ReadList(s, pos, n, read)
  {
    var xs: seq<T>, p := [], pos;
    assert ReadList(s, pos, n, read).Ok? ==> [] + ReadList(s, pos, n, read).value == ReadList(s, pos, n, read).value;
    for i := 0 to n
      invariant ReadList(s, pos, n, read) == Prepend(xs, ReadList(s, p, n - i, read))
    {
      match read(s, p)
      case Fail(q) => return Fail(q);
      case Ok(x, q) =>
        ghost var rest := ReadList(s, q, n - i - 1, read);
        assert rest.Ok? ==> xs + ([x] + rest.value) == xs + [x] + rest.value;
        xs, p := xs + [x], q;
    }
    assert xs + [] == xs;
    r := Ok(xs, p);
  }
}

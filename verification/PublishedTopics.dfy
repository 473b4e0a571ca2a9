/** The published-topics query (service_manager/topic_manager.cpp
    getPublishedTopics, src/core/message.cpp serializePublishedTopicsReply,
    include/omnibinder/message.h deserializePublishedTopicsReply).
  */
module PublishedTopics {
  import opened Base
  import opened SeqUtil
  import opened TopicKeys
  import opened Wire
  import opened TopicTables
  import opened TopicState
  import opened TopicManagement
  import opened Outboxes

  // ---- Sorting strings ------------------------------------------------------------------------

  /** std::string order: bytewise lexicographic. */
  predicate Less(a: Str, b: Str) {
    b != [] && (a == [] || a[0] < b[0] || (a[0] == b[0] && Less(a[1..], b[1..])))
  }

  lemma {:induction false} LessTransitive(a: Str, b: Str, c: Str)
    requires Less(a, b) && Less(b, c)
    ensures Less(a, c)
  {
    if a != [] && a[0] == b[0] == c[0] { LessTransitive(a[1..], b[1..], c[1..]); }
  }

  lemma {:induction false} LessTotal(a: Str, b: Str)
    ensures Less(a, b) || a == b || Less(b, a)
    ensures !(Less(a, b) && Less(b, a)) && !Less(a, a)
  {
    if a != [] {
      LessTotal(a[1..], if b == [] then [] else b[1..]);
      assert a == [a[0]] + a[1..];
      if b != [] { assert b == [b[0]] + b[1..]; }
    }
  }

  ghost predicate Sorted(xs: seq<Str>) {
    forall i, j :: 0 <= i < j < |xs| ==> !Less(xs[j], xs[i])
  }

  ghost predicate StrictlySorted(xs: seq<Str>) {
    forall i, j :: 0 <= i < j < |xs| ==> Less(xs[i], xs[j])
  }

  /** Not less is transitive as well. */
  lemma AtMostTransitive(a: Str, b: Str, c: Str)
    requires !Less(b, a) && !Less(c, b)
    ensures !Less(c, a)
  {
    LessTotal(a, b);
    LessTotal(b, c);
    LessTotal(a, c);
    if Less(c, a) {
      if Less(a, b) { LessTransitive(c, a, b); }
    }
  }

  /** One step of an insertion sort. */
  method Insert(xs: seq<Str>, x: Str) returns (r: seq<Str>)
    requires Sorted(xs)
    ensures Sorted(r) && multiset(r) == multiset(xs) + multiset{x}
  {
    hide Less;
    hide Sorted;
    var i := |xs|;
    while i > 0 && Less(x, xs[i - 1])
      invariant 0 <= i <= |xs|
      invariant forall j :: i <= j < |xs| ==> Less(x, xs[j])
    {
      i := i - 1;
    }
    r := xs[..i] + [x] + xs[i..];
    InsertedSorted(xs, x, i);
    assert xs == xs[..i] + xs[i..];
  }

  lemma InsertedSorted(xs: seq<Str>, x: Str, i: nat)
    requires Sorted(xs) && i <= |xs| && (0 < i ==> !Less(x, xs[i - 1]))
    requires forall j :: i <= j < |xs| ==> Less(x, xs[j])
    ensures Sorted(xs[..i] + [x] + xs[i..])
  {
    hide Less;
    forall j | 0 <= j < i
      ensures !Less(x, xs[j])
    {
      if j < i - 1 { AtMostTransitive(xs[j], xs[i - 1], x); }
    }
    forall j | i <= j < |xs|
      ensures !Less(xs[j], x)
    {
      LessTotal(x, xs[j]);
    }
  }

  /** std::sort. */
  method Sort(xs: seq<Str>) returns (r: seq<Str>)
    ensures Sorted(r) && multiset(r) == multiset(xs)
  {
    r := [];
    for i := 0 to |xs|
      invariant Sorted(r) && multiset(r) == multiset(xs[..i])
    {
      assert xs[..i + 1] == xs[..i] + [xs[i]];
      r := Insert(r, xs[i]);
    }
    assert xs[..|xs|] == xs;
  }

  /** std::unique: adjacent repetitions go. */
  method Unique(xs: seq<Str>) returns (r: seq<Str>)
    requires Sorted(xs)
    ensures StrictlySorted(r) && forall x :: x in r <==> x in xs
  {
    r := [];
    for i := 0 to |xs|
      invariant StrictlySorted(r) && (forall x :: x in r <==> x in xs[..i])
      invariant if i == 0 then r == [] else r != [] && r[|r| - 1] == xs[i - 1]
    {
      assert xs[..i + 1] == xs[..i] + [xs[i]];
      if i == 0 || xs[i - 1] != xs[i] {
        forall j | 0 <= j < |r|
          ensures Less(r[j], xs[i])
        {
          LessTotal(xs[i - 1], xs[i]);
          if j < |r| - 1 { LessTransitive(r[j], xs[i - 1], xs[i]); }
        }
        r := r + [xs[i]];
      }
    }
    assert xs[..|xs|] == xs;
  }

  // ---- The topics of one service ---------------------------------------------------------------

  /** getPublishedTopics: the topics the service has publishers on, sorted,
      each once. */
  method GetPublishedTopics(tm: TopicManager, service: Str) returns (r: seq<Str>)
    requires tm.Valid()
    ensures StrictlySorted(r) && forall t :: t in r <==> t in Published(tm.slots, service)
  {
    hide TopicManager.Valid;
    hide Published;
    var found := [];
    var todo := tm.topics.Keys;
    while todo != {}
      invariant todo <= tm.topics.Keys
      invariant forall t :: t in found <==>
                exists k :: k in tm.topics.Keys - todo && ListsTopic(tm.topics, k, service, t)
    {
      var k := Pick(todo);
      ghost var done := tm.topics.Keys - todo;
      if tm.topics[k].service == service && tm.topics[k].publishers != map[] {
        assert ListsTopic(tm.topics, k, service, tm.topics[k].topic);
        found := found + [tm.topics[k].topic];
      }
      todo := todo - {k};
      assert tm.topics.Keys - todo == done + {k};
    }
    forall t
      ensures t in found <==> t in Published(tm.slots, service)
    {
      ListsBothWays(tm, service, t);
    }
    var sorted := Sort(found);
    assert forall t :: t in found <==> t in multiset(found);
    assert forall t :: t in sorted <==> t in multiset(sorted);
    r := Unique(sorted);
  }

  predicate ListsTopic(topics: Topics, k: Str, service: Str, topic: Str) {
    k in topics && topics[k].service == service && topics[k].publishers != map[] && topics[k].topic == topic
  }

  lemma ListsBothWays(tm: TopicManager, service: Str, topic: Str)
    requires tm.Valid()
    ensures (exists k :: k in tm.topics.Keys && ListsTopic(tm.topics, k, service, topic))
       <==> topic in Published(tm.slots, service)
  {
    hide Wf;
    hide EntryKey;
    var s := tm.S();
    SlotKeysKnown(s);
    if k :| k in tm.topics.Keys && ListsTopic(tm.topics, k, service, topic) {
      EntrySlots(s, k);
      var i :| i in tm.topics[k].publishers;
      assert SlotId(service, topic, i) in tm.slots;
    }
    if topic in Published(tm.slots, service) {
      var id :| id in tm.slots && id.service == service && id.topic == topic;
      var k := EntryKey(service, topic);
      EntryKeyKnown(s, k);
      EntrySlots(s, k);
      assert id == SlotId(tm.topics[k].service, tm.topics[k].topic, id.inst);
      assert id.inst in tm.topics[k].publishers;
      assert ListsTopic(tm.topics, k, service, topic);
    }
  }

  // ---- The reply on the wire ----------------------------------------------------------------------

  datatype TopicsReply = TopicsReply(found: bool, topics: seq<Str>)

  function SumLengths(topics: seq<Str>): nat {
    if topics == [] then 0 else SumLengths(topics[..|topics| - 1]) + |topics[|topics| - 1]|
  }

  lemma {:induction false} SumPrefix(topics: seq<Str>, n: nat)
    requires n <= |topics|
    ensures SumLengths(topics[..n]) <= SumLengths(topics)
  {
    if n < |topics| {
      SumPrefix(topics[..|topics| - 1], n);
      assert topics[..|topics| - 1][..n] == topics[..n];
    } else {
      assert topics[..n] == topics;
    }
  }

  ghost predicate Serializable(r: TopicsReply) {
    && |r.topics| <= MAX_PUBLISHED_TOPICS && (r.found || r.topics == [])
    && (forall i :: 0 <= i < |r.topics| ==> ValidTopic(r.topics[i]))
    && SumLengths(r.topics) <= MAX_PUBLISHED_TOPICS_BYTES
  }

  function EncTopics(topics: seq<Str>): (b: Bytes)
    ensures |b| == 4 * |topics| + SumLengths(topics)
  {
    if topics == [] then [] else EncTopics(topics[..|topics| - 1]) + EncString(topics[|topics| - 1])
  }

  function ReplyBytes(r: TopicsReply): Bytes {
    [BoolByte(r.found)] + if r.found then Le32(|r.topics| % 0x1_0000_0000) + EncTopics(r.topics) else []
  }

  ghost predicate GoodTopics(topics: seq<Str>) {
    (forall i :: 0 <= i < |topics| ==> ValidTopic(topics[i])) && SumLengths(topics) <= MAX_PUBLISHED_TOPICS_BYTES
  }

  /** The first loop of serializePublishedTopicsReply. */
  method CheckTopics(topics: seq<Str>) returns (ok: bool)
    ensures ok <==> GoodTopics(topics)
  {
    var aggregate: nat := 0;
    for i := 0 to |topics|
      invariant aggregate == SumLengths(topics[..i]) <= MAX_PUBLISHED_TOPICS_BYTES
      invariant forall j :: 0 <= j < i ==> ValidTopic(topics[j])
    {
      assert topics[..i + 1][..i] == topics[..i];
      SumPrefix(topics, i + 1);
      if !ValidTopic(topics[i]) || |topics[i]| > MAX_PUBLISHED_TOPICS_BYTES - aggregate { return false; }
      aggregate := aggregate + |topics[i]|;
    }
    assert topics[..|topics|] == topics;
    ok := true;
  }

  /** Its second loop. */
  method WriteTopics(topics: seq<Str>) returns (encoded: Bytes)
    ensures encoded == EncTopics(topics)
  {
    hide EncString;
    encoded := [];
    for i := 0 to |topics|
      invariant encoded == EncTopics(topics[..i])
    {
      assert topics[..i + 1][..i] == topics[..i];
      encoded := encoded + EncString(topics[i]);
    }
    assert topics[..|topics|] == topics;
  }

  /** serializePublishedTopicsReply: nothing is written unless all of it may be. */
  method SerializeReply(r: TopicsReply) returns (out: Option<Bytes>)
    ensures out == if Serializable(r) then Some(ReplyBytes(r)) else None
  {
    hide EncTopics;
    hide SumLengths;
    hide Le32;
    if |r.topics| > MAX_PUBLISHED_TOPICS || (!r.found && r.topics != []) { return None; }
    var ok := CheckTopics(r.topics);
    if !ok { return None; }
    var encoded := WriteTopics(r.topics);
    out := Some([BoolByte(r.found)] + if r.found then Le32(|r.topics|) + encoded else []);
  }

  /** Topic by topic, with the bytes counted so far. */
  function ReadTopics(b: Bytes, pos: nat, n: nat, used: nat): Parsed<seq<Str>>
    decreases n
  {
    if n == 0 then Ok([], pos)
    else
      var (topic, p) :- ReadString(b, pos);
      if !ValidTopic(topic) || used + |topic| > MAX_PUBLISHED_TOPICS_BYTES then Fail(p)
      else
        var (rest, q) :- ReadTopics(b, p, n - 1, used + |topic|);
        Ok([topic] + rest, q)
  }

  function DecodeReply(b: Bytes): Option<TopicsReply> {
    if |b| == 0 then None
    else if b[0] == 0 then (if |b| == 1 then Some(TopicsReply(false, [])) else None)
    else
      match ReadU32(b, 1)
      case Fail(_) => None
      case Ok(count, p) =>
        if count > MAX_PUBLISHED_TOPICS || p > |b| || count > (|b| - p) / 4 then None
        else
          match ReadTopics(b, p, count, 0)
          case Fail(_) => None
          case Ok(topics, q) => if q == |b| then Some(TopicsReply(true, topics)) else None
  }

  /** The loop of deserializePublishedTopicsReply. */
  method ReadTopicsLoop(b: Bytes, start: nat, count: nat) returns (r: Parsed<seq<Str>>)
    ensures r.Ok? <==> ReadTopics(b, start, count, 0).Ok?
    ensures r.Ok? ==> r == ReadTopics(b, start, count, 0)
  {
    hide ReadString;
    var topics: seq<Str> := [];
    var p, aggregate: nat := start, 0;
    ghost var all := ReadTopics(b, start, count, 0);
    assert all.Ok? ==> [] + all.value == all.value;
    for i := 0 to count
      invariant all == Prepend(topics, ReadTopics(b, p, count - i, aggregate))
      invariant aggregate <= MAX_PUBLISHED_TOPICS_BYTES
    {
      match ReadString(b, p)
      case Fail(q) => return Fail(q);
      case Ok(topic, q) =>
        if !ValidTopic(topic) || |topic| > MAX_PUBLISHED_TOPICS_BYTES - aggregate { return Fail(q); }
        ghost var rest := ReadTopics(b, q, count - i - 1, aggregate + |topic|);
        assert rest.Ok? ==> topics + ([topic] + rest.value) == topics + [topic] + rest.value;
        topics, p, aggregate := topics + [topic], q, aggregate + |topic|;
    }
    assert topics + [] == topics;
    r := Ok(topics, p);
  }

  /** deserializePublishedTopicsReply. */
  method DeserializeReply(b: Bytes) returns (r: Option<TopicsReply>)
    ensures r == DecodeReply(b)
  {
    hide ReadTopics;
    if |b| == 0 { return None; }
    if b[0] == 0 { return if |b| == 1 then Some(TopicsReply(false, [])) else None; }
    match ReadU32(b, 1)
    case Fail(_) => return None;
    case Ok(count, start) =>
      if count > MAX_PUBLISHED_TOPICS || count > (|b| - start) / 4 { return None; }
      var topics := ReadTopicsLoop(b, start, count);
      if topics.Fail? || topics.pos != |b| { return None; }
      return Some(TopicsReply(true, topics.value));
  }

  // ---- Round trip ---------------------------------------------------------------------------------

  lemma {:induction false} EncTopicsFirst(topics: seq<Str>)
    requires topics != []
    ensures EncTopics(topics) == EncString(topics[0]) + EncTopics(topics[1..])
  {
    hide EncString;
    hide SumLengths;
    var n := |topics| - 1;
    if n == 0 {
      assert topics[..n] == [] && topics[1..] == [];
    } else {
      EncTopicsFirst(topics[..n]);
      assert topics[1..][..n - 1] == topics[..n][1..];
    }
  }

  lemma {:induction false} SumFirst(topics: seq<Str>)
    requires topics != []
    ensures SumLengths(topics) == |topics[0]| + SumLengths(topics[1..])
  {
    var n := |topics| - 1;
    if n == 0 {
      assert topics[..n] == [] && topics[1..] == [];
    } else {
      SumFirst(topics[..n]);
      assert topics[1..][..n - 1] == topics[..n][1..];
    }
  }

  lemma {:induction false} ReadTopicsAt(b: Bytes, pos: nat, topics: seq<Str>, used: nat)
    requires At(b, pos, EncTopics(topics)) && used + SumLengths(topics) <= MAX_PUBLISHED_TOPICS_BYTES
    requires forall i :: 0 <= i < |topics| ==> ValidTopic(topics[i])
    ensures ReadTopics(b, pos, |topics|, used) == Ok(topics, pos + |EncTopics(topics)|)
    decreases |topics|
  {
    hide ReadString;
    hide EncString;
    hide SumLengths;
    hide At;
    if topics != [] {
      EncTopicsFirst(topics);
      SumFirst(topics);
      StringThen(b, pos, topics[0], EncTopics(topics[1..]));
      ReadTopicsAt(b, pos + 4 + |topics[0]|, topics[1..], used + |topics[0]|);
      assert [topics[0]] + topics[1..] == topics;
    }
  }

  lemma CountPlausible(n: nat, room: nat)
    ensures 4 * n <= room <==> n <= room / 4
  {
  }

  /** Every reply that serializes decodes to itself. */
  lemma ReplyRoundTrip(r: TopicsReply)
    requires Serializable(r)
    ensures DecodeReply(ReplyBytes(r)) == Some(r)
  {
    hide ReadTopics;
    hide Le32;
    hide ReadU32;
    hide EncTopics;
    hide SumLengths;
    var b := ReplyBytes(r);
    if r.found {
      var n := |r.topics|;
      assert b[1..] == Le32(n) + EncTopics(r.topics);
      assert At(b, 1, Le32(n) + EncTopics(r.topics));
      U32Then(b, 1, n, EncTopics(r.topics));
      ReadTopicsAt(b, 5, r.topics, 0);
      assert |b| == 5 + |EncTopics(r.topics)|;
      CountPlausible(n, |b| - 5);
    }
  }

  lemma {:induction false} Le32Un32(b0: byte, b1: byte, b2: byte, b3: byte)
    ensures Le32(Un32(b0, b1, b2, b3)) == [b0, b1, b2, b3]
  {
    var v := Un32(b0, b1, b2, b3);
    assert v == b0 + 0x100 * (b1 + 0x100 * (b2 + 0x100 * b3));
    assert v / 0x100 == b1 + 0x100 * (b2 + 0x100 * b3);
    assert v / 0x1_0000 == v / 0x100 / 0x100 == b2 + 0x100 * b3;
    assert v / 0x100_0000 == v / 0x1_0000 / 0x100;
  }

  lemma ReadU32Inverse(b: Bytes, pos: nat)
    requires ReadU32(b, pos).Ok?
    ensures var r := ReadU32(b, pos); r.pos == pos + 4 <= |b| && b[pos..pos + 4] == Le32(r.value)
  {
    Le32Un32(b[pos], b[pos + 1], b[pos + 2], b[pos + 3]);
  }

  lemma ReadStringInverse(b: Bytes, pos: nat)
    requires ReadString(b, pos).Ok?
    ensures var r := ReadString(b, pos);
            pos + 4 <= r.pos <= |b| && |r.value| < 0x1_0000_0000 && b[pos..r.pos] == EncString(r.value)
  {
    hide ReadU32;
    hide Le32;
    ReadU32Inverse(b, pos);
    var r := ReadString(b, pos);
    assert b[pos..r.pos] == b[pos..pos + 4] + b[pos + 4..r.pos];
  }

  lemma NothingRead(b: Bytes, pos: nat, used: nat)
    requires pos <= |b|
    ensures ReadTopics(b, pos, 0, used) == Ok([], pos) && b[pos..pos] == EncTopics([]) && SumLengths([]) == 0
  {
  }

  lemma {:induction false} ReadTopicsInverse(b: Bytes, pos: nat, n: nat, used: nat)
    requires pos <= |b| && used <= MAX_PUBLISHED_TOPICS_BYTES && ReadTopics(b, pos, n, used).Ok?
    ensures var r := ReadTopics(b, pos, n, used);
            && pos <= r.pos <= |b| && |r.value| == n && b[pos..r.pos] == EncTopics(r.value)
            && (forall i :: 0 <= i < n ==> ValidTopic(r.value[i]))
            && used + SumLengths(r.value) <= MAX_PUBLISHED_TOPICS_BYTES
    decreases n
  {
    hide ReadString;
    hide EncString;
    hide EncTopics;
    hide SumLengths;
    if n > 0 {
      ReadStringInverse(b, pos);
      var first := ReadString(b, pos);
      var rest := ReadTopics(b, first.pos, n - 1, used + |first.value|);
      ReadTopicsInverse(b, first.pos, n - 1, used + |first.value|);
      var r := ReadTopics(b, pos, n, used);
      assert r == Ok([first.value] + rest.value, rest.pos);
      hide ReadTopics;
      EncTopicsFirst(r.value);
      SumFirst(r.value);
      assert r.value[1..] == rest.value;
      assert b[pos..r.pos] == b[pos..first.pos] + b[first.pos..r.pos];
    } else {
      NothingRead(b, pos, used);
    }
  }

  /** Only encodings decode: whatever is accepted serializes, and its encoding is
      the input, up to which nonzero byte stands for true. */
  lemma DecodedIsEncoded(b: Bytes, r: TopicsReply)
    requires DecodeReply(b) == Some(r)
    ensures Serializable(r) && b[1..] == ReplyBytes(r)[1..] && (b[0] != 0 <==> r.found)
  {
    hide ReadTopics;
    hide ReadU32;
    hide Le32;
    hide EncTopics;
    hide SumLengths;
    if r.found {
      ReadU32Inverse(b, 1);
      var count := ReadU32(b, 1).value;
      ReadTopicsInverse(b, 5, count, 0);
      assert b[1..] == b[1..5] + b[5..];
    } else {
      NoTopics();
    }
  }

  lemma NoTopics()
    ensures Serializable(TopicsReply(false, []))
  {
  }

  // ---- The reply to any query ------------------------------------------------------------------------

  ghost function SetOf(xs: seq<Str>): set<Str> {
    set x | x in xs
  }

  lemma {:induction false} SumIsTotal(xs: seq<Str>)
    requires StrictlySorted(xs)
    ensures |SetOf(xs)| == |xs| && TotalLength(SetOf(xs)) == SumLengths(xs)
  {
    if xs != [] {
      var n := |xs| - 1;
      var last, front := xs[n], xs[..n];
      SumIsTotal(front);
      forall i | 0 <= i < n
        ensures xs[i] != last
      {
        LessTotal(xs[i], last);
      }
      assert xs == front + [last];
      assert SetOf(xs) - {last} == SetOf(front);
      TotalLengthRemove(SetOf(xs), last);
      assert |SetOf(xs)| == |SetOf(front)| + 1;
    }
  }

  /** In every state of the topic manager, the list of any service's topics
      serializes and fits in a frame. */
  lemma AlwaysServed(tm: TopicManager, service: Str, topics: seq<Str>, sequence: u32, mtype: PlainType)
    requires tm.Valid() && StrictlySorted(topics) && forall t :: t in topics <==> t in Published(tm.slots, service)
    ensures Serializable(TopicsReply(true, topics))
    ensures Sendable(Plain(mtype, sequence, ReplyBytes(TopicsReply(true, topics))))
  {
    hide Less;
    hide Wf;
    hide Sendable;
    hide Le32;
    hide EncTopics;
    hide SumLengths;
    hide TotalLength;
    SumIsTotal(topics);
    assert SetOf(topics) == Published(tm.slots, service);
    WithinLimits(tm.S(), service);
    assert forall i :: 0 <= i < |topics| ==> topics[i] in Published(tm.slots, service);
    SmallReply(mtype, sequence, ReplyBytes(TopicsReply(true, topics)));
  }

  lemma WithinLimits(s: State, service: Str)
    requires Wf(s)
    ensures ServiceWithinLimits(s.slots, service)
    ensures forall t :: t in Published(s.slots, service) ==> ValidTopic(t)
  {
    PublishedTopicsValid(s);
    hide SlotsHold;
    hide SubsHold;
    hide EntryKey;
  }
}

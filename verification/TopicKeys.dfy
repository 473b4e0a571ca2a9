/** The composite string keys of the service manager.

    topic_manager.cpp keys its tables by strings built from several fields:
    `entryKey` (service, topic) and the selector's `key`.  types.h builds the
    session key from host id and runtime id.  The tables are only right if two
    different field tuples never share a key, whatever bytes the fields hold.
  */
module TopicKeys {
  import opened Base

  const COLON: byte := 58
  const BAR: byte := 124
  const UNIT_SEPARATOR: byte := 0x1f

  // ---- Decimal lengths -------------------------------------------------

  predicate IsDigit(b: byte) {
    48 <= b <= 57
  }

  /** What `os << n` prints for a size. */
  function Decimal(n: nat): (r: Str)
    ensures r != []
    ensures forall b :: b in r ==> IsDigit(b)
  {
    if n < 10 then [48 + n] else Decimal(n / 10) + [48 + n % 10]
  }

  function DecimalValue(s: Str): int {
    if s == [] then 0 else DecimalValue(s[..|s| - 1]) * 10 + s[|s| - 1] - 48
  }

  lemma {:induction false} DecimalRoundTrip(n: nat)
    ensures DecimalValue(Decimal(n)) == n
  {
    var d := Decimal(n);
    if n < 10 {
      assert d[..|d| - 1] == [];
    } else {
      DecimalRoundTrip(n / 10);
      assert d[..|d| - 1] == Decimal(n / 10);
    }
  }

  /** A separator that occurs in neither prefix splits both strings at the same place. */
  lemma SplitAtSeparator(a: Str, x: Str, b: Str, y: Str, sep: byte)
    requires sep !in a && sep !in b
    requires a + [sep] + x == b + [sep] + y
    ensures a == b && x == y
  {
    var s := a + [sep] + x;
    assert s[|a|] == sep && s[|b|] == sep;
    assert forall i :: 0 <= i < |a| ==> s[i] == a[i] && a[i] in a;
    assert forall i :: 0 <= i < |b| ==> s[i] == b[i] && b[i] in b;
    assert a == s[..|a|] && b == s[..|b|];
    assert x == s[|a| + 1..] && y == s[|b| + 1..];
  }

  /** Decimal length, separator, then exactly that many bytes. */
  function Prefixed(s: Str, sep: byte): Str {
    Decimal(|s|) + [sep] + s
  }

  /** A length-prefixed field followed by anything is read back in one way only. */
  lemma PrefixedSplits(s: Str, x: Str, t: Str, y: Str, sep: byte)
    requires !IsDigit(sep)
    requires Prefixed(s, sep) + x == Prefixed(t, sep) + y
    ensures s == t && x == y
  {
    assert Prefixed(s, sep) + x == Decimal(|s|) + [sep] + (s + x);
    assert Prefixed(t, sep) + y == Decimal(|t|) + [sep] + (t + y);
    SplitAtSeparator(Decimal(|s|), s + x, Decimal(|t|), t + y, sep);
    DecimalRoundTrip(|s|);
    DecimalRoundTrip(|t|);
    assert s == (s + x)[..|s|] && t == (t + y)[..|t|];
    assert x == (s + x)[|s|..] && y == (t + y)[|t|..];
  }

  // ---- Topic entries ---------------------------------------------------

  /** topic_manager.cpp `entryKey`: "<size of service>:<service><topic>". */
  function EntryKey(service: Str, topic: Str): Str {
    Prefixed(service, COLON) + topic
  }

  /** No two (service, topic) pairs share an entry key. */
  lemma EntryKeyInjective(service: Str, topic: Str, service': Str, topic': Str)
    requires EntryKey(service, topic) == EntryKey(service', topic')
    ensures service == service' && topic == topic'
  {
    PrefixedSplits(service, topic, service', topic', COLON);
  }

  // ---- Subscription selectors -------------------------------------------

  datatype Mode = TopicOnly | ByService | ByInstance

  /** TopicSubscriptionFilter.  `host` is carried but never compared. */
  datatype Selector = Selector(mode: Mode, service: Str, host: Str, inst: Str)

  /** TopicSubscriptionFilter::key. */
  function SelectorKey(sel: Selector): Str {
    match sel.mode
    case ByInstance => [73, BAR] + Prefixed(sel.service, BAR) + Prefixed(sel.inst, BAR)
    case ByService => [83, BAR] + Prefixed(sel.service, BAR)
    case TopicOnly => [84]
  }

  /** What the selector's own fields ask for: the topic alone, a service, or an
      instance of one. */
  predicate Asks(sel: Selector, name: Str, inst: Str) {
    || sel.mode.TopicOnly?
    || (sel.mode.ByService? && name == sel.service)
    || (sel.mode.ByInstance? && name == sel.service && inst == sel.inst)
  }

  /** TopicSubscriptionFilter::matches, on the publisher's name and instance id. */
  predicate SelectorMatches(sel: Selector, name: Str, inst: Str): (r: bool)
    ensures r <==> Asks(sel, name, inst)
  {
    if sel.mode.TopicOnly? then true
    else if name != sel.service then false
    else if sel.mode.ByInstance? then inst == sel.inst
    else true
  }

  /** The fields of a selector that its mode makes significant. */
  predicate SameSelector(a: Selector, b: Selector) {
    && a.mode == b.mode
    && (!a.mode.TopicOnly? ==> a.service == b.service)
    && (a.mode.ByInstance? ==> a.inst == b.inst)
  }

  /** Two selectors share a key exactly when their significant fields agree. */
  lemma SelectorKeyIdentifies(a: Selector, b: Selector)
    ensures SelectorKey(a) == SelectorKey(b) <==> SameSelector(a, b)
  {
    var ka, kb := SelectorKey(a), SelectorKey(b);
    if ka == kb {
      assert ka[0] == kb[0];
      if a.mode.ByService? {
        assert ka[2..] == Prefixed(a.service, BAR) && kb[2..] == Prefixed(b.service, BAR);
        assert Prefixed(a.service, BAR) + [] == Prefixed(b.service, BAR) + [];
        PrefixedSplits(a.service, [], b.service, [], BAR);
      } else if a.mode.ByInstance? {
        var ta, tb := Prefixed(a.inst, BAR), Prefixed(b.inst, BAR);
        assert ka[2..] == Prefixed(a.service, BAR) + ta && kb[2..] == Prefixed(b.service, BAR) + tb;
        PrefixedSplits(a.service, ta, b.service, tb, BAR);
        assert ta + [] == tb + [];
        PrefixedSplits(a.inst, [], b.inst, [], BAR);
      }
    }
  }

  /** Hence de-duplicating by key merges exactly the selectors that match the same
      publishers, among all publishers there may be. */
  lemma SelectorKeyIffMatches(a: Selector, b: Selector)
    ensures SelectorKey(a) == SelectorKey(b)
       <==> forall name, inst :: SelectorMatches(a, name, inst) == SelectorMatches(b, name, inst)
  {
    SelectorKeyIdentifies(a, b);
    if !SameSelector(a, b) {
      var name, inst := TellsApart(a, b);
      assert SelectorMatches(a, name, inst) != SelectorMatches(b, name, inst);
    }
  }

  /** A publisher that one of two different selectors matches and the other does not. */
  lemma TellsApart(a: Selector, b: Selector) returns (name: Str, inst: Str)
    requires !SameSelector(a, b)
    ensures SelectorMatches(a, name, inst) != SelectorMatches(b, name, inst)
  {
    var other := a.service + b.service + [0];
    if a.mode.TopicOnly? || b.mode.TopicOnly? {
      name, inst := other, [];
      assert |other| > |a.service| && |other| > |b.service|;
    } else if a.service != b.service {
      name, inst := a.service, a.inst;
    } else if a.mode.ByInstance? && b.mode.ByInstance? {
      name, inst := a.service, a.inst;
    } else {
      name, inst := a.service, a.inst + b.inst + [0];
      assert |inst| > |a.inst| && |inst| > |b.inst|;
    }
  }

  // ---- Runtime sessions --------------------------------------------------

  /** types.h `makeRuntimeSessionKey`: host id, 0x1f, runtime id. */
  function SessionKey(host: Str, runtime: Str): Str {
    host + [UNIT_SEPARATOR] + runtime
  }

  /** The separator is not escaped, so the key is ambiguous for some identities. */
  lemma SessionKeyCollision()
    ensures SessionKey([97, UNIT_SEPARATOR, 98], [99]) == SessionKey([97], [98, UNIT_SEPARATOR, 99])
  {
    assert SessionKey([97, UNIT_SEPARATOR, 98], [99]) == [97, UNIT_SEPARATOR, 98, UNIT_SEPARATOR, 99];
  }

  predicate SharesSessionKey(host: Str, runtime: Str, host': Str, runtime': Str) {
    (host', runtime') != (host, runtime) && SessionKey(host', runtime') == SessionKey(host, runtime)
  }

  /** An identity shares its session key with some other identity exactly when
      its host id or its runtime id contains the separator byte. */
  lemma SessionKeyUniqueIff(host: Str, runtime: Str)
    ensures (exists host', runtime' :: SharesSessionKey(host, runtime, host', runtime'))
            <==> UNIT_SEPARATOR in host || UNIT_SEPARATOR in runtime
  {
    if UNIT_SEPARATOR in host {
      var i :| 0 <= i < |host| && host[i] == UNIT_SEPARATOR;
      var host', runtime' := host[..i], host[i + 1..] + [UNIT_SEPARATOR] + runtime;
      assert host == host[..i] + [UNIT_SEPARATOR] + host[i + 1..];
      assert SharesSessionKey(host, runtime, host', runtime');
    } else if UNIT_SEPARATOR in runtime {
      var i :| 0 <= i < |runtime| && runtime[i] == UNIT_SEPARATOR;
      var host', runtime' := host + [UNIT_SEPARATOR] + runtime[..i], runtime[i + 1..];
      assert runtime == runtime[..i] + [UNIT_SEPARATOR] + runtime[i + 1..];
      assert SharesSessionKey(host, runtime, host', runtime');
    } else {
      forall host', runtime' | SessionKey(host', runtime') == SessionKey(host, runtime)
        ensures (host', runtime') == (host, runtime)
      {
        SessionKeyUnambiguous(host, runtime, host', runtime');
      }
    }
  }

  lemma SessionKeyUnambiguous(host: Str, runtime: Str, host': Str, runtime': Str)
    requires UNIT_SEPARATOR !in host && UNIT_SEPARATOR !in runtime
    requires SessionKey(host', runtime') == SessionKey(host, runtime)
    ensures host' == host && runtime' == runtime
  {
    var k := SessionKey(host, runtime);
    assert forall i :: 0 <= i < |host| ==> k[i] == host[i];
    assert forall i :: |host| < i < |k| ==> k[i] == runtime[i - |host| - 1];
    assert k[|host'|] == UNIT_SEPARATOR;
    assert host' == k[..|host'|] && runtime' == k[|host'| + 1..];
    assert host == k[..|host|] && runtime == k[|host| + 1..];
  }
}

/** Small operations on duplicate-free lists, as the tables use std::vector. */
module SeqUtil {

  ghost predicate NoDup<T>(s: seq<T>) {
    forall i, j :: 0 <= i < j < |s| ==> s[i] != s[j]
  }

  /** Any element of a set: the loops over ordered tables do not rely on the order. */
  method Pick<T>(s: set<T>) returns (x: T)
    requires s != {}
    ensures x in s
  {
    x :| x in s;
  }

  /** Find the element, erase it, stop. */
  method EraseFirst<T(==)>(s: seq<T>, x: T) returns (r: seq<T>)
    requires NoDup(s)
    ensures NoDup(r)
    ensures forall y :: y in r <==> y in s && y != x
    ensures x !in s ==> r == s
  {
    var i := 0;
    while i < |s| && s[i] != x
      invariant 0 <= i <= |s|
      invariant x !in s[..i]
    {
      i := i + 1;
    }
    if i == |s| {
      assert s[..i] == s;
      return s;
    }
    r := s[..i] + s[i + 1..];
    forall y | y in s && y != x
      ensures y in r
    {
      var j :| 0 <= j < |s| && s[j] == y;
      assert r[if j < i then j else j - 1] == y;
    }
  }

  /** erase(remove(...)): drops every occurrence, keeps the order of the rest. */
  method RemoveAll<T(==)>(s: seq<T>, x: T) returns (r: seq<T>)
    requires NoDup(s)
    ensures NoDup(r)
    ensures forall y :: y in r <==> y in s && y != x
    ensures x !in s ==> r == s
  {
    r := [];
    for i := 0 to |s|
      invariant NoDup(r)
      invariant forall y :: y in r <==> y in s[..i] && y != x
      invariant x !in s[..i] ==> r == s[..i]
    {
      assert s[i] !in s[..i];
      if s[i] != x {
        r := r + [s[i]];
      }
    }
    assert s[..|s|] == s;
  }
}

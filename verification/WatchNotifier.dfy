/** Persistent subscriptions to service state (service_manager/
    service_watch_notifier.cpp): watch groups, an index by service name and an
    index by subscriber.
  */
module Watching {
  import opened Base
  import opened SeqUtil
  import opened Registry

  /** An empty instance id stands for every instance.  `host` is never compared. */
  datatype WatchFilter = WatchFilter(name: Str, host: Str, inst: Str)

  datatype WatchKey = WatchKey(fd: Fd, id: u64)

  type Groups = map<WatchKey, seq<WatchFilter>>
  type NameIndex = map<Str, set<WatchKey>>
  type SubscriberIndex = map<Fd, set<u64>>

  // ---- Filters -----------------------------------------------------------------

  /** ServiceWatchNotifier::matches. */
  predicate FilterMatches(f: WatchFilter, id: Ident) {
    f.name == id.name && (f.inst == [] || f.inst == id.inst)
  }

  /** ServiceWatchNotifier::overlaps. */
  predicate Overlaps(a: WatchFilter, b: WatchFilter) {
    a.name == b.name && (a.inst == [] || b.inst == [] || a.inst == b.inst)
  }

  /** Two filters overlap exactly when some instance is watched by both. */
  lemma OverlapsIffShared(a: WatchFilter, b: WatchFilter)
    ensures Overlaps(a, b) <==> exists id :: FilterMatches(a, id) && FilterMatches(b, id)
  {
    if Overlaps(a, b) {
      var id := Ident(a.name, if a.inst == [] then b.inst else a.inst);
      assert FilterMatches(a, id) && FilterMatches(b, id);
    }
  }

  /** The groups a subscribe request may create: filters pairwise disjoint. */
  ghost predicate Disjoint(filters: seq<WatchFilter>) {
    forall i, j :: 0 <= i < j < |filters| ==> !Overlaps(filters[i], filters[j])
  }

  predicate GroupMatches(filters: seq<WatchFilter>, id: Ident) {
    exists i :: 0 <= i < |filters| && FilterMatches(filters[i], id)
  }

  /** In an accepted group, an instance is matched by one filter at most, so a
      snapshot taken filter by filter names each instance once. */
  lemma DisjointFiltersShareNothing(filters: seq<WatchFilter>, i: int, j: int, id: Ident)
    requires Disjoint(filters) && 0 <= i < |filters| && 0 <= j < |filters|
    requires FilterMatches(filters[i], id) && FilterMatches(filters[j], id)
    ensures i == j
  {
    OverlapsIffShared(filters[i], filters[j]);
    OverlapsIffShared(filters[j], filters[i]);
  }

  // ---- The two indexes -----------------------------------------------------------

  function KeysFor(index: NameIndex, name: Str): set<WatchKey> {
    if name in index then index[name] else {}
  }

  function IdsFor(index: SubscriberIndex, fd: Fd): set<u64> {
    if fd in index then index[fd] else {}
  }

  /** Some filter of the group watches this service name. */
  predicate Names(filters: seq<WatchFilter>, name: Str) {
    exists i :: 0 <= i < |filters| && filters[i].name == name
  }

  ghost predicate NamesIndexed(index: NameIndex, groups: Groups) {
    && (forall name, k :: k in KeysFor(index, name) <==> k in groups && Names(groups[k], name))
    && (forall name :: name in index ==> index[name] != {})
  }

  ghost predicate SubscribersIndexed(index: SubscriberIndex, groups: Groups) {
    && (forall k: WatchKey :: k in groups <==> k.id in IdsFor(index, k.fd))
    && (forall fd :: fd in index ==> index[fd] != {})
  }

  function AddId(index: SubscriberIndex, key: WatchKey): SubscriberIndex {
    index[key.fd := IdsFor(index, key.fd) + {key.id}]
  }

  function DropId(index: SubscriberIndex, key: WatchKey): SubscriberIndex {
    var ids := IdsFor(index, key.fd) - {key.id};
    if ids == {} then index - {key.fd} else index[key.fd := ids]
  }

  lemma AddIdIndexed(index: SubscriberIndex, groups: Groups, key: WatchKey, filters: seq<WatchFilter>)
    requires SubscribersIndexed(index, groups)
    ensures SubscribersIndexed(AddId(index, key), groups[key := filters])
  {
  }

  lemma DropIdIndexed(index: SubscriberIndex, groups: Groups, key: WatchKey)
    requires SubscribersIndexed(index, groups)
    ensures SubscribersIndexed(DropId(index, key), groups - {key})
  {
  }

  /** Groups whose subscriber is outside `dead`. */
  ghost function WatchedOutside(groups: Groups, dead: set<Fd>): Groups {
    map k | k in groups && k.fd !in dead :: groups[k]
  }

  /** The groups without those of one connection with these ids. */
  ghost function GroupsBut(groups: Groups, fd: Fd, ids: set<u64>): Groups {
    map k | k in groups && !(k.fd == fd && k.id in ids) :: groups[k]
  }

  lemma NoneLeftOut(groups: Groups, fd: Fd)
    ensures GroupsBut(groups, fd, {}) == groups
  {
  }

  lemma GroupsButOne(groups: Groups, fd: Fd, ids: set<u64>, id: u64)
    ensures GroupsBut(groups, fd, ids + {id}) == GroupsBut(groups, fd, ids) - {WatchKey(fd, id)}
    ensures WatchKey(fd, id) !in GroupsBut(groups, fd, ids) ==>
              GroupsBut(groups, fd, ids + {id}) == GroupsBut(groups, fd, ids)
  {
    assert GroupsBut(groups, fd, ids + {id}) == GroupsBut(groups, fd, ids) - {WatchKey(fd, id)};
  }

  lemma AllLeftOut(groups: Groups, fd: Fd, ids: set<u64>)
    requires forall k :: k in groups && k.fd == fd ==> k.id in ids
    ensures GroupsBut(groups, fd, ids) == WatchedOutside(groups, {fd})
  {
  }

  class WatchNotifier {
    var groups: Groups
    var serviceIndex: NameIndex
    var subscriberIndex: SubscriberIndex

    ghost predicate Valid()
      reads this
    {
      && NamesIndexed(serviceIndex, groups)
      && SubscribersIndexed(subscriberIndex, groups)
      && (forall k :: k in groups ==> k.fd >= 0 && k.id != 0 && groups[k] != [])
    }

    constructor ()
      ensures Valid() && groups == map[]
    {
      groups, serviceIndex, subscriberIndex := map[], map[], map[];
    }

    /** The loop of `subscribe` over the filters. */
    static method AddNames(index0: NameIndex, filters: seq<WatchFilter>, key: WatchKey) returns (index: NameIndex)
      requires forall name :: name in index0 ==> index0[name] != {}
      ensures forall name, k :: k in KeysFor(index, name) <==>
                k in KeysFor(index0, name) || (k == key && Names(filters, name))
      ensures forall name :: name in index ==> index[name] != {}
    {
      index := index0;
      for i := 0 to |filters|
        invariant forall name, k :: k in KeysFor(index, name) <==>
                    k in KeysFor(index0, name) || (k == key && Names(filters[..i], name))
        invariant forall name :: name in index ==> index[name] != {}
      {
        NamesNext(filters, i);
        index := index[filters[i].name := KeysFor(index, filters[i].name) + {key}];
      }
      assert filters[..|filters|] == filters;
    }

    /** The loop of `eraseGroup` over the filters. */
    static method DropNames(index0: NameIndex, filters: seq<WatchFilter>, key: WatchKey) returns (index: NameIndex)
      requires forall name :: name in index0 ==> index0[name] != {}
      ensures forall name, k :: k in KeysFor(index, name) <==>
                k in KeysFor(index0, name) && !(k == key && Names(filters, name))
      ensures forall name :: name in index ==> index[name] != {}
    {
      index := index0;
      for i := 0 to |filters|
        invariant forall name, k :: k in KeysFor(index, name) <==>
                    k in KeysFor(index0, name) && !(k == key && Names(filters[..i], name))
        invariant forall name :: name in index ==> index[name] != {}
      {
        NamesNext(filters, i);
        var name := filters[i].name;
        if name in index {
          var keys := index[name] - {key};
          index := if keys == {} then index - {name} else index[name := keys];
        }
      }
      assert filters[..|filters|] == filters;
    }

    /** subscribe: refused for a used key, a zero id or no filters. */
    method Subscribe(fd: Fd, id: u64, filters: seq<WatchFilter>) returns (ok: bool)
      requires Valid()
      modifies this
      ensures Valid()
      ensures ok <==> fd >= 0 && id != 0 && filters != [] && WatchKey(fd, id) !in old(groups)
      ensures groups == if ok then old(groups)[WatchKey(fd, id) := filters] else old(groups)
    {
      var key := WatchKey(fd, id);
      if fd < 0 || id == 0 || filters == [] || key in groups { return false; }
      hide Names;
      hide SubscribersIndexed;
      serviceIndex := AddNames(serviceIndex, filters, key);
      AddIdIndexed(subscriberIndex, groups, key, filters);
      subscriberIndex := AddId(subscriberIndex, key);
      groups := groups[key := filters];
      ok := true;
    }

    /** eraseGroup: the group and its entries in both indexes. */
    method EraseGroup(key: WatchKey)
      requires Valid() && key in groups
      modifies this
      ensures Valid() && groups == old(groups) - {key}
    {
      hide Names;
      hide SubscribersIndexed;
      serviceIndex := DropNames(serviceIndex, groups[key], key);
      DropIdIndexed(subscriberIndex, groups, key);
      subscriberIndex := DropId(subscriberIndex, key);
      groups := groups - {key};
    }

    method Unsubscribe(fd: Fd, id: u64) returns (ok: bool)
      requires Valid()
      modifies this
      ensures Valid()
      ensures ok <==> WatchKey(fd, id) in old(groups)
      ensures groups == old(groups) - {WatchKey(fd, id)}
    {
      if WatchKey(fd, id) !in groups {
        assert groups == groups - {WatchKey(fd, id)};
        return false;
      }
      EraseGroup(WatchKey(fd, id));
      ok := true;
    }

    /** removeSubscriber: every group of one connection. */
    method RemoveSubscriber(fd: Fd)
      requires Valid()
      modifies this
      ensures Valid() && groups == WatchedOutside(old(groups), {fd})
    {
      hide NamesIndexed;
      var ids := IdsFor(subscriberIndex, fd);
      assert forall k :: k in groups && k.fd == fd ==> k.id in ids;
      var todo := ids;
      ghost var before := groups;
      NoneLeftOut(before, fd);
      assert ids - todo == {};
      hide SubscribersIndexed;
      hide GroupsBut;
      while todo != {}
        invariant Valid() && todo <= ids && groups == GroupsBut(before, fd, ids - todo)
      {
        var id := Pick(todo);
        GroupsButOne(before, fd, ids - todo, id);
        assert ids - (todo - {id}) == ids - todo + {id};
        if WatchKey(fd, id) in groups {
          EraseGroup(WatchKey(fd, id));
        }
        todo := todo - {id};
      }
      assert ids - todo == ids;
      AllLeftOut(before, fd, ids);
    }

    /** matching: through the name index, exactly the groups a scan of all
        filters of all groups would find, each once. */
    method Matching(id: Ident) returns (found: seq<WatchKey>)
      requires Valid()
      ensures NoDup(found)
      ensures forall k :: k in found <==> k in groups && GroupMatches(groups[k], id)
    {
      found := [];
      var keys := KeysFor(serviceIndex, id.name);
      var todo := keys;
      while todo != {}
        invariant todo <= keys && NoDup(found)
        invariant forall k :: k in found <==> k in keys - todo && k in groups && GroupMatches(groups[k], id)
      {
        var k := Pick(todo);
        if k in groups {
          var filters := groups[k];
          var i := 0;
          while i < |filters| && !FilterMatches(filters[i], id)
            invariant 0 <= i <= |filters|
            invariant forall j :: 0 <= j < i ==> !FilterMatches(filters[j], id)
          {
            i := i + 1;
          }
          if i < |filters| {
            found := found + [k];
          }
        }
        todo := todo - {k};
      }
    }
  }

  lemma NamesNext(filters: seq<WatchFilter>, i: nat)
    requires i < |filters|
    ensures forall name :: Names(filters[..i + 1], name) <==> Names(filters[..i], name) || name == filters[i].name
  {
    forall name
      ensures Names(filters[..i + 1], name) <==> Names(filters[..i], name) || name == filters[i].name
    {
      var a, b := filters[..i], filters[..i + 1];
      assert b == a + [filters[i]];
      if Names(a, name) {
        var j :| 0 <= j < |a| && a[j].name == name;
        assert b[j].name == name;
      }
      if name == filters[i].name { assert b[i].name == name; }
    }
  }
}

/** The registry of service instances (service_manager/service_registry.cpp):
    a two-level table by name and instance id, and an index from control
    connections to the instances they own.

    `entries` is the abstract value: one flat map from logical identities.  The
    identity is (name, instance id); the host id is location only.
  */
module Registry {
  import opened Base
  import opened SeqUtil
  import opened ServiceCodec

  /** Logical identity of an instance; also the reference kept per connection. */
  datatype Ident = Ident(name: Str, inst: Str)

  /** ServiceIdentity: the logical identity and where the instance runs. */
  datatype ServiceIdentity = ServiceIdentity(name: Str, hostId: Str, inst: Str) {
    function Key(): Ident { Ident(name, inst) }
  }

  datatype ServiceEntry = ServiceEntry(info: ServiceInfo, handle: u32, fd: Fd) {
    function Identity(): ServiceIdentity { ServiceIdentity(info.name, info.hostId, info.inst) }
  }

  type Entries = map<Ident, ServiceEntry>
  type Table = map<Str, map<Str, ServiceEntry>>
  type FdIndex = map<Fd, seq<Ident>>

  const INVALID_HANDLE: u32 := 0

  /** What addService accepts. */
  predicate Acceptable(info: ServiceInfo) {
    && 0 < |info.name| <= MAX_NAME_LENGTH
    && |info.hostId| <= MAX_NAME_LENGTH
    && |info.inst| <= MAX_NAME_LENGTH
  }

  function KeyOf(info: ServiceInfo): Ident {
    Ident(info.name, info.inst)
  }

  // ---- The two-level table ---------------------------------------------------

  function Row(table: Table, name: Str): map<Str, ServiceEntry> {
    if name in table then table[name] else map[]
  }

  /** The two-level table holds exactly the abstract entries, and no empty row. */
  ghost predicate TableHolds(table: Table, entries: Entries) {
    && (forall id :: id in entries <==> id.inst in Row(table, id.name))
    && (forall id :: id in entries ==> entries[id] == Row(table, id.name)[id.inst])
    && (forall name :: name in table ==> table[name] != map[])
  }

  function Put(table: Table, id: Ident, entry: ServiceEntry): Table {
    table[id.name := Row(table, id.name)[id.inst := entry]]
  }

  /** Erase one instance and, with it, an emptied row. */
  function Erase(table: Table, id: Ident): Table
    requires id.name in table
  {
    var row := table[id.name] - {id.inst};
    if row == map[] then table - {id.name} else table[id.name := row]
  }

  lemma PutHolds(table: Table, entries: Entries, id: Ident, entry: ServiceEntry)
    requires TableHolds(table, entries)
    ensures TableHolds(Put(table, id, entry), entries[id := entry])
  {
  }

  lemma EraseHolds(table: Table, entries: Entries, id: Ident)
    requires TableHolds(table, entries) && id in entries
    ensures id.name in table && TableHolds(Erase(table, id), entries - {id})
  {
  }

  // ---- The connection index --------------------------------------------------

  function Refs(index: FdIndex, fd: Fd): seq<Ident> {
    if fd in index then index[fd] else []
  }

  /** The index lists for each connection exactly the instances it owns, each once. */
  ghost predicate IndexExact(index: FdIndex, entries: Entries) {
    && (forall fd, id :: id in Refs(index, fd) <==> id in entries && entries[id].fd == fd)
    && (forall fd :: NoDup(Refs(index, fd)))
    && (forall fd :: fd in index ==> index[fd] != [])
  }

  /** Appending one reference completes an index that lacked exactly this one. */
  lemma PushExact(index: FdIndex, entries: Entries, id: Ident, fd: Fd)
    requires id in entries && entries[id].fd == fd
    requires forall f, x :: x in Refs(index, f) <==> x != id && x in entries && entries[x].fd == f
    requires forall f :: NoDup(Refs(index, f))
    requires forall f :: f in index ==> index[f] != []
    ensures IndexExact(index[fd := Refs(index, fd) + [id]], entries)
  {
    var index' := index[fd := Refs(index, fd) + [id]];
    forall f
      ensures Refs(index', f) == if f == fd then Refs(index, fd) + [id] else Refs(index, f)
    {
    }
    hide Refs;
    assert id !in Refs(index, fd);
  }

  lemma ListsSound(index: FdIndex, entries: Entries, fd: Fd)
    requires IndexExact(index, entries)
    ensures NoDup(Refs(index, fd)) && forall f :: f in index ==> index[f] != []
  {
  }

  /** Dropping the one reference to an entry that goes keeps the index exact. */
  lemma DropOneExact(index: FdIndex, index': FdIndex, entries: Entries, id: Ident)
    requires IndexExact(index, entries) && EntriesSound(entries) && id in entries
    requires var fd := entries[id].fd;
             && NoDup(Refs(index', fd))
             && (forall x :: x in Refs(index', fd) <==> x in Refs(index, fd) && x != id)
             && (forall f :: f != fd ==> Refs(index', f) == Refs(index, f))
             && (forall f :: f in index' ==> index'[f] != [])
    ensures IndexExact(index', entries - {id}) && EntriesSound(entries - {id})
  {
    hide Refs;
    hide Acceptable;
  }

  /** Dropping a connection's list and all it owns keeps the index exact. */
  lemma DropExact(index: FdIndex, entries: Entries, fd: Fd)
    requires IndexExact(index, entries)
    ensures NoDup(Refs(index, fd))
    ensures forall id :: id in Refs(index, fd) ==> id in entries
    ensures entries - (set id | id in Refs(index, fd)) == OwnedOutside(entries, {fd})
    ensures IndexExact(index - {fd}, OwnedOutside(entries, {fd}))
    ensures EntriesSound(entries) ==> EntriesSound(OwnedOutside(entries, {fd}))
    ensures EntriesSound(entries) ==> forall id :: id in entries ==> entries[id].Identity().Key() == id
  {
    assert forall f :: f != fd ==> Refs(index - {fd}, f) == Refs(index, f);
  }

  ghost predicate EntriesSound(entries: Entries) {
    forall id :: id in entries ==>
      && KeyOf(entries[id].info) == id
      && Acceptable(entries[id].info)
      && entries[id].handle != INVALID_HANDLE
  }

  predicate ShortNames(who: ServiceIdentity) {
    |who.name| <= MAX_NAME_LENGTH && |who.hostId| <= MAX_NAME_LENGTH && |who.inst| <= MAX_NAME_LENGTH
  }

  /** The list names exactly the instances the connection owned, each once. */
  ghost predicate RemovedFrom(entries: Entries, fd: Fd, removed: seq<ServiceIdentity>) {
    && (forall i :: 0 <= i < |removed| ==>
          removed[i].Key() in entries && entries[removed[i].Key()].fd == fd && ShortNames(removed[i])
          && entries[removed[i].Key()].Identity() == removed[i])
    && (forall i, j :: 0 <= i < j < |removed| ==> removed[i].Key() != removed[j].Key())
    && (forall id :: id in entries && entries[id].fd == fd ==>
          exists i :: 0 <= i < |removed| && removed[i].Key() == id)
  }

  lemma RefsRemoved(index: FdIndex, entries: Entries, fd: Fd, removed: seq<ServiceIdentity>)
    requires IndexExact(index, entries) && EntriesSound(entries)
    requires |removed| == |Refs(index, fd)|
    requires forall i :: 0 <= i < |removed| ==>
               Refs(index, fd)[i] in entries && removed[i] == entries[Refs(index, fd)[i]].Identity()
    ensures RemovedFrom(entries, fd, removed)
  {
    var refs := Refs(index, fd);
    assert forall i :: 0 <= i < |refs| ==> refs[i] in refs && removed[i].Key() == refs[i];
    forall id | id in entries && entries[id].fd == fd
      ensures exists i :: 0 <= i < |removed| && removed[i].Key() == id
    {
      assert id in refs;
      var i :| 0 <= i < |refs| && refs[i] == id;
      assert removed[i].Key() == id;
    }
  }

  /** An instance of that name which the connection owns. */
  ghost predicate OwnsNamed(reg: Entries, id: Ident, name: Str, f: Fd) {
    id in reg && id.name == name && reg[id].fd == f
  }

  /** The list holds exactly the instances of one name, each once. */
  ghost predicate ListsInstances(infos: seq<ServiceInfo>, entries: Entries, name: Str) {
    && (forall info :: info in infos <==> exists id :: id in entries && id.name == name && entries[id].info == info)
    && (forall i, j :: 0 <= i < j < |infos| ==> KeyOf(infos[i]) != KeyOf(infos[j]))
  }

  /** The entries that connections outside `dead` own. */
  ghost function OwnedOutside(entries: Entries, dead: set<Fd>): Entries {
    map id | id in entries && entries[id].fd !in dead :: entries[id]
  }

  class ServiceRegistry {
    var services: Table
    var fdIndex: FdIndex
    var nextHandle: u32
    ghost var entries: Entries

    ghost predicate Valid()
      reads this
    {
      TableHolds(services, entries) && IndexExact(fdIndex, entries) && EntriesSound(entries)
    }

    constructor ()
      ensures Valid() && entries == map[]
    {
      services, fdIndex, nextHandle := map[], map[], 1;
      entries := map[];
    }

    /** generateHandle: 32-bit counter that skips the invalid handle on wrap-around. */
    method GenerateHandle() returns (h: u32)
      modifies this`nextHandle
      ensures h != INVALID_HANDLE && h == (if old(nextHandle) == INVALID_HANDLE then 1 else old(nextHandle))
      ensures nextHandle == if h < 0xFFFF_FFFF then h + 1 else INVALID_HANDLE
    {
      h := nextHandle;
      nextHandle := (nextHandle + 1) % U32_MOD;
      if h == INVALID_HANDLE {
        h := nextHandle;
        nextHandle := (nextHandle + 1) % U32_MOD;
      }
    }

    /** findEntry / findServiceByIdentity. */
    function FindEntry(id: Ident): (r: Option<ServiceEntry>)
      reads this
      ensures Valid() ==> r == if id in entries then Some(entries[id]) else None
      ensures Valid() && r.Some? ==> KeyOf(r.value.info) == id && Acceptable(r.value.info)
    {
      if id.name in services && id.inst in services[id.name] then Some(services[id.name][id.inst]) else None
    }

    /** removeFromFdIndex: drops the reference, and the list with it when emptied. */
    method RemoveFromFdIndex(fd: Fd, id: Ident)
      requires NoDup(Refs(fdIndex, fd))
      requires forall f :: f in fdIndex ==> fdIndex[f] != []
      modifies this`fdIndex
      ensures NoDup(Refs(fdIndex, fd))
      ensures forall x :: x in Refs(fdIndex, fd) <==> x in Refs(old(fdIndex), fd) && x != id
      ensures forall f :: f != fd ==> Refs(fdIndex, f) == Refs(old(fdIndex), f)
      ensures forall f :: f in fdIndex ==> fdIndex[f] != []
    {
      if fd !in fdIndex { return; }
      var refs := EraseFirst(fdIndex[fd], id);
      fdIndex := if refs == [] then fdIndex - {fd} else fdIndex[fd := refs];
    }

    /** addService: a new instance, or a take-over of the one with the same
        logical identity, which keeps its handle.  `displaced` is the former
        control connection when that changed. */
    method AddService(info: ServiceInfo, fd: Fd) returns (handle: u32, displaced: Option<Fd>)
      requires Valid()
      modifies this
      ensures Valid()
      ensures handle == INVALID_HANDLE <==> !Acceptable(info)
      ensures entries == if Acceptable(info) then old(entries)[KeyOf(info) := ServiceEntry(info, handle, fd)]
                         else old(entries)
      ensures Acceptable(info) && KeyOf(info) in old(entries) ==> handle == old(entries)[KeyOf(info)].handle
      ensures displaced == if Acceptable(info) && KeyOf(info) in old(entries) && old(entries)[KeyOf(info)].fd != fd
                           then Some(old(entries)[KeyOf(info)].fd) else None
    {
      hide TableHolds;
      if !Acceptable(info) { return INVALID_HANDLE, None; }
      var id := KeyOf(info);
      var found := FindEntry(id);
      displaced := None;
      if found.Some? {
        handle := found.value.handle;
      } else {
        handle := GenerateHandle();
      }
      var entry := ServiceEntry(info, handle, fd);
      PutHolds(services, entries, id, entry);
      services := Put(services, id, entry);
      entries := entries[id := entry];
      if found.Some? && found.value.fd == fd { return; }
      if found.Some? {
        RemoveFromFdIndex(found.value.fd, id);
        displaced := Some(found.value.fd);
      }
      PushExact(fdIndex, entries, id, fd);
      fdIndex := fdIndex[fd := Refs(fdIndex, fd) + [id]];
    }

    /** removeServiceByIdentity, through removeEntryByName. */
    method RemoveServiceByIdentity(id: Ident) returns (ok: bool)
      requires Valid()
      modifies this`services, this`fdIndex, this`entries
      ensures Valid()
      ensures ok <==> id in old(entries)
      ensures entries == old(entries) - {id}
    {
      hide TableHolds;
      hide IndexExact;
      hide EntriesSound;
      var found := FindEntry(id);
      if found.None? {
        assert entries == entries - {id};
        return false;
      }
      ListsSound(fdIndex, entries, found.value.fd);
      RemoveFromFdIndex(found.value.fd, id);
      DropOneExact(old(fdIndex), fdIndex, entries, id);
      EraseHolds(services, entries, id);
      services := Erase(services, id);
      entries := entries - {id};
      ok := true;
    }

    /** The loop of removeByFd over the copied reference list. */
    static method EraseAll(table0: Table, ghost entries0: Entries, refs: seq<Ident>)
      returns (table: Table, removed: seq<ServiceIdentity>)
      requires TableHolds(table0, entries0) && NoDup(refs)
      requires forall id :: id in refs ==> id in entries0
      ensures TableHolds(table, entries0 - (set id | id in refs))
      ensures |removed| == |refs|
      ensures forall i :: 0 <= i < |refs| ==> removed[i] == entries0[refs[i]].Identity()
    {
      hide TableHolds;
      table, removed := table0, [];
      ghost var entries := entries0;
      for i := 0 to |refs|
        invariant TableHolds(table, entries)
        invariant |removed| == i
        invariant forall j :: 0 <= j < i ==> removed[j] == entries0[refs[j]].Identity()
        invariant forall id :: id in entries <==> id in entries0 && id !in refs[..i]
        invariant forall id :: id in entries ==> entries[id] == entries0[id]
      {
        assert refs[i] !in refs[..i];
        var id := refs[i];
        EraseHolds(table, entries, id);
        removed := removed + [LookUp(table, entries, id).Identity()];
        table := Erase(table, id);
        entries := entries - {id};
      }
      assert refs[..|refs|] == refs;
      assert entries == entries0 - (set id | id in refs);
    }

    static function LookUp(table: Table, ghost entries: Entries, id: Ident): (e: ServiceEntry)
      requires TableHolds(table, entries) && id in entries
      ensures e == entries[id]
    {
      Row(table, id.name)[id.inst]
    }

    /** removeByFd: every instance the connection owns, each once, in
        registration order. */
    method RemoveByFd(fd: Fd) returns (removed: seq<ServiceIdentity>)
      requires Valid()
      modifies this`services, this`fdIndex, this`entries
      ensures Valid()
      ensures entries == OwnedOutside(old(entries), {fd})
      ensures RemovedFrom(old(entries), fd, removed)
    {
      hide TableHolds;
      hide IndexExact;
      hide EntriesSound;
      hide OwnedOutside;
      hide RemovedFrom;
      DropExact(fdIndex, entries, fd);
      var refs := Refs(fdIndex, fd);
      services, removed := EraseAll(services, entries, refs);
      RefsRemoved(fdIndex, entries, fd, removed);
      fdIndex := fdIndex - {fd};
      entries := entries - (set id | id in refs);
    }

    /** findServiceByFdAndName: the first instance of that name in the
        connection's own list. */
    method FindServiceByFdAndName(fd: Fd, name: Str) returns (r: Option<ServiceEntry>)
      requires Valid()
      ensures r.Some? <==> exists id :: id in entries && id.name == name && entries[id].fd == fd
      ensures r.Some? ==> KeyOf(r.value.info) in entries && entries[KeyOf(r.value.info)] == r.value
      ensures r.Some? ==> r.value.info.name == name && r.value.fd == fd && Acceptable(r.value.info)
    {
      hide TableHolds;
      var refs := Refs(fdIndex, fd);
      for i := 0 to |refs|
        invariant forall j :: 0 <= j < i ==> refs[j].name != name
      {
        if refs[i].name == name {
          r := FindEntry(refs[i]);
          return;
        }
      }
      assert forall id :: id in entries && entries[id].fd == fd ==> id in refs;
      r := None;
    }

    /** findService: some instance of the name. */
    method FindService(name: Str) returns (r: Option<ServiceEntry>)
      requires Valid()
      ensures r.Some? <==> exists id :: id in entries && id.name == name
      ensures r.Some? ==>
                KeyOf(r.value.info) in entries && entries[KeyOf(r.value.info)] == r.value && r.value.info.name == name
    {
      hide IndexExact;
      if name !in services {
        assert forall id :: id in entries ==> id.inst in Row(services, id.name);
        return None;
      }
      var inst := Pick(services[name].Keys);
      assert Ident(name, inst) in entries;
      r := Some(services[name][inst]);
    }

    /** listServiceInstances: the instances of one name, each once. */
    method ListServiceInstances(name: Str) returns (infos: seq<ServiceInfo>)
      requires Valid()
      ensures ListsInstances(infos, entries, name)
    {
      infos := [];
      var row := Row(services, name);
      var todo := row.Keys;
      while todo != {}
        invariant todo <= row.Keys
        invariant forall info :: info in infos <==> exists i :: i in row.Keys - todo && row[i].info == info
        invariant forall info :: info in infos ==> info.inst in row.Keys - todo
        invariant forall i, j :: 0 <= i < j < |infos| ==> KeyOf(infos[i]) != KeyOf(infos[j])
      {
        var inst := Pick(todo);
        assert Ident(name, inst) in entries;
        infos := infos + [row[inst].info];
        todo := todo - {inst};
      }
      assert forall i :: i in row ==> Ident(name, i) in entries;
    }

    /** listServiceNamesByFd(fd).empty(). */
    method OwnsNothing(fd: Fd) returns (nothing: bool)
      requires Valid()
      ensures nothing <==> forall id :: id in entries ==> entries[id].fd != fd
    {
      NoRefsMeansNoneOwned(fdIndex, entries, fd);
      nothing := Refs(fdIndex, fd) == [];
    }
  }

  lemma ValidEntries(r: ServiceRegistry)
    requires r.Valid()
    ensures EntriesSound(r.entries)
  {
  }

  lemma NoRefsMeansNoneOwned(index: FdIndex, entries: Entries, fd: Fd)
    requires IndexExact(index, entries)
    ensures Refs(index, fd) == [] <==> forall id :: id in entries ==> entries[id].fd != fd
  {
    if Refs(index, fd) != [] {
      assert Refs(index, fd)[0] in entries;
    }
  }
}

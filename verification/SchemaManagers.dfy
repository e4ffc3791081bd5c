/** The managers and the state machine as objects changed in place: the inline
    members of namespace_manager.h, zone_manager.h and servlet_manager.h, the
    operations of the three .cc files, on_apply, and SchemaManager::load_snapshot. */
module SchemaManagers {
  import opened Replies
  import opened Wrappers
  import opened Names
  import opened Schema
  import opened SchemaRuns

  /** Empty sets come and go with operator[]; nothing can tell them from absent ones. */
  function NonEmpty(m: map<int, set<int>>): map<int, set<int>> {
    map k | k in m && m[k] != {} :: m[k]
  }

  /** One of the three managers; they differ in their key and in what they number. */
  class Manager {
    const level: Level
    var maxId: int
    var ids: map<string, int>
    var infos: map<int, Info>
    var children: map<int, set<int>>

    function View(): Table
      reads this
    {
      Table(maxId, ids, infos, NonEmpty(children))
    }

    constructor (level: Level)
      ensures this.level == level && View() == EMPTY_TABLE
    {
      this.level := level;
      maxId := 0;
      ids, infos, children := map[], map[], map[];
    }

    method SetMaxId(id: int)
      modifies this`maxId
      ensures View() == old(View()).(maxId := id)
    {
      maxId := id;
    }

    method SetInfo(i: Info)
      modifies this`ids, this`infos
      ensures View() == Schema.SetInfo(level, old(View()), i)
    {
      ids := ids[KeyOf(level, i) := IdOf(level, i)];
      infos := infos[IdOf(level, i) := i];
    }

    method EraseInfo(name: string)
      modifies this`ids, this`infos, this`children
      ensures View() == Schema.EraseInfo(old(View()), name)
    {
      if name !in ids {
        ids := ids[name := 0];
      }
      var id := ids[name];
      ids := ids - {name};
      infos := infos - {id};
      children := children - {id};
    }

    method AddChild(parent: int, child: int)
      modifies this`children
      ensures View() == AddKid(old(View()), parent, child)
    {
      if parent !in children {
        children := children[parent := {}];
      }
      children := children[parent := children[parent] + {child}];
    }

    method DeleteChild(parent: int, child: int)
      modifies this`children
      ensures View() == DeleteKid(old(View()), parent, child)
    {
      if parent in children {
        children := children[parent := children[parent] - {child}];
      }
    }

    /** operator[] on the child sets: reading may leave an empty set behind. */
    method ChildrenOf(id: int) returns (kids: set<int>)
      modifies this`children
      ensures View() == old(View()) && kids == Kids(View(), id)
    {
      if id !in children {
        children := children[id := {}];
      }
      kids := children[id];
    }

    /** operator[] on the info map: reading a missing id inserts a default one. */
    method InfoOf(id: int) returns (info: Info)
      modifies this`infos
      ensures info == InfoAt(old(View()), id)
      ensures View() == old(View()).(infos := old(infos)[id := info])
    {
      if id !in infos {
        infos := infos[id := DEFAULT_INFO];
      }
      info := infos[id];
      assert infos == old(infos)[id := info];
    }

    method LookUp(name: string) returns (id: int)
      ensures id == GetId(View(), name)
    {
      id := 0;
      if name in ids {
        id := ids[name];
      }
    }

    /** operator[] on the id map. */
    method IdAt(name: string) returns (id: int)
      modifies this`ids
      ensures View() == TouchId(old(View()), name) && id == GetId(old(View()), name)
    {
      if name !in ids {
        ids := ids[name := 0];
      }
      id := ids[name];
    }

    /** The counter survives a clear. */
    method Clear()
      modifies this`ids, this`infos, this`children
      ensures View() == EMPTY_TABLE.(maxId := old(maxId))
    {
      ids, infos, children := map[], map[], map[];
    }
  }

  function PutAll(db: Db, puts: seq<(SchemaKey, Value)>): Db
    decreases |puts|
  {
    if puts == [] then db else PutAll(db[puts[0].0 := puts[0].1], puts[1..])
  }

  /** The key-value store: a batch is written whole or not at all. */
  class MetaStore {
    var db: Db

    constructor ()
      ensures db == map[]
    {
      db := map[];
    }

    method Put(puts: seq<(SchemaKey, Value)>, ok: bool) returns (ret: int)
      modifies this
      ensures ok ==> ret == 0 && db == PutAll(old(db), puts)
      ensures !ok ==> ret < 0 && db == old(db)
    {
      if !ok {
        return -1;
      }
      for k := 0 to |puts|
        invariant PutAll(db, puts[k..]) == PutAll(old(db), puts)
      {
        assert puts[k..][1..] == puts[k + 1..];
        db := db[puts[k].0 := puts[k].1];
      }
      ret := 0;
    }

    method Remove(key: SchemaKey, ok: bool) returns (ret: int)
      modifies this
      ensures ok ==> ret == 0 && db == old(db) - {key}
      ensures !ok ==> ret < 0 && db == old(db)
    {
      if !ok {
        return -1;
      }
      db := db - {key};
      ret := 0;
    }
  }

  lemma TouchThenErase(t: Table, name: string)
    ensures Schema.EraseInfo(TouchId(t, name), name) == Schema.EraseInfo(t, name)
  {
    if name !in t.ids {
      assert t.ids[name := 0] - {name} == t.ids - {name};
    }
  }

  lemma PutTwo(db: Db, a: (SchemaKey, Value), b: (SchemaKey, Value))
    ensures PutAll(db, [a]) == db[a.0 := a.1]
    ensures PutAll(db, [a, b]) == db[a.0 := a.1][b.0 := b.1]
  {
    assert [a, b][1..] == [b] && [a][1..] == [] && [b][1..] == [];
    assert PutAll(db[a.0 := a.1], [b]) == db[a.0 := a.1][b.0 := b.1];
  }

  class DiscoveryStateMachine {
    const namespaces: Manager
    const zones: Manager
    const servlets: Manager
    const store: MetaStore

    predicate Shape() {
      namespaces.level == Namespace && zones.level == Zone && servlets.level == Servlet
    }

    function View(): State
      reads namespaces, zones, servlets, store
    {
      State(namespaces.View(), zones.View(), servlets.View(), store.db)
    }

    constructor ()
      ensures Shape() && View() == INIT
      ensures fresh(namespaces) && fresh(zones) && fresh(servlets) && fresh(store)
    {
      namespaces := new Manager(Namespace);
      zones := new Manager(Zone);
      servlets := new Manager(Servlet);
      store := new MetaStore();
    }

    /** The settings a modify request sets. */
    static method Modified(was: Attrs, asked: Attrs) returns (attrs: Attrs)
      ensures attrs == ModifyAttrs(was, asked)
    {
      attrs := was;
      if asked.quota.Some? {
        attrs := attrs.(quota := asked.quota);
      }
      if asked.resourceTag.Some? {
        attrs := attrs.(resourceTag := asked.resourceTag);
      }
      if asked.byteSizePerRecord.Some? {
        attrs := attrs.(byteSizePerRecord := asked.byteSizePerRecord);
      }
      if asked.replicaNum.Some? {
        attrs := attrs.(replicaNum := asked.replicaNum);
      }
      if asked.regionSplitLines.Some? {
        attrs := attrs.(regionSplitLines := asked.regionSplitLines);
      }
    }

    /** The settings a new zone is left with. */
    static method Inherited(own: Attrs, parent: Attrs) returns (attrs: Attrs)
      ensures attrs == InheritAttrs(own, parent)
    {
      attrs := own;
      if attrs.resourceTag.None? && parent.resourceTag.Some? && parent.resourceTag.value != "" {
        attrs := attrs.(resourceTag := parent.resourceTag);
      }
      if attrs.byteSizePerRecord.None? && parent.byteSizePerRecord.Some? {
        attrs := attrs.(byteSizePerRecord := parent.byteSizePerRecord);
      }
      if attrs.replicaNum.None? && parent.replicaNum.Some? {
        attrs := attrs.(replicaNum := parent.replicaNum);
      }
      if attrs.regionSplitLines.None? && parent.regionSplitLines.Some? {
        attrs := attrs.(regionSplitLines := parent.regionSplitLines);
      }
    }

    method CreateNamespace(i: Info, ok: bool) returns (reply: Reply)
      requires Shape()
      modifies namespaces, store
      ensures (View(), reply) == DoCreateNamespace(old(View()), i, ok)
    {
      if i.namespaceName in namespaces.ids {
        return Refuse("namespace already existed");
      }
      var id := namespaces.maxId + 1;
      var info := i.(namespaceId := id, version := 1);
      PutTwo(store.db, (NamespaceKey(id), InfoValue(info)), (MaxNamespaceId, IdValue(id)));
      var ret := store.Put([(NamespaceKey(id), InfoValue(info)), (MaxNamespaceId, IdValue(id))], ok);
      if ret < 0 {
        return WRITE_FAIL;
      }
      namespaces.SetInfo(info);
      namespaces.SetMaxId(id);
      reply := DONE;
    }

    method DropNamespace(i: Info, ok: bool) returns (reply: Reply)
      requires Shape()
      modifies namespaces, store
      ensures (View(), reply) == DoDropNamespace(old(View()), i, ok)
    {
      if i.namespaceName !in namespaces.ids {
        return Refuse("namespace not exist");
      }
      var id := namespaces.ids[i.namespaceName];
      var kids := namespaces.ChildrenOf(id);
      if kids != {} {
        return Refuse("namespace has servlet");
      }
      var ret := store.Remove(NamespaceKey(id), ok);
      if ret < 0 {
        return WRITE_FAIL;
      }
      namespaces.EraseInfo(i.namespaceName);
      reply := DONE;
    }

    method ModifyNamespace(i: Info, ok: bool) returns (reply: Reply)
      requires Shape()
      modifies namespaces, store
      ensures (View(), reply) == DoModifyNamespace(old(View()), i, ok)
    {
      if i.namespaceName !in namespaces.ids {
        return Refuse("namespace not exist");
      }
      var id := namespaces.ids[i.namespaceName];
      var info := namespaces.InfoOf(id);
      var attrs := Modified(info.attrs, i.attrs);
      info := info.(attrs := attrs, version := info.version + 1);
      PutTwo(store.db, (NamespaceKey(id), InfoValue(info)), (NamespaceKey(id), InfoValue(info)));
      var ret := store.Put([(NamespaceKey(id), InfoValue(info))], ok);
      if ret < 0 {
        return WRITE_FAIL;
      }
      namespaces.SetInfo(info);
      reply := DONE;
    }

    method CreateZone(i: Info, ok: bool) returns (reply: Reply)
      requires Shape()
      modifies namespaces, zones, store
      ensures (View(), reply) == DoCreateZone(old(View()), i, ok)
    {
      var nsId := namespaces.LookUp(i.namespaceName);
      if nsId == 0 {
        return Refuse("namespace not exist");
      }
      if ZoneKeyOf(i) in zones.ids {
        return Refuse("zone already exist");
      }
      var id := zones.maxId + 1;
      var info := i.(zoneId := id, namespaceId := nsId);
      if nsId in namespaces.infos {
        var attrs := Inherited(info.attrs, namespaces.infos[nsId].attrs);
        info := info.(attrs := attrs);
      }
      info := info.(version := 1);
      assert info == NewZone(View(), i);
      PutTwo(store.db, (ZoneKey(id), InfoValue(info)), (MaxZoneId, IdValue(id)));
      var ret := store.Put([(ZoneKey(id), InfoValue(info)), (MaxZoneId, IdValue(id))], ok);
      if ret < 0 {
        return WRITE_FAIL;
      }
      zones.SetInfo(info);
      zones.SetMaxId(id);
      namespaces.AddChild(nsId, id);
      reply := DONE;
    }

    method DropZone(i: Info, ok: bool) returns (reply: Reply)
      requires Shape()
      modifies namespaces, zones, store
      ensures (View(), reply) == DoDropZone(old(View()), i, ok)
    {
      var nsId := namespaces.LookUp(i.namespaceName);
      if nsId == 0 {
        return Refuse("namespace not exist");
      }
      if ZoneKeyOf(i) !in zones.ids {
        return Refuse("zone not exist");
      }
      var id := zones.ids[ZoneKeyOf(i)];
      var kids := zones.ChildrenOf(id);
      if kids != {} {
        return Refuse("zone has servlet");
      }
      var ret := store.Remove(ZoneKey(id), ok);
      if ret < 0 {
        return WRITE_FAIL;
      }
      zones.EraseInfo(ZoneKeyOf(i));
      namespaces.DeleteChild(nsId, id);
      reply := DONE;
    }

    method ModifyZone(i: Info, ok: bool) returns (reply: Reply)
      requires Shape()
      modifies zones, store
      ensures (View(), reply) == DoModifyZone(old(View()), i, ok)
    {
      var nsId := namespaces.LookUp(i.namespaceName);
      if nsId == 0 {
        return Refuse("namespace not exist");
      }
      if ZoneKeyOf(i) !in zones.ids {
        return Refuse("zone not exist");
      }
      var id := zones.ids[ZoneKeyOf(i)];
      var info := zones.InfoOf(id);
      var attrs := Modified(info.attrs, i.attrs);
      info := info.(attrs := attrs, version := info.version + 1);
      PutTwo(store.db, (ZoneKey(id), InfoValue(info)), (ZoneKey(id), InfoValue(info)));
      var ret := store.Put([(ZoneKey(id), InfoValue(info))], ok);
      if ret < 0 {
        return WRITE_FAIL;
      }
      zones.SetInfo(info);
      reply := DONE;
    }

    method CreateServlet(v: Variant, i: Info, ok: bool) returns (reply: Reply)
      requires Shape()
      modifies zones, servlets, store
      ensures (View(), reply) == DoCreateServlet(v, old(View()), i, ok)
    {
      var nsId := namespaces.LookUp(i.namespaceName);
      if nsId == 0 {
        return Refuse("namespace not exist");
      }
      var zoneId := zones.LookUp(ZoneKeyOf(i));
      if zoneId == 0 {
        return Refuse("zone not exist");
      }
      if KeyOf(Servlet, i) in servlets.ids {
        return Refuse("servlet already exist");
      }
      var id := servlets.maxId + 1;
      var info := i.(servletId := id, zoneId := zoneId, namespaceId := nsId);
      if nsId in namespaces.infos {
        var tag := namespaces.infos[nsId].attrs.resourceTag;
        if info.attrs.resourceTag.None? && tag.Some? && tag.value != "" {
          info := info.(attrs := info.attrs.(resourceTag := tag));
        }
      }
      info := info.(version := 1);
      assert info == NewServlet(View(), i);
      PutTwo(store.db, (ServletKey(id), InfoValue(info)), (MaxServletId, IdValue(id)));
      var ret := store.Put([(ServletKey(id), InfoValue(info)), (MaxServletId, IdValue(id))], ok);
      if ret < 0 {
        return WRITE_FAIL;
      }
      servlets.SetInfo(info);
      servlets.SetMaxId(id);
      zones.AddChild(if v.AsWritten? then nsId else zoneId, id);
      reply := DONE;
    }

    method DropServlet(v: Variant, i: Info, ok: bool) returns (reply: Reply)
      requires Shape()
      modifies zones, servlets, store
      ensures (View(), reply) == DoDropServlet(v, old(View()), i, ok)
    {
      var nsId := namespaces.LookUp(i.namespaceName);
      if nsId == 0 {
        return Refuse("namespace not exist");
      }
      var zoneId := zones.LookUp(ZoneKeyOf(i));
      if zoneId == 0 {
        return Refuse("namespace not exist");
      }
      if (if v.AsWritten? then ZoneKeyOf(i) else KeyOf(Servlet, i)) !in servlets.ids {
        return Refuse("zone not exist");
      }
      ghost var before := servlets.View();
      var id := servlets.IdAt(KeyOf(Servlet, i));
      var ret := store.Remove(ServletKey(if v.AsWritten? then zoneId else id), ok);
      if ret < 0 {
        return WRITE_FAIL;
      }
      TouchThenErase(before, KeyOf(Servlet, i));
      servlets.EraseInfo(KeyOf(Servlet, i));
      zones.DeleteChild(zoneId, id);
      reply := DONE;
    }

    method ModifyServlet(v: Variant, i: Info, ok: bool) returns (reply: Reply)
      requires Shape()
      modifies servlets, store
      ensures (View(), reply) == DoModifyServlet(v, old(View()), i, ok)
    {
      var nsId := namespaces.LookUp(i.namespaceName);
      if nsId == 0 {
        return Refuse("namespace not exist");
      }
      var zoneId := zones.LookUp(ZoneKeyOf(i));
      if zoneId == 0 {
        return Refuse("namespace not exist");
      }
      if KeyOf(Servlet, i) !in servlets.ids {
        return Refuse("zone not exist");
      }
      var id := servlets.ids[KeyOf(Servlet, i)];
      var info := servlets.InfoOf(if v.AsWritten? then zoneId else id);
      info := info.(version := info.version + 1);
      if i.attrs.resourceTag.Some? {
        info := info.(attrs := info.attrs.(resourceTag := i.attrs.resourceTag));
      }
      PutTwo(store.db, (ServletKey(id), InfoValue(info)), (ServletKey(id), InfoValue(info)));
      var ret := store.Put([(ServletKey(id), InfoValue(info))], ok);
      if ret < 0 {
        return WRITE_FAIL;
      }
      servlets.SetInfo(info);
      reply := DONE;
    }

    /** The switch of on_apply. */
    method ApplyOne(v: Variant, r: Request) returns (reply: Reply)
      requires Shape()
      modifies namespaces, zones, servlets, store
      ensures (View(), reply) == Apply(v, old(View()), r)
    {
      hide DoCreateNamespace, DoDropNamespace, DoModifyNamespace;
      hide DoCreateZone, DoDropZone, DoModifyZone;
      hide DoCreateServlet, DoDropServlet, DoModifyServlet;
      match r.op {
        case CreateNamespace => reply := CreateNamespace(r.info, r.ok);
        case DropNamespace => reply := DropNamespace(r.info, r.ok);
        case ModifyNamespace => reply := ModifyNamespace(r.info, r.ok);
        case CreateZone => reply := CreateZone(r.info, r.ok);
        case DropZone => reply := DropZone(r.info, r.ok);
        case ModifyZone => reply := ModifyZone(r.info, r.ok);
        case CreateServlet => reply := CreateServlet(v, r.info, r.ok);
        case DropServlet => reply := DropServlet(v, r.info, r.ok);
        case ModifyServlet => reply := ModifyServlet(v, r.info, r.ok);
      }
    }

    /** The loop of on_apply over committed entries. */
    method OnApply(v: Variant, log: seq<Request>) returns (replies: seq<Reply>)
      requires Shape()
      modifies namespaces, zones, servlets, store
      ensures (View(), replies) == Run(v, old(View()), log)
    {
      hide Apply;
      replies := [];
      for k := 0 to |log|
        invariant Run(v, View(), log[k..]).0 == Run(v, old(View()), log).0
        invariant replies + Run(v, View(), log[k..]).1 == Run(v, old(View()), log).1
      {
        var reply := ApplyOne(v, log[k]);
        assert log[k..][1..] == log[k + 1..];
        replies := replies + [reply];
      }
      assert log[|log|..] == [] && replies + [] == replies;
    }

    /** One turn of the loading loop: the key's class says whose entry it is. */
    method LoadEntry(k: SchemaKey)
      requires Shape() && k in store.db && CounterKey(k, store.db[k])
      modifies namespaces, zones, servlets
      ensures View() == LoadOne(old(View()), k)
    {
      var value := store.db[k];
      match k {
        case ZoneKey(_) =>
          zones.SetInfo(value.info);
          namespaces.AddChild(value.info.namespaceId, value.info.zoneId);
        case ServletKey(_) =>
          servlets.SetInfo(value.info);
          zones.AddChild(value.info.zoneId, value.info.servletId);
        case NamespaceKey(_) => namespaces.SetInfo(value.info);
        case MaxNamespaceId => namespaces.SetMaxId(value.id);
        case MaxZoneId => zones.SetMaxId(value.id);
        case MaxServletId => servlets.SetMaxId(value.id);
      }
    }

    /** SchemaManager::load_snapshot: clear the memory, then take the store's
        entries one by one. The loop picks them in any order and always ends
        with the memory that wrote the store, but for counters that the store
        does not have: a clear leaves them alone. */
    method LoadSnapshot(ghost source: State)
      requires Shape() && Inv(source) && store.db == source.db
      modifies namespaces, zones, servlets
      ensures View() == LoadedState(source, old(View()))
    {
      ghost var was := View();
      ClearAll(source);
      hide Inv, Partly, LoadOne, LoadedState, CounterKey;
      var left := store.db.Keys;
      while left != {}
        invariant left <= store.db.Keys && store.db == source.db
        invariant Partly(View(), source, left, was)
        decreases left
      {
        var k :| k in left;
        KnownKey(source, k);
        LoadOneMore(View(), source, left, was, k);
        LoadEntry(k);
        left := left - {k};
      }
      WhollyLoaded(View(), source, left, was);
    }

    method ClearAll(ghost source: State)
      requires Shape() && Inv(source) && store.db == source.db
      modifies namespaces, zones, servlets
      ensures Partly(View(), source, store.db.Keys, old(View()))
    {
      ghost var was := View();
      namespaces.Clear();
      zones.Clear();
      servlets.Clear();
      ClearedIsPartly(View(), source, was);
      hide Inv, Partly;
    }
  }

  // ---- loading

  /** Counters are stored under the counters' keys and nowhere else. */
  predicate CounterKey(k: SchemaKey, v: Value) {
    v.IdValue? <==> k.MaxNamespaceId? || k.MaxZoneId? || k.MaxServletId?
  }

  /** What taking one entry of the store does. */
  function LoadOne(s: State, k: SchemaKey): State
    requires k in s.db && CounterKey(k, s.db[k])
  {
    var v := s.db[k];
    match k
    case ZoneKey(_) => s.(zone := Schema.SetInfo(Zone, s.zone, v.info), ns := AddKid(s.ns, v.info.namespaceId, v.info.zoneId))
    case ServletKey(_) =>
      s.(servlet := Schema.SetInfo(Servlet, s.servlet, v.info), zone := AddKid(s.zone, v.info.zoneId, v.info.servletId))
    case NamespaceKey(_) => s.(ns := Schema.SetInfo(Namespace, s.ns, v.info))
    case MaxNamespaceId => s.(ns := s.ns.(maxId := v.id))
    case MaxZoneId => s.(zone := s.zone.(maxId := v.id))
    case MaxServletId => s.(servlet := s.servlet.(maxId := v.id))
  }

  /** Every key of a reachable store belongs to an entry of one level or to a counter. */
  lemma KnownKey(source: State, k: SchemaKey)
    requires Inv(source) && k in source.db
    ensures CounterKey(k, source.db[k])
    ensures match k
            case NamespaceKey(id) => id in source.ns.infos && source.db[k].info == source.ns.infos[id]
            case ZoneKey(id) => id in source.zone.infos && source.db[k].info == source.zone.infos[id]
            case ServletKey(id) => id in source.servlet.infos && source.db[k].info == source.servlet.infos[id]
            case MaxNamespaceId => source.db[k].id == source.ns.maxId != 0
            case MaxZoneId => source.db[k].id == source.zone.maxId != 0
            case MaxServletId => source.db[k].id == source.servlet.maxId != 0
  {
    match k
    case NamespaceKey(id) => assert StoreKey(Namespace, id) == k;
    case ZoneKey(id) => assert StoreKey(Zone, id) == k;
    case ServletKey(id) => assert StoreKey(Servlet, id) == k;
    case MaxNamespaceId => assert MaxKey(Namespace) == k;
    case MaxZoneId => assert MaxKey(Zone) == k;
    case MaxServletId => assert MaxKey(Servlet) == k;
  }

  /** A counter that the store has is loaded; one that it has not stays. */
  function CounterAfter(full: Table, was: Table): int {
    if full.maxId != 0 then full.maxId else was.maxId
  }

  /** A table as loaded on a node whose own table was that. */
  function LoadedTable(full: Table, was: Table): Table {
    full.(maxId := CounterAfter(full, was))
  }

  function LoadedState(source: State, was: State): State {
    State(LoadedTable(source.ns, was.ns), LoadedTable(source.zone, was.zone), LoadedTable(source.servlet, was.servlet),
          source.db)
  }

  /** The counters of a node that is not ahead of the store it loads. */
  predicate FreshCounters(source: State, was: State) {
    && (source.ns.maxId == 0 ==> was.ns.maxId == 0)
    && (source.zone.maxId == 0 ==> was.zone.maxId == 0)
    && (source.servlet.maxId == 0 ==> was.servlet.maxId == 0)
  }

  /** Loading brings back the source exactly on such a node. */
  lemma LoadedIsSource(source: State, was: State)
    ensures LoadedState(source, was) == source <==> FreshCounters(source, was)
  {
  }

  /** t holds those entries of the full table whose keys are no longer left. */
  ghost predicate PartTable(l: Level, t: Table, full: Table, left: set<SchemaKey>, was: Table) {
    && (forall id :: id in t.infos <==> id in full.infos && StoreKey(l, id) !in left)
    && (forall id :: id in t.infos ==> t.infos[id] == full.infos[id])
    && (forall n :: n in t.ids <==> n in full.ids && StoreKey(l, full.ids[n]) !in left)
    && (forall n :: n in t.ids ==> t.ids[n] == full.ids[n])
    && (MaxKey(l) in left || t.maxId == CounterAfter(full, was))
    && (full.maxId == 0 ==> t.maxId == was.maxId)
  }

  ghost predicate PartKids(l: Level, parents: Table, full: Table, left: set<SchemaKey>) {
    && (forall p, c :: c in Kids(parents, p) <==> c in Kids(full, p) && StoreKey(l, c) !in left)
    && (forall p :: p in parents.children ==> parents.children[p] != {})
  }

  ghost predicate Partly(s: State, source: State, left: set<SchemaKey>, was: State) {
    && s.db == source.db && s.servlet.children == map[]
    && PartTable(Namespace, s.ns, source.ns, left, was.ns)
    && PartTable(Zone, s.zone, source.zone, left, was.zone)
    && PartTable(Servlet, s.servlet, source.servlet, left, was.servlet)
    && PartKids(Zone, s.ns, source.ns, left)
    && PartKids(Servlet, s.zone, source.zone, left)
  }

  lemma ClearedIsPartly(s: State, source: State, was: State)
    requires Inv(source) && s.db == source.db
    requires s.ns == EMPTY_TABLE.(maxId := was.ns.maxId)
    requires s.zone == EMPTY_TABLE.(maxId := was.zone.maxId)
    requires s.servlet == EMPTY_TABLE.(maxId := was.servlet.maxId)
    ensures Partly(s, source, s.db.Keys, was)
  {
    ClearedTable(Namespace, s.ns, source.ns, s.db, was.ns);
    ClearedTable(Zone, s.zone, source.zone, s.db, was.zone);
    ClearedTable(Servlet, s.servlet, source.servlet, s.db, was.servlet);
    ClearedKids(Zone, Namespace, s.ns, source.ns, source.zone, s.db);
    ClearedKids(Servlet, Zone, s.zone, source.zone, source.servlet, s.db);
  }

  lemma ClearedTable(l: Level, t: Table, full: Table, db: Db, was: Table)
    requires TableOk(l, full) && Stored(l, full, db) && t == EMPTY_TABLE.(maxId := was.maxId)
    ensures PartTable(l, t, full, db.Keys, was)
  {
    forall n | n in full.ids ensures StoreKey(l, full.ids[n]) in db.Keys {
    }
  }

  lemma ClearedKids(l: Level, up: Level, parents: Table, fullParents: Table, full: Table, db: Db)
    requires Linked(l, up, fullParents, full) && Stored(l, full, db) && parents.children == map[]
    ensures PartKids(l, parents, fullParents, db.Keys)
  {
    forall p, c | c in Kids(fullParents, p) ensures StoreKey(l, c) in db.Keys {
    }
  }

  lemma PartInsert(l: Level, t: Table, full: Table, left: set<SchemaKey>, was: Table, id: int)
    requires TableOk(l, full) && PartTable(l, t, full, left, was) && id in full.infos
    ensures PartTable(l, Schema.SetInfo(l, t, full.infos[id]), full, left - {StoreKey(l, id)}, was)
  {
    var i := full.infos[id];
    var t' := Schema.SetInfo(l, t, i);
    forall x ensures StoreKey(l, x) == StoreKey(l, id) <==> x == id {
    }
    forall n | n in full.ids && full.ids[n] == id ensures n == KeyOf(l, i) {
    }
  }

  lemma PartAside(l: Level, t: Table, full: Table, left: set<SchemaKey>, was: Table, k: SchemaKey, kids: map<int, set<int>>)
    requires PartTable(l, t, full, left, was)
    requires k != MaxKey(l) && forall id :: k != StoreKey(l, id)
    ensures PartTable(l, t.(children := kids), full, left - {k}, was)
  {
  }

  lemma KidsInsert(l: Level, parents: Table, full: Table, left: set<SchemaKey>, p: int, c: int)
    requires PartKids(l, parents, full, left) && c in Kids(full, p)
    requires forall q :: c in Kids(full, q) ==> q == p
    ensures PartKids(l, AddKid(parents, p, c), full, left - {StoreKey(l, c)})
  {
    var parents' := AddKid(parents, p, c);
    forall q, x ensures x in Kids(parents', q) <==> x in Kids(full, q) && StoreKey(l, x) !in left - {StoreKey(l, c)} {
      assert x in Kids(parents, q) <==> x in Kids(full, q) && StoreKey(l, x) !in left;
      assert StoreKey(l, x) == StoreKey(l, c) <==> x == c;
    }
  }

  lemma KidsAside(l: Level, parents: Table, full: Table, left: set<SchemaKey>, k: SchemaKey, t: Table)
    requires PartKids(l, parents, full, left) && (forall id :: k != StoreKey(l, id)) && t.children == parents.children
    ensures PartKids(l, t, full, left - {k})
  {
    forall q, x ensures x in Kids(t, q) <==> x in Kids(full, q) && StoreKey(l, x) !in left - {k} {
      assert x in Kids(parents, q) <==> x in Kids(full, q) && StoreKey(l, x) !in left;
    }
  }

  lemma LoadNamespace(s: State, source: State, left: set<SchemaKey>, was: State, id: int)
    requires TableOk(Namespace, source.ns) && Partly(s, source, left, was) && id in source.ns.infos
    ensures Partly(s.(ns := Schema.SetInfo(Namespace, s.ns, source.ns.infos[id])), source, left - {NamespaceKey(id)}, was)
  {
    hide PartTable, PartKids, TableOk;
    var k, ns := NamespaceKey(id), Schema.SetInfo(Namespace, s.ns, source.ns.infos[id]);
    PartInsert(Namespace, s.ns, source.ns, left, was.ns, id);
    PartAside(Zone, s.zone, source.zone, left, was.zone, k, s.zone.children);
    PartAside(Servlet, s.servlet, source.servlet, left, was.servlet, k, s.servlet.children);
    KidsAside(Zone, s.ns, source.ns, left, k, ns);
    KidsAside(Servlet, s.zone, source.zone, left, k, s.zone);
  }

  lemma LoadZone(s: State, source: State, left: set<SchemaKey>, was: State, id: int, p: int)
    requires TableOk(Zone, source.zone) && Partly(s, source, left, was) && id in source.zone.infos
    requires id in Kids(source.ns, p) && forall q :: id in Kids(source.ns, q) ==> q == p
    ensures Partly(s.(zone := Schema.SetInfo(Zone, s.zone, source.zone.infos[id]), ns := AddKid(s.ns, p, id)),
                   source, left - {ZoneKey(id)}, was)
  {
    hide PartTable, PartKids, TableOk;
    var k := ZoneKey(id);
    var zone, ns := Schema.SetInfo(Zone, s.zone, source.zone.infos[id]), AddKid(s.ns, p, id);
    PartInsert(Zone, s.zone, source.zone, left, was.zone, id);
    PartAside(Namespace, s.ns, source.ns, left, was.ns, k, ns.children);
    PartAside(Servlet, s.servlet, source.servlet, left, was.servlet, k, s.servlet.children);
    KidsInsert(Zone, s.ns, source.ns, left, p, id);
    KidsAside(Servlet, s.zone, source.zone, left, k, zone);
  }

  lemma LoadServlet(s: State, source: State, left: set<SchemaKey>, was: State, id: int, p: int)
    requires TableOk(Servlet, source.servlet) && Partly(s, source, left, was) && id in source.servlet.infos
    requires id in Kids(source.zone, p) && forall q :: id in Kids(source.zone, q) ==> q == p
    ensures Partly(s.(servlet := Schema.SetInfo(Servlet, s.servlet, source.servlet.infos[id]), zone := AddKid(s.zone, p, id)),
                   source, left - {ServletKey(id)}, was)
  {
    hide PartTable, PartKids, TableOk;
    var k := ServletKey(id);
    var zone := AddKid(s.zone, p, id);
    PartInsert(Servlet, s.servlet, source.servlet, left, was.servlet, id);
    PartAside(Namespace, s.ns, source.ns, left, was.ns, k, s.ns.children);
    PartAside(Zone, s.zone, source.zone, left, was.zone, k, zone.children);
    KidsInsert(Servlet, s.zone, source.zone, left, p, id);
    KidsAside(Zone, s.ns, source.ns, left, k, s.ns);
  }

  lemma MaxInsert(l: Level, t: Table, full: Table, left: set<SchemaKey>, was: Table)
    requires PartTable(l, t, full, left, was) && full.maxId != 0
    ensures PartTable(l, t.(maxId := full.maxId), full, left - {MaxKey(l)}, was)
  {
  }

  /** The counter of another level. */
  lemma MaxAside(l: Level, t: Table, full: Table, left: set<SchemaKey>, was: Table, other: Level)
    requires PartTable(l, t, full, left, was) && l != other
    ensures PartTable(l, t, full, left - {MaxKey(other)}, was)
  {
  }

  lemma LoadMax(s: State, source: State, left: set<SchemaKey>, was: State, l: Level)
    requires Partly(s, source, left, was)
    requires (match l case Namespace => source.ns case Zone => source.zone case Servlet => source.servlet).maxId != 0
    ensures var t := match l
                     case Namespace => s.(ns := s.ns.(maxId := source.ns.maxId))
                     case Zone => s.(zone := s.zone.(maxId := source.zone.maxId))
                     case Servlet => s.(servlet := s.servlet.(maxId := source.servlet.maxId));
            Partly(t, source, left - {MaxKey(l)}, was)
  {
    hide PartTable, PartKids;
    var k := MaxKey(l);
    KidsAside(Zone, s.ns, source.ns, left, k, if l.Namespace? then s.ns.(maxId := source.ns.maxId) else s.ns);
    KidsAside(Servlet, s.zone, source.zone, left, k, if l.Zone? then s.zone.(maxId := source.zone.maxId) else s.zone);
    if l.Namespace? { MaxInsert(l, s.ns, source.ns, left, was.ns); } else { MaxAside(Namespace, s.ns, source.ns, left, was.ns, l); }
    if l.Zone? { MaxInsert(l, s.zone, source.zone, left, was.zone); } else { MaxAside(Zone, s.zone, source.zone, left, was.zone, l); }
    if l.Servlet? { MaxInsert(l, s.servlet, source.servlet, left, was.servlet); } else { MaxAside(Servlet, s.servlet, source.servlet, left, was.servlet, l); }
  }

  /** Every entry is listed by its parent and by no other. */
  lemma OneParent(l: Level, up: Level, parents: Table, t: Table, id: int)
    requires Linked(l, up, parents, t) && id in t.infos
    ensures id in Kids(parents, ParentId(l, t.infos[id]))
    ensures forall q :: id in Kids(parents, q) ==> q == ParentId(l, t.infos[id])
  {
  }

  lemma LoadOneMore(s: State, source: State, left: set<SchemaKey>, was: State, k: SchemaKey)
    requires Inv(source) && Partly(s, source, left, was) && k in left && k in s.db
    requires CounterKey(k, s.db[k])
    ensures Partly(LoadOne(s, k), source, left - {k}, was)
  {
    hide PartTable, PartKids, Linked, Stored, MakeZoneKey, MakeServletKey;
    KnownKey(source, k);
    assert s.db == source.db;
    match k
    case NamespaceKey(id) => LoadNamespace(s, source, left, was, id);
    case ZoneKey(id) =>
      OneParent(Zone, Namespace, source.ns, source.zone, id);
      assert source.zone.infos[id].zoneId == id by { assert IdOf(Zone, source.zone.infos[id]) == id; }
      LoadZone(s, source, left, was, id, source.zone.infos[id].namespaceId);
    case ServletKey(id) =>
      OneParent(Servlet, Zone, source.zone, source.servlet, id);
      assert source.servlet.infos[id].servletId == id by { assert IdOf(Servlet, source.servlet.infos[id]) == id; }
      LoadServlet(s, source, left, was, id, source.servlet.infos[id].zoneId);
    case MaxNamespaceId => LoadMax(s, source, left, was, Namespace);
    case MaxZoneId => LoadMax(s, source, left, was, Zone);
    case MaxServletId => LoadMax(s, source, left, was, Servlet);
  }

  lemma WholeTable(l: Level, t: Table, full: Table, left: set<SchemaKey>, was: Table)
    requires PartTable(l, t, full, left, was) && left == {}
    ensures t.infos == full.infos && t.ids == full.ids && t.maxId == CounterAfter(full, was)
  {
    forall id | id in full.infos ensures id in t.infos {
      assert StoreKey(l, id) !in left;
    }
    forall id | id in t.infos ensures id in full.infos && t.infos[id] == full.infos[id] {
      assert StoreKey(l, id) !in left;
    }
    assert t.infos.Keys == full.infos.Keys;
    forall n | n in full.ids ensures n in t.ids {
      assert StoreKey(l, full.ids[n]) !in left;
    }
    assert t.ids.Keys == full.ids.Keys;
  }

  lemma SameKids(l: Level, parents: Table, full: Table, left: set<SchemaKey>, p: int)
    requires PartKids(l, parents, full, left) && left == {}
    ensures Kids(parents, p) == Kids(full, p)
  {
    hide Kids;
    forall c ensures c in Kids(parents, p) <==> c in Kids(full, p) {
      assert StoreKey(l, c) !in left;
    }
  }

  lemma WholeKids(l: Level, parents: Table, full: Table, left: set<SchemaKey>)
    requires PartKids(l, parents, full, left) && left == {}
    requires forall p :: p in full.children ==> full.children[p] != {}
    ensures parents.children == full.children
  {
    forall p | p in parents.children ensures p in full.children && full.children[p] == parents.children[p] {
      SameKids(l, parents, full, left, p);
    }
    forall p | p in full.children ensures p in parents.children {
      SameKids(l, parents, full, left, p);
    }
  }

  lemma WhollyLoaded(s: State, source: State, left: set<SchemaKey>, was: State)
    requires Inv(source) && Partly(s, source, left, was) && left == {}
    ensures s == LoadedState(source, was)
  {
    WholeTable(Namespace, s.ns, source.ns, left, was.ns);
    WholeTable(Zone, s.zone, source.zone, left, was.zone);
    WholeTable(Servlet, s.servlet, source.servlet, left, was.servlet);
    WholeKids(Zone, s.ns, source.ns, left);
    WholeKids(Servlet, s.zone, source.zone, left);
  }
}

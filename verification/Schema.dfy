/** Namespaces, zones and servlets: what one applied log entry does to the
    managers' maps and to the store, and what every run of entries keeps. */
module Schema {
  import opened Replies
  import opened Wrappers
  import opened Names

  // ---- data

  /** The optional settings of an entry; absent is None. */
  datatype Attrs = Attrs(
    quota: Option<int>,
    resourceTag: Option<string>,
    byteSizePerRecord: Option<int>,
    replicaNum: Option<int>,
    regionSplitLines: Option<int>)

  const NO_ATTRS := Attrs(None, None, None, None, None)

  datatype Level = Namespace | Zone | Servlet

  /** A namespace, zone or servlet message; a level uses the fields down to its own. */
  datatype Info = Info(
    namespaceName: string, zone: string, servletName: string,
    namespaceId: int, zoneId: int, servletId: int,
    version: int,
    attrs: Attrs)

  /** What operator[] of an info map inserts for a missing id. */
  const DEFAULT_INFO := Info("", "", "", 0, 0, 0, 0, NO_ATTRS)

  function IdOf(l: Level, i: Info): int {
    match l case Namespace => i.namespaceId case Zone => i.zoneId case Servlet => i.servletId
  }

  function ParentId(l: Level, i: Info): int {
    match l case Namespace => 0 case Zone => i.namespaceId case Servlet => i.zoneId
  }

  function ZoneKeyOf(i: Info): string {
    MakeZoneKey(i.namespaceName, i.zone)
  }

  /** The name a level's id map is keyed by. */
  function KeyOf(l: Level, i: Info): string {
    match l
    case Namespace => i.namespaceName
    case Zone => ZoneKeyOf(i)
    case Servlet => MakeServletKey(ZoneKeyOf(i), i.servletName)
  }

  function ParentKey(l: Level, i: Info): string {
    match l case Namespace => "" case Zone => i.namespaceName case Servlet => ZoneKeyOf(i)
  }

  /** What clients check before sending: no separator inside a parent's name. */
  predicate CleanInfo(l: Level, i: Info) {
    match l
    case Namespace => true
    case Zone => Clean(i.namespaceName)
    case Servlet => Clean(i.namespaceName) && Clean(i.zone)
  }

  /** One manager's memory. Children sets that are empty are not told apart from absent ones. */
  datatype Table = Table(maxId: int, ids: map<string, int>, infos: map<int, Info>, children: map<int, set<int>>)

  const EMPTY_TABLE := Table(0, map[], map[], map[])

  datatype Value = InfoValue(info: Info) | IdValue(id: int)

  type Db = map<SchemaKey, Value>

  datatype State = State(ns: Table, zone: Table, servlet: Table, db: Db)

  const INIT := State(EMPTY_TABLE, EMPTY_TABLE, EMPTY_TABLE, map[])

  function StoreKey(l: Level, id: int): SchemaKey {
    match l case Namespace => NamespaceKey(id) case Zone => ZoneKey(id) case Servlet => ServletKey(id)
  }

  function MaxKey(l: Level): SchemaKey {
    match l case Namespace => MaxNamespaceId case Zone => MaxZoneId case Servlet => MaxServletId
  }

  // ---- the inline helpers of the manager headers

  /** 0 stands for absent. */
  function GetId(t: Table, name: string): int {
    if name in t.ids then t.ids[name] else 0
  }

  function Kids(t: Table, id: int): set<int> {
    if id in t.children then t.children[id] else {}
  }

  function SetInfo(l: Level, t: Table, i: Info): Table {
    t.(ids := t.ids[KeyOf(l, i) := IdOf(l, i)], infos := t.infos[IdOf(l, i) := i])
  }

  function EraseInfo(t: Table, name: string): Table {
    var id := GetId(t, name);
    t.(ids := t.ids - {name}, infos := t.infos - {id}, children := t.children - {id})
  }

  function AddKid(t: Table, parent: int, kid: int): Table {
    t.(children := t.children[parent := Kids(t, parent) + {kid}])
  }

  function DeleteKid(t: Table, parent: int, kid: int): Table {
    var left := Kids(t, parent) - {kid};
    t.(children := if left == {} then t.children - {parent} else t.children[parent := left])
  }

  /** modify_namespace and modify_zone take over every setting that is present. */
  function ModifyAttrs(was: Attrs, asked: Attrs): Attrs {
    Attrs(
      Override(was.quota, asked.quota),
      Override(was.resourceTag, asked.resourceTag),
      Override(was.byteSizePerRecord, asked.byteSizePerRecord),
      Override(was.replicaNum, asked.replicaNum),
      Override(was.regionSplitLines, asked.regionSplitLines))
  }

  /** A tag that was never set reads as "". */
  function InheritTag(own: Attrs, parent: Attrs): Attrs {
    if own.resourceTag.None? && parent.resourceTag.GetOr("") != "" then
      own.(resourceTag := parent.resourceTag)
    else own
  }

  /** create_zone: a new zone takes what it leaves open from its namespace, but no quota. */
  function InheritAttrs(own: Attrs, parent: Attrs): Attrs {
    InheritTag(own, parent).(
      byteSizePerRecord := Override(parent.byteSizePerRecord, own.byteSizePerRecord),
      replicaNum := Override(parent.replicaNum, own.replicaNum),
      regionSplitLines := Override(parent.regionSplitLines, own.regionSplitLines))
  }

  // ---- one log entry

  datatype Op =
    | CreateNamespace | DropNamespace | ModifyNamespace
    | CreateZone | DropZone | ModifyZone
    | CreateServlet | DropServlet | ModifyServlet

  /** ok: whether the store accepts the batch this entry writes. */
  datatype Request = Request(op: Op, info: Info, ok: bool)

  /** The servlet operations name the wrong id at four places of
      servlet_manager.cc. AsWritten is the code; Intended uses the id meant. */
  datatype Variant = AsWritten | Intended

  type Outcome = (State, Reply)

  function DoCreateNamespace(s: State, i: Info, ok: bool): Outcome {
    if i.namespaceName in s.ns.ids then (s, Refuse("namespace already existed"))
    else if !ok then (s, WRITE_FAIL)
    else
      var id := s.ns.maxId + 1;
      var info := i.(namespaceId := id, version := 1);
      (s.(ns := SetInfo(Namespace, s.ns, info).(maxId := id),
          db := s.db[NamespaceKey(id) := InfoValue(info)][MaxNamespaceId := IdValue(id)]), DONE)
  }

  function DoDropNamespace(s: State, i: Info, ok: bool): Outcome {
    if i.namespaceName !in s.ns.ids then (s, Refuse("namespace not exist"))
    else
      var id := s.ns.ids[i.namespaceName];
      if Kids(s.ns, id) != {} then (s, Refuse("namespace has servlet"))
      else if !ok then (s, WRITE_FAIL)
      else (s.(ns := EraseInfo(s.ns, i.namespaceName), db := s.db - {NamespaceKey(id)}), DONE)
  }

  function InfoAt(t: Table, id: int): Info {
    if id in t.infos then t.infos[id] else DEFAULT_INFO
  }

  function DoModifyNamespace(s: State, i: Info, ok: bool): Outcome {
    if i.namespaceName !in s.ns.ids then (s, Refuse("namespace not exist"))
    else
      var id := s.ns.ids[i.namespaceName];
      var was := InfoAt(s.ns, id);
      var t := s.ns.(infos := s.ns.infos[id := was]);
      var info := was.(attrs := ModifyAttrs(was.attrs, i.attrs), version := was.version + 1);
      if !ok then (s.(ns := t), WRITE_FAIL)
      else (s.(ns := SetInfo(Namespace, t, info), db := s.db[NamespaceKey(id) := InfoValue(info)]), DONE)
  }

  function NewZone(s: State, i: Info): Info {
    var nsId := GetId(s.ns, i.namespaceName);
    i.(zoneId := s.zone.maxId + 1, namespaceId := nsId, version := 1,
       attrs := if nsId in s.ns.infos then InheritAttrs(i.attrs, s.ns.infos[nsId].attrs) else i.attrs)
  }

  function DoCreateZone(s: State, i: Info, ok: bool): Outcome {
    var nsId := GetId(s.ns, i.namespaceName);
    if nsId == 0 then (s, Refuse("namespace not exist"))
    else if ZoneKeyOf(i) in s.zone.ids then (s, Refuse("zone already exist"))
    else if !ok then (s, WRITE_FAIL)
    else
      var info := NewZone(s, i);
      (s.(zone := SetInfo(Zone, s.zone, info).(maxId := info.zoneId),
          ns := AddKid(s.ns, nsId, info.zoneId),
          db := s.db[ZoneKey(info.zoneId) := InfoValue(info)][MaxZoneId := IdValue(info.zoneId)]), DONE)
  }

  function DoDropZone(s: State, i: Info, ok: bool): Outcome {
    var nsId := GetId(s.ns, i.namespaceName);
    if nsId == 0 then (s, Refuse("namespace not exist"))
    else if ZoneKeyOf(i) !in s.zone.ids then (s, Refuse("zone not exist"))
    else
      var id := s.zone.ids[ZoneKeyOf(i)];
      if Kids(s.zone, id) != {} then (s, Refuse("zone has servlet"))
      else if !ok then (s, WRITE_FAIL)
      else
        (s.(zone := EraseInfo(s.zone, ZoneKeyOf(i)),
            ns := DeleteKid(s.ns, nsId, id),
            db := s.db - {ZoneKey(id)}), DONE)
  }

  function DoModifyZone(s: State, i: Info, ok: bool): Outcome {
    if GetId(s.ns, i.namespaceName) == 0 then (s, Refuse("namespace not exist"))
    else if ZoneKeyOf(i) !in s.zone.ids then (s, Refuse("zone not exist"))
    else
      var id := s.zone.ids[ZoneKeyOf(i)];
      var was := InfoAt(s.zone, id);
      var t := s.zone.(infos := s.zone.infos[id := was]);
      var info := was.(attrs := ModifyAttrs(was.attrs, i.attrs), version := was.version + 1);
      if !ok then (s.(zone := t), WRITE_FAIL)
      else (s.(zone := SetInfo(Zone, t, info), db := s.db[ZoneKey(id) := InfoValue(info)]), DONE)
  }

  function NewServlet(s: State, i: Info): Info {
    var nsId := GetId(s.ns, i.namespaceName);
    i.(servletId := s.servlet.maxId + 1, zoneId := GetId(s.zone, ZoneKeyOf(i)), namespaceId := nsId, version := 1,
       attrs := if nsId in s.ns.infos then InheritTag(i.attrs, s.ns.infos[nsId].attrs) else i.attrs)
  }

  function DoCreateServlet(v: Variant, s: State, i: Info, ok: bool): Outcome {
    var nsId, zoneId := GetId(s.ns, i.namespaceName), GetId(s.zone, ZoneKeyOf(i));
    if nsId == 0 then (s, Refuse("namespace not exist"))
    else if zoneId == 0 then (s, Refuse("zone not exist"))
    else if KeyOf(Servlet, i) in s.servlet.ids then (s, Refuse("servlet already exist"))
    else if !ok then (s, WRITE_FAIL)
    else
      var info := NewServlet(s, i);
      (s.(servlet := SetInfo(Servlet, s.servlet, info).(maxId := info.servletId),
          zone := AddKid(s.zone, if v.AsWritten? then nsId else zoneId, info.servletId),
          db := s.db[ServletKey(info.servletId) := InfoValue(info)][MaxServletId := IdValue(info.servletId)]), DONE)
  }

  /** operator[] of an id map: a missing name gets the id 0. */
  function TouchId(t: Table, name: string): Table {
    if name in t.ids then t else t.(ids := t.ids[name := 0])
  }

  function DoDropServlet(v: Variant, s: State, i: Info, ok: bool): Outcome {
    var zoneId := GetId(s.zone, ZoneKeyOf(i));
    if GetId(s.ns, i.namespaceName) == 0 then (s, Refuse("namespace not exist"))
    else if zoneId == 0 then (s, Refuse("namespace not exist"))
    else if (if v.AsWritten? then ZoneKeyOf(i) else KeyOf(Servlet, i)) !in s.servlet.ids then
      (s, Refuse("zone not exist"))
    else
      var id := GetId(s.servlet, KeyOf(Servlet, i));
      if !ok then (s.(servlet := TouchId(s.servlet, KeyOf(Servlet, i))), WRITE_FAIL)
      else
        (s.(servlet := EraseInfo(s.servlet, KeyOf(Servlet, i)),
            zone := DeleteKid(s.zone, zoneId, id),
            db := s.db - {ServletKey(if v.AsWritten? then zoneId else id)}), DONE)
  }

  function DoModifyServlet(v: Variant, s: State, i: Info, ok: bool): Outcome {
    var zoneId := GetId(s.zone, ZoneKeyOf(i));
    if GetId(s.ns, i.namespaceName) == 0 then (s, Refuse("namespace not exist"))
    else if zoneId == 0 then (s, Refuse("namespace not exist"))
    else if KeyOf(Servlet, i) !in s.servlet.ids then (s, Refuse("zone not exist"))
    else
      var id := s.servlet.ids[KeyOf(Servlet, i)];
      var from := if v.AsWritten? then zoneId else id;
      var was := InfoAt(s.servlet, from);
      var t := s.servlet.(infos := s.servlet.infos[from := was]);
      if !ok then (s.(servlet := t), WRITE_FAIL)
      else
        var info := was.(attrs := was.attrs.(resourceTag := Override(was.attrs.resourceTag, i.attrs.resourceTag)),
                         version := was.version + 1);
        (s.(servlet := SetInfo(Servlet, t, info), db := s.db[ServletKey(id) := InfoValue(info)]), DONE)
  }

  /** The dispatch of DiscoveryStateMachine::on_apply. */
  function Apply(v: Variant, s: State, r: Request): Outcome {
    match r.op
    case CreateNamespace => DoCreateNamespace(s, r.info, r.ok)
    case DropNamespace => DoDropNamespace(s, r.info, r.ok)
    case ModifyNamespace => DoModifyNamespace(s, r.info, r.ok)
    case CreateZone => DoCreateZone(s, r.info, r.ok)
    case DropZone => DoDropZone(s, r.info, r.ok)
    case ModifyZone => DoModifyZone(s, r.info, r.ok)
    case CreateServlet => DoCreateServlet(v, s, r.info, r.ok)
    case DropServlet => DoDropServlet(v, s, r.info, r.ok)
    case ModifyServlet => DoModifyServlet(v, s, r.info, r.ok)
  }

  function LevelOf(op: Op): Level {
    match op
    case CreateNamespace | DropNamespace | ModifyNamespace => Namespace
    case CreateZone | DropZone | ModifyZone => Zone
    case CreateServlet | DropServlet | ModifyServlet => Servlet
  }

  predicate CleanRequest(r: Request) {
    CleanInfo(LevelOf(r.op), r.info)
  }

  // ---- the invariant

  /** Names, ids and infos of one level fit each other. */
  ghost predicate TableOk(l: Level, t: Table) {
    && 0 <= t.maxId
    && (forall n :: n in t.ids ==> t.ids[n] in t.infos && KeyOf(l, t.infos[t.ids[n]]) == n)
    && (forall id :: id in t.infos ==>
          && 1 <= id <= t.maxId
          && IdOf(l, t.infos[id]) == id
          && KeyOf(l, t.infos[id]) in t.ids && t.ids[KeyOf(l, t.infos[id])] == id)
  }

  /** The child sets of one level are exactly the entries of the next one by
      parent, and every parent exists under the name its child gives. */
  ghost predicate Linked(l: Level, up: Level, parents: Table, t: Table) {
    && (forall p, c :: c in Kids(parents, p) ==> c in t.infos && ParentId(l, t.infos[c]) == p)
    && (forall p :: p in parents.children ==> parents.children[p] != {} && p in parents.infos)
    && (forall c :: c in t.infos ==>
          && c in Kids(parents, ParentId(l, t.infos[c]))
          && ParentId(l, t.infos[c]) in parents.infos
          && KeyOf(up, parents.infos[ParentId(l, t.infos[c])]) == ParentKey(l, t.infos[c]))
  }

  /** The store holds exactly this level's infos and its largest id ever given. */
  ghost predicate Stored(l: Level, t: Table, db: Db) {
    && (forall id :: StoreKey(l, id) in db <==> id in t.infos)
    && (forall id :: id in t.infos ==> db[StoreKey(l, id)] == InfoValue(t.infos[id]))
    && (MaxKey(l) in db <==> t.maxId != 0)
    && (t.maxId != 0 ==> db[MaxKey(l)] == IdValue(t.maxId))
  }

  ghost predicate Inv(s: State) {
    && TableOk(Namespace, s.ns) && TableOk(Zone, s.zone) && TableOk(Servlet, s.servlet)
    && Linked(Zone, Namespace, s.ns, s.zone) && Linked(Servlet, Zone, s.zone, s.servlet)
    && s.servlet.children == map[]
    && Stored(Namespace, s.ns, s.db) && Stored(Zone, s.zone, s.db) && Stored(Servlet, s.servlet, s.db)
  }

  // ---- one table

  lemma InsertOk(l: Level, t: Table, i: Info, db: Db)
    requires TableOk(l, t) && Stored(l, t, db)
    requires IdOf(l, i) == t.maxId + 1 && KeyOf(l, i) !in t.ids
    ensures var t' := SetInfo(l, t, i).(maxId := IdOf(l, i));
            TableOk(l, t') && Stored(l, t', db[StoreKey(l, IdOf(l, i)) := InfoValue(i)][MaxKey(l) := IdValue(IdOf(l, i))])
  {
    hide MakeZoneKey, MakeServletKey;
    InsertStored(l, t, i, db);
    hide Stored;
  }

  lemma InsertStored(l: Level, t: Table, i: Info, db: Db)
    requires Stored(l, t, db) && 0 <= t.maxId && IdOf(l, i) == t.maxId + 1
    ensures Stored(l, SetInfo(l, t, i).(maxId := IdOf(l, i)),
                   db[StoreKey(l, IdOf(l, i)) := InfoValue(i)][MaxKey(l) := IdValue(IdOf(l, i))])
  {
    hide KeyOf;
  }

  lemma ReplaceOk(l: Level, t: Table, i: Info, db: Db)
    requires TableOk(l, t) && Stored(l, t, db)
    requires IdOf(l, i) in t.infos && KeyOf(l, i) == KeyOf(l, t.infos[IdOf(l, i)])
    ensures TableOk(l, SetInfo(l, t, i)) && Stored(l, SetInfo(l, t, i), db[StoreKey(l, IdOf(l, i)) := InfoValue(i)])
  {
    hide MakeZoneKey, MakeServletKey;
  }

  lemma EraseOk(l: Level, t: Table, name: string, db: Db)
    requires TableOk(l, t) && Stored(l, t, db) && name in t.ids
    ensures TableOk(l, EraseInfo(t, name)) && Stored(l, EraseInfo(t, name), db - {StoreKey(l, t.ids[name])})
  {
  }

  /** Writing another level's keys leaves a level as stored as it was. */
  lemma OtherLevel(l: Level, t: Table, db: Db, other: Level, id: int, v: Value, w: Value)
    requires Stored(l, t, db) && l != other
    ensures Stored(l, t, db[StoreKey(other, id) := v])
    ensures Stored(l, t, db[StoreKey(other, id) := v][MaxKey(other) := w])
    ensures Stored(l, t, db - {StoreKey(other, id)})
  {
  }

  /** Child sets are no business of names, ids or the store. */
  lemma KidsAside(l: Level, t: Table, db: Db, kids: map<int, set<int>>)
    requires TableOk(l, t) && Stored(l, t, db)
    ensures TableOk(l, t.(children := kids)) && Stored(l, t.(children := kids), db)
  {
  }

  /** What a name leads to. */
  lemma Found(l: Level, t: Table, name: string)
    requires TableOk(l, t) && name in t.ids
    ensures var id := t.ids[name];
            && id in t.infos && id > 0 && IdOf(l, t.infos[id]) == id
            && KeyOf(l, t.infos[id]) == name
            && t.infos[id := t.infos[id]] == t.infos
  {
  }

  /** get_namespace_id and its like: 0 is the answer for exactly the names that are
      not there, and any other answer is the id of the entry of that name. */
  lemma ZeroMeansAbsent(l: Level, t: Table, name: string)
    requires TableOk(l, t)
    ensures GetId(t, name) == 0 <==> forall id :: id in t.infos ==> KeyOf(l, t.infos[id]) != name
    ensures GetId(t, name) != 0 ==> GetId(t, name) in t.infos && KeyOf(l, t.infos[GetId(t, name)]) == name
  {
  }

  lemma NextIdIsFree(l: Level, t: Table)
    requires TableOk(l, t)
    ensures t.maxId + 1 !in t.infos
  {
  }

  // ---- two neighbouring tables

  lemma LinkInsert(l: Level, up: Level, parents: Table, t: Table, i: Info, max: int)
    requires Linked(l, up, parents, t) && IdOf(l, i) !in t.infos
    requires ParentId(l, i) in parents.infos && KeyOf(up, parents.infos[ParentId(l, i)]) == ParentKey(l, i)
    ensures Linked(l, up, AddKid(parents, ParentId(l, i), IdOf(l, i)), SetInfo(l, t, i).(maxId := max))
  {
    var t', parents' := SetInfo(l, t, i), AddKid(parents, ParentId(l, i), IdOf(l, i));
    forall p, c | c in Kids(parents', p) ensures c in t'.infos && ParentId(l, t'.infos[c]) == p {
      assert c in Kids(parents, p) || (p == ParentId(l, i) && c == IdOf(l, i));
    }
  }

  lemma LinkReplace(l: Level, up: Level, parents: Table, t: Table, i: Info)
    requires Linked(l, up, parents, t) && IdOf(l, i) in t.infos
    requires ParentId(l, i) == ParentId(l, t.infos[IdOf(l, i)]) && ParentKey(l, i) == ParentKey(l, t.infos[IdOf(l, i)])
    ensures Linked(l, up, parents, SetInfo(l, t, i))
  {
  }

  lemma LinkErase(l: Level, up: Level, parents: Table, t: Table, name: string)
    requires Linked(l, up, parents, t) && name in t.ids && t.ids[name] in t.infos
    ensures Linked(l, up, DeleteKid(parents, ParentId(l, t.infos[t.ids[name]]), t.ids[name]), EraseInfo(t, name))
  {
    var id := t.ids[name];
    var t', parents' := EraseInfo(t, name), DeleteKid(parents, ParentId(l, t.infos[id]), id);
    forall p, c | c in Kids(parents', p) ensures c in t'.infos && ParentId(l, t'.infos[c]) == p {
      assert c in Kids(parents, p);
    }
  }

  /** A parent table may grow, be edited, or lose an entry without children. */
  lemma LinkParents(l: Level, up: Level, parents: Table, t: Table, parents': Table)
    requires Linked(l, up, parents, t)
    requires forall p :: p in parents'.children <==> p in parents.children
    requires forall p :: p in parents.children ==> parents'.children[p] == parents.children[p]
    requires forall p :: p in parents.infos && Kids(parents, p) != {} ==>
               p in parents'.infos && KeyOf(up, parents'.infos[p]) == KeyOf(up, parents.infos[p])
    ensures Linked(l, up, parents', t)
  {
    forall p ensures Kids(parents', p) == Kids(parents, p) {
    }
  }

  /** A level's own child sets do not matter to the level above it. */
  lemma LinkAside(l: Level, up: Level, parents: Table, t: Table, kids: map<int, set<int>>)
    requires Linked(l, up, parents, t)
    ensures Linked(l, up, parents, t.(children := kids))
  {
  }

  // ---- every branch of every operation keeps the invariant

  lemma CreateNamespaceInv(s: State, i: Info, ok: bool)
    requires Inv(s)
    ensures Inv(DoCreateNamespace(s, i, ok).0)
  {
    hide TableOk, Linked, Stored;
    if i.namespaceName !in s.ns.ids && ok {
      var t := DoCreateNamespace(s, i, ok).0;
      var id := s.ns.maxId + 1;
      var info := i.(namespaceId := id, version := 1);
      NextIdIsFree(Namespace, s.ns);
      InsertOk(Namespace, s.ns, info, s.db);
      OtherLevel(Zone, s.zone, s.db, Namespace, id, InfoValue(info), IdValue(id));
      OtherLevel(Servlet, s.servlet, s.db, Namespace, id, InfoValue(info), IdValue(id));
      LinkParents(Zone, Namespace, s.ns, s.zone, t.ns);
    }
  }

  lemma DropNamespaceInv(s: State, i: Info, ok: bool)
    requires Inv(s)
    ensures Inv(DoDropNamespace(s, i, ok).0)
  {
    if i.namespaceName in s.ns.ids && ok && Kids(s.ns, s.ns.ids[i.namespaceName]) == {} {
      ChildlessNotListed(s.ns, s.zone, s.ns.ids[i.namespaceName]);
      hide TableOk, Linked, Stored;
      var t := DoDropNamespace(s, i, ok).0;
      var id := s.ns.ids[i.namespaceName];
      EraseOk(Namespace, s.ns, i.namespaceName, s.db);
      OtherLevel(Zone, s.zone, s.db, Namespace, id, IdValue(0), IdValue(0));
      OtherLevel(Servlet, s.servlet, s.db, Namespace, id, IdValue(0), IdValue(0));
      LinkParents(Zone, Namespace, s.ns, s.zone, t.ns);
    }
  }

  lemma ChildlessNotListed(parents: Table, t: Table, id: int)
    requires Linked(Zone, Namespace, parents, t) || Linked(Servlet, Zone, parents, t)
    requires Kids(parents, id) == {}
    ensures parents.children - {id} == parents.children
  {
  }

  lemma ModifyNamespaceInv(s: State, i: Info, ok: bool)
    requires Inv(s)
    ensures Inv(DoModifyNamespace(s, i, ok).0)
  {
    hide TableOk, Linked, Stored;
    if i.namespaceName in s.ns.ids {
      Found(Namespace, s.ns, i.namespaceName);
      if ok {
        var t := DoModifyNamespace(s, i, ok).0;
        var id := s.ns.ids[i.namespaceName];
        var info := t.ns.infos[id];
        ReplaceOk(Namespace, s.ns, info, s.db);
        OtherLevel(Zone, s.zone, s.db, Namespace, id, InfoValue(info), IdValue(0));
        OtherLevel(Servlet, s.servlet, s.db, Namespace, id, InfoValue(info), IdValue(0));
        LinkParents(Zone, Namespace, s.ns, s.zone, t.ns);
      }
    }
  }

  lemma CreateZoneInv(s: State, i: Info, ok: bool)
    requires Inv(s)
    ensures Inv(DoCreateZone(s, i, ok).0)
  {
    hide TableOk, Linked, Stored, MakeZoneKey, MakeServletKey;
    if GetId(s.ns, i.namespaceName) != 0 && ZoneKeyOf(i) !in s.zone.ids && ok {
      var t := DoCreateZone(s, i, ok).0;
      var info := NewZone(s, i);
      var id := info.zoneId;
      Found(Namespace, s.ns, i.namespaceName);
      NextIdIsFree(Zone, s.zone);
      InsertOk(Zone, s.zone, info, s.db);
      LinkInsert(Zone, Namespace, s.ns, s.zone, info, id);
      LinkParents(Servlet, Zone, s.zone, s.servlet, t.zone);
      OtherLevel(Namespace, s.ns, s.db, Zone, id, InfoValue(info), IdValue(id));
      OtherLevel(Servlet, s.servlet, s.db, Zone, id, InfoValue(info), IdValue(id));
      KidsAside(Namespace, s.ns, t.db, t.ns.children);
    }
  }

  /** A drop that goes through takes a zone of the namespace it names. */
  predicate ZoneInPlace(s: State, i: Info, ok: bool) {
    var nsId := GetId(s.ns, i.namespaceName);
    || nsId == 0 || ZoneKeyOf(i) !in s.zone.ids || !ok
    || Kids(s.zone, s.zone.ids[ZoneKeyOf(i)]) != {}
    || InfoAt(s.zone, s.zone.ids[ZoneKeyOf(i)]).namespaceId == nsId
  }

  /** A drop of a zone keeps the invariant if and only if it takes a zone of the
      namespace it names, or none. */
  lemma DropZoneInv(s: State, i: Info, ok: bool)
    requires Inv(s)
    ensures Inv(DoDropZone(s, i, ok).0) <==> ZoneInPlace(s, i, ok)
  {
    hide TableOk, Linked, Stored, MakeZoneKey, MakeServletKey;
    if GetId(s.ns, i.namespaceName) != 0 && ZoneKeyOf(i) in s.zone.ids && ok
       && Kids(s.zone, s.zone.ids[ZoneKeyOf(i)]) == {} {
      var t := DoDropZone(s, i, ok).0;
      var id := s.zone.ids[ZoneKeyOf(i)];
      Found(Zone, s.zone, ZoneKeyOf(i));
      if !ZoneInPlace(s, i, ok) {
        ForeignDrop(Zone, Namespace, s.ns, s.zone, ZoneKeyOf(i), GetId(s.ns, i.namespaceName));
      } else {
        ChildlessNotListed(s.zone, s.servlet, id);
        EraseOk(Zone, s.zone, ZoneKeyOf(i), s.db);
        LinkErase(Zone, Namespace, s.ns, s.zone, ZoneKeyOf(i));
        LinkParents(Servlet, Zone, s.zone, s.servlet, t.zone);
        OtherLevel(Namespace, s.ns, s.db, Zone, id, IdValue(0), IdValue(0));
        OtherLevel(Servlet, s.servlet, s.db, Zone, id, IdValue(0), IdValue(0));
        KidsAside(Namespace, s.ns, t.db, t.ns.children);
      }
    }
  }

  /** An entry erased, but taken from the children of another parent, stays listed. */
  lemma ForeignDrop(l: Level, up: Level, parents: Table, t: Table, name: string, other: int)
    requires TableOk(l, t) && Linked(l, up, parents, t) && name in t.ids
    requires ParentId(l, t.infos[t.ids[name]]) != other
    ensures !Linked(l, up, DeleteKid(parents, other, t.ids[name]), EraseInfo(t, name))
  {
    var id := t.ids[name];
    var p := ParentId(l, t.infos[id]);
    assert id in Kids(parents, p);
    assert id in Kids(DeleteKid(parents, other, id), p) && id !in EraseInfo(t, name).infos;
  }

  lemma ModifyZoneInv(s: State, i: Info, ok: bool)
    requires Inv(s)
    ensures Inv(DoModifyZone(s, i, ok).0)
  {
    hide TableOk, Linked, Stored, MakeZoneKey, MakeServletKey;
    if GetId(s.ns, i.namespaceName) != 0 && ZoneKeyOf(i) in s.zone.ids {
      Found(Zone, s.zone, ZoneKeyOf(i));
      if ok {
        var t := DoModifyZone(s, i, ok).0;
        var id := s.zone.ids[ZoneKeyOf(i)];
        var info := t.zone.infos[id];
        ReplaceOk(Zone, s.zone, info, s.db);
        LinkReplace(Zone, Namespace, s.ns, s.zone, info);
        LinkParents(Servlet, Zone, s.zone, s.servlet, t.zone);
        OtherLevel(Namespace, s.ns, s.db, Zone, id, InfoValue(info), IdValue(0));
        OtherLevel(Servlet, s.servlet, s.db, Zone, id, InfoValue(info), IdValue(0));
      }
    }
  }

  lemma CreateServletInv(s: State, i: Info, ok: bool)
    requires Inv(s)
    ensures Inv(DoCreateServlet(Intended, s, i, ok).0)
  {
    hide TableOk, Linked, Stored, MakeZoneKey, MakeServletKey;
    var zoneId := GetId(s.zone, ZoneKeyOf(i));
    if GetId(s.ns, i.namespaceName) != 0 && zoneId != 0 && KeyOf(Servlet, i) !in s.servlet.ids && ok {
      var t := DoCreateServlet(Intended, s, i, ok).0;
      var info := NewServlet(s, i);
      var id := info.servletId;
      Found(Zone, s.zone, ZoneKeyOf(i));
      NextIdIsFree(Servlet, s.servlet);
      InsertOk(Servlet, s.servlet, info, s.db);
      LinkInsert(Servlet, Zone, s.zone, s.servlet, info, id);
      LinkAside(Zone, Namespace, s.ns, s.zone, t.zone.children);
      OtherLevel(Namespace, s.ns, s.db, Servlet, id, InfoValue(info), IdValue(id));
      OtherLevel(Zone, s.zone, s.db, Servlet, id, InfoValue(info), IdValue(id));
      KidsAside(Zone, s.zone, t.db, t.zone.children);
    }
  }

  predicate ServletInPlace(s: State, i: Info, ok: bool) {
    var zoneId := GetId(s.zone, ZoneKeyOf(i));
    || GetId(s.ns, i.namespaceName) == 0 || zoneId == 0 || KeyOf(Servlet, i) !in s.servlet.ids || !ok
    || InfoAt(s.servlet, s.servlet.ids[KeyOf(Servlet, i)]).zoneId == zoneId
  }

  /** A drop of a servlet keeps the invariant if and only if it takes a servlet of
      the zone it names, or none. */
  lemma DropServletInv(s: State, i: Info, ok: bool)
    requires Inv(s)
    ensures Inv(DoDropServlet(Intended, s, i, ok).0) <==> ServletInPlace(s, i, ok)
  {
    hide TableOk, Linked, Stored, MakeZoneKey, MakeServletKey;
    if GetId(s.ns, i.namespaceName) != 0 && GetId(s.zone, ZoneKeyOf(i)) != 0 && KeyOf(Servlet, i) in s.servlet.ids && ok {
      var t := DoDropServlet(Intended, s, i, ok).0;
      var id := s.servlet.ids[KeyOf(Servlet, i)];
      Found(Servlet, s.servlet, KeyOf(Servlet, i));
      if !ServletInPlace(s, i, ok) {
        ForeignDrop(Servlet, Zone, s.zone, s.servlet, KeyOf(Servlet, i), GetId(s.zone, ZoneKeyOf(i)));
      } else {
        EraseOk(Servlet, s.servlet, KeyOf(Servlet, i), s.db);
        LinkErase(Servlet, Zone, s.zone, s.servlet, KeyOf(Servlet, i));
        LinkAside(Zone, Namespace, s.ns, s.zone, t.zone.children);
        OtherLevel(Namespace, s.ns, s.db, Servlet, id, IdValue(0), IdValue(0));
        OtherLevel(Zone, s.zone, s.db, Servlet, id, IdValue(0), IdValue(0));
        KidsAside(Zone, s.zone, t.db, t.zone.children);
      }
    }
  }

  lemma ModifyServletInv(s: State, i: Info, ok: bool)
    requires Inv(s)
    ensures Inv(DoModifyServlet(Intended, s, i, ok).0)
  {
    hide TableOk, Linked, Stored, MakeZoneKey, MakeServletKey;
    if KeyOf(Servlet, i) in s.servlet.ids {
      Found(Servlet, s.servlet, KeyOf(Servlet, i));
      if GetId(s.ns, i.namespaceName) != 0 && GetId(s.zone, ZoneKeyOf(i)) != 0 && ok {
        var t := DoModifyServlet(Intended, s, i, ok).0;
        var id := s.servlet.ids[KeyOf(Servlet, i)];
        var info := t.servlet.infos[id];
        ReplaceOk(Servlet, s.servlet, info, s.db);
        LinkReplace(Servlet, Zone, s.zone, s.servlet, info);
        OtherLevel(Namespace, s.ns, s.db, Servlet, id, InfoValue(info), IdValue(0));
        OtherLevel(Zone, s.zone, s.db, Servlet, id, InfoValue(info), IdValue(0));
      }
    }
  }

  /** What an entry has to meet: only the two drops have to meet anything. */
  predicate InPlace(s: State, r: Request) {
    match r.op
    case DropZone => ZoneInPlace(s, r.info, r.ok)
    case DropServlet => ServletInPlace(s, r.info, r.ok)
    case _ => true
  }

  /** Whatever the names, an entry keeps the invariant if and only if it does not
      drop from under another parent. */
  lemma ApplyInv(s: State, r: Request)
    requires Inv(s)
    ensures Inv(Apply(Intended, s, r).0) <==> InPlace(s, r)
  {
    hide Inv;
    match r.op
    case CreateNamespace => CreateNamespaceInv(s, r.info, r.ok);
    case DropNamespace => DropNamespaceInv(s, r.info, r.ok);
    case ModifyNamespace => ModifyNamespaceInv(s, r.info, r.ok);
    case CreateZone => CreateZoneInv(s, r.info, r.ok);
    case DropZone => DropZoneInv(s, r.info, r.ok);
    case ModifyZone => ModifyZoneInv(s, r.info, r.ok);
    case CreateServlet => CreateServletInv(s, r.info, r.ok);
    case DropServlet => DropServletInv(s, r.info, r.ok);
    case ModifyServlet => ModifyServletInv(s, r.info, r.ok);
  }

  // ---- clean names

  ghost predicate CleanTable(l: Level, t: Table) {
    forall id :: id in t.infos ==> CleanInfo(l, t.infos[id])
  }

  /** No name of a parent that was ever taken in holds the separator. */
  ghost predicate AllClean(s: State) {
    CleanTable(Zone, s.zone) && CleanTable(Servlet, s.servlet)
  }

  /** The zone found under a clean request's key lies in the namespace the request names. */
  lemma ZoneFoundInPlace(s: State, i: Info)
    requires TableOk(Namespace, s.ns) && TableOk(Zone, s.zone) && Linked(Zone, Namespace, s.ns, s.zone)
    requires CleanTable(Zone, s.zone) && CleanInfo(Zone, i) && ZoneKeyOf(i) in s.zone.ids
    ensures var id := s.zone.ids[ZoneKeyOf(i)];
            id in s.zone.infos && s.zone.infos[id].namespaceId == GetId(s.ns, i.namespaceName)
  {
    var found := s.zone.infos[s.zone.ids[ZoneKeyOf(i)]];
    assert CleanInfo(Zone, found);
    SplitUnique(i.namespaceName, i.zone, found.namespaceName, found.zone);
  }

  /** The servlet found under a clean request's key lies in the zone the request names. */
  lemma ServletFoundInPlace(s: State, i: Info)
    requires TableOk(Zone, s.zone) && TableOk(Servlet, s.servlet) && Linked(Servlet, Zone, s.zone, s.servlet)
    requires CleanTable(Servlet, s.servlet) && CleanInfo(Servlet, i) && KeyOf(Servlet, i) in s.servlet.ids
    ensures var id := s.servlet.ids[KeyOf(Servlet, i)];
            id in s.servlet.infos && s.servlet.infos[id].zoneId == GetId(s.zone, ZoneKeyOf(i))
  {
    hide MakeZoneKey, MakeServletKey, Clean;
    Found(Servlet, s.servlet, KeyOf(Servlet, i));
    var found := s.servlet.infos[s.servlet.ids[KeyOf(Servlet, i)]];
    ServletKeyUnique(i.namespaceName, i.zone, i.servletName, found.namespaceName, found.zone, found.servletName);
  }

  /** So while all names are clean, every entry with clean names keeps the invariant. */
  lemma CleanInPlace(s: State, r: Request)
    requires Inv(s) && AllClean(s) && CleanRequest(r)
    ensures InPlace(s, r)
  {
    hide TableOk, Linked, Stored, MakeZoneKey, MakeServletKey, CleanTable;
    if r.op.DropZone? && ZoneKeyOf(r.info) in s.zone.ids {
      ZoneFoundInPlace(s, r.info);
    } else if r.op.DropServlet? && KeyOf(Servlet, r.info) in s.servlet.ids {
      ServletFoundInPlace(s, r.info);
    }
  }

  lemma CleanSet(l: Level, t: Table, i: Info)
    requires CleanTable(l, t) && CleanInfo(l, i)
    ensures CleanTable(l, SetInfo(l, t, i))
  {
    hide Clean, KeyOf;
  }

  lemma DefaultIsClean(l: Level)
    ensures CleanInfo(l, DEFAULT_INFO)
  {
  }

  /** And the names stay clean, in the code as well. */
  lemma CleanStays(v: Variant, s: State, r: Request)
    requires AllClean(s) && CleanRequest(r)
    ensures AllClean(Apply(v, s, r).0)
  {
    DefaultIsClean(Zone);
    DefaultIsClean(Servlet);
    match r.op
    case CreateZone =>
      CleanSet(Zone, s.zone, NewZone(s, r.info));
    case CreateServlet =>
      CleanSet(Servlet, s.servlet, NewServlet(s, r.info));
    case ModifyZone => CleanModifyZone(s, r.info, r.ok);
    case ModifyServlet => CleanModifyServlet(v, s, r.info, r.ok);
    case _ =>
    hide MakeZoneKey, MakeServletKey, Clean, KeyOf, SetInfo, NewZone, NewServlet;
  }

  lemma CleanModifyZone(s: State, i: Info, ok: bool)
    requires AllClean(s)
    ensures AllClean(DoModifyZone(s, i, ok).0)
  {
    DefaultIsClean(Zone);
    hide MakeZoneKey, MakeServletKey, Clean, KeyOf;
  }

  lemma CleanModifyServlet(v: Variant, s: State, i: Info, ok: bool)
    requires AllClean(s)
    ensures AllClean(DoModifyServlet(v, s, i, ok).0)
  {
    DefaultIsClean(Servlet);
    hide MakeZoneKey, MakeServletKey, Clean, KeyOf;
  }
}

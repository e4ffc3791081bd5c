/** What clients read from the schema: names, versions and settings are
    determined by the requests that were answered with success. */
module SchemaHistory {
  import opened Replies
  import opened Wrappers
  import opened Names
  import opened Schema
  import opened SchemaRuns

  datatype Field = Quota | ResourceTag | ByteSizePerRecord | ReplicaNum | RegionSplitLines

  datatype Setting = Number(number: int) | Text(text: string)

  function AsNumber(x: Option<int>): Option<Setting> {
    if x.Some? then Some(Number(x.value)) else None
  }

  function AsText(x: Option<string>): Option<Setting> {
    if x.Some? then Some(Text(x.value)) else None
  }

  function At(a: Attrs, f: Field): Option<Setting> {
    match f
    case Quota => AsNumber(a.quota)
    case ResourceTag => AsText(a.resourceTag)
    case ByteSizePerRecord => AsNumber(a.byteSizePerRecord)
    case ReplicaNum => AsNumber(a.replicaNum)
    case RegionSplitLines => AsNumber(a.regionSplitLines)
  }

  function TableOf(s: State, l: Level): Table {
    match l case Namespace => s.ns case Zone => s.zone case Servlet => s.servlet
  }

  /** What a name leads to. */
  function Read(s: State, l: Level, name: string): Option<Info> {
    var t := TableOf(s, l);
    if name in t.ids && t.ids[name] in t.infos then Some(t.infos[t.ids[name]]) else None
  }

  /** The full name a request is about, written out. */
  function NameOf(l: Level, i: Info): string {
    match l
    case Namespace => i.namespaceName
    case Zone => i.namespaceName + [1 as char] + i.zone
    case Servlet => i.namespaceName + [1 as char] + i.zone + [1 as char] + i.servletName
  }

  lemma NameIsKey(l: Level, i: Info)
    ensures NameOf(l, i) == KeyOf(l, i)
  {
  }

  predicate Creates(op: Op) {
    op.CreateNamespace? || op.CreateZone? || op.CreateServlet?
  }

  predicate Drops(op: Op) {
    op.DropNamespace? || op.DropZone? || op.DropServlet?
  }

  // ---- one request

  /** A setting of a new entry: its own; left open, that of its namespace, except
      that no quota and no empty tag is taken over, and a servlet takes over the
      tag only. */
  function Initial(l: Level, own: Option<Setting>, parent: Option<Setting>, f: Field): Option<Setting> {
    if own.Some? || l.Namespace? || f.Quota? || parent == Some(Text("")) then own
    else if l.Zone? || f.ResourceTag? then parent
    else own
  }

  /** A setting after a modify: the one asked for, if there is one; of a servlet
      only the tag can be modified. */
  function Later(l: Level, was: Option<Setting>, asked: Option<Setting>, f: Field): Option<Setting> {
    if asked.Some? && (!l.Servlet? || f.ResourceTag?) then asked else was
  }

  /** A request that succeeds creates the entry it names, with the next id, version
      1 and its settings; or changes its settings and raises its version by one; or
      takes it away. One that does not succeed changes nothing that is read. */
  ghost predicate Reads(s: State, r: Request, t: State, reply: Reply) {
    var l := LevelOf(r.op);
    var name := NameOf(l, r.info);
    && (forall m, n :: reply.code != Success || m != l || n != name ==> Read(t, m, n) == Read(s, m, n))
    && (reply.code == Success ==>
          if Drops(r.op) then Read(s, l, name).Some? && Read(t, l, name).None?
          else if Creates(r.op) then Read(s, l, name).None? && NewlyRead(s, r, Read(t, l, name))
          else Read(s, l, name).Some? && Read(t, l, name).Some?
               && ModifiedRead(l, Read(s, l, name).value, r.info, Read(t, l, name).value))
  }

  ghost predicate NewlyRead(s: State, r: Request, found: Option<Info>) {
    var l := LevelOf(r.op);
    && found.Some?
    && var i := found.value;
    && i.version == 1
    && IdOf(l, i) == TableOf(s, l).maxId + 1
    && i.namespaceName == r.info.namespaceName && i.zone == r.info.zone && i.servletName == r.info.servletName
    && (l.Namespace? ==> forall f :: At(i.attrs, f) == At(r.info.attrs, f))
    && (!l.Namespace? ==>
          var parent := Read(s, Namespace, r.info.namespaceName);
          && parent.Some? && i.namespaceId == parent.value.namespaceId
          && forall f :: At(i.attrs, f) == Initial(l, At(r.info.attrs, f), At(parent.value.attrs, f), f))
    && (l.Servlet? ==>
          var zone := Read(s, Zone, NameOf(Zone, r.info));
          zone.Some? && i.zoneId == zone.value.zoneId)
  }

  ghost predicate ModifiedRead(l: Level, was: Info, asked: Info, now: Info) {
    && now == was.(version := was.version + 1, attrs := now.attrs)
    && forall f :: At(now.attrs, f) == Later(l, At(was.attrs, f), At(asked.attrs, f), f)
  }

  lemma TableReads(s: State, l: Level, name: string)
    requires TableOk(l, TableOf(s, l))
    ensures Read(s, l, name).Some? <==> name in TableOf(s, l).ids
    ensures Read(s, l, name).Some? ==>
              IdOf(l, Read(s, l, name).value) == TableOf(s, l).ids[name] == GetId(TableOf(s, l), name) > 0
    ensures Read(s, l, name).None? ==> GetId(TableOf(s, l), name) == 0
  {
    hide KeyOf;
  }

  predicate SameTable(s: State, t: State, l: Level) {
    TableOf(t, l).ids == TableOf(s, l).ids && TableOf(t, l).infos == TableOf(s, l).infos
  }

  predicate OthersSame(s: State, t: State, l: Level) {
    forall m :: m != l ==> SameTable(s, t, m)
  }

  lemma SameReads(s: State, t: State)
    requires SameTable(s, t, Namespace) && SameTable(s, t, Zone) && SameTable(s, t, Servlet)
    ensures forall m, n :: Read(t, m, n) == Read(s, m, n)
  {
    forall m, n ensures Read(t, m, n) == Read(s, m, n) {
      assert SameTable(s, t, m);
    }
  }

  /** One entry was set. */
  lemma SetReads(s: State, t: State, l: Level, i: Info)
    requires TableOk(l, TableOf(s, l)) && OthersSame(s, t, l)
    requires IdOf(l, i) !in TableOf(s, l).infos || KeyOf(l, TableOf(s, l).infos[IdOf(l, i)]) == KeyOf(l, i)
    requires TableOf(t, l).ids == TableOf(s, l).ids[KeyOf(l, i) := IdOf(l, i)]
    requires TableOf(t, l).infos == TableOf(s, l).infos[IdOf(l, i) := i]
    ensures Read(t, l, KeyOf(l, i)) == Some(i)
    ensures forall m, n :: m != l || n != KeyOf(l, i) ==> Read(t, m, n) == Read(s, m, n)
  {
    hide KeyOf;
    forall m, n | m != l || n != KeyOf(l, i) ensures Read(t, m, n) == Read(s, m, n) {
      assert m != l ==> SameTable(s, t, m);
    }
  }

  /** One entry was erased. */
  lemma EraseReads(s: State, t: State, l: Level, name: string)
    requires TableOk(l, TableOf(s, l)) && OthersSame(s, t, l) && name in TableOf(s, l).ids
    requires TableOf(t, l).ids == TableOf(s, l).ids - {name}
    requires TableOf(t, l).infos == TableOf(s, l).infos - {TableOf(s, l).ids[name]}
    ensures Read(t, l, name).None?
    ensures forall m, n :: m != l || n != name ==> Read(t, m, n) == Read(s, m, n)
  {
    hide KeyOf;
    forall m, n | m != l || n != name ensures Read(t, m, n) == Read(s, m, n) {
      assert m != l ==> SameTable(s, t, m);
    }
  }

  lemma RefusedIsRead(s: State, r: Request, t: State, reply: Reply)
    requires reply.code != Success
    requires SameTable(s, t, Namespace) && SameTable(s, t, Zone) && SameTable(s, t, Servlet)
    ensures Reads(s, r, t, reply)
  {
    SameReads(s, t);
    hide Read, NameOf;
  }

  lemma DropIsRead(s: State, r: Request, t: State)
    requires var l := LevelOf(r.op);
             && Drops(r.op) && TableOk(l, TableOf(s, l)) && OthersSame(s, t, l) && KeyOf(l, r.info) in TableOf(s, l).ids
             && TableOf(t, l).ids == TableOf(s, l).ids - {KeyOf(l, r.info)}
             && TableOf(t, l).infos == TableOf(s, l).infos - {TableOf(s, l).ids[KeyOf(l, r.info)]}
    ensures Reads(s, r, t, DONE)
  {
    var l := LevelOf(r.op);
    NameIsKey(l, r.info);
    TableReads(s, l, KeyOf(l, r.info));
    EraseReads(s, t, l, KeyOf(l, r.info));
    hide Read, NameOf, KeyOf, TableOk;
  }

  lemma CreateIsRead(s: State, r: Request, t: State, i: Info)
    requires var l := LevelOf(r.op);
             && Creates(r.op) && TableOk(l, TableOf(s, l)) && OthersSame(s, t, l)
             && KeyOf(l, i) == KeyOf(l, r.info) && KeyOf(l, i) !in TableOf(s, l).ids
             && IdOf(l, i) !in TableOf(s, l).infos
             && TableOf(t, l).ids == TableOf(s, l).ids[KeyOf(l, i) := IdOf(l, i)]
             && TableOf(t, l).infos == TableOf(s, l).infos[IdOf(l, i) := i]
    requires NewlyRead(s, r, Some(i))
    ensures Reads(s, r, t, DONE)
  {
    var l := LevelOf(r.op);
    NameIsKey(l, r.info);
    TableReads(s, l, KeyOf(l, r.info));
    SetReads(s, t, l, i);
    hide Read, NameOf, KeyOf, TableOk, NewlyRead;
  }

  lemma ModifyIsRead(s: State, r: Request, t: State, was: Info, i: Info)
    requires var l := LevelOf(r.op);
             && !Creates(r.op) && !Drops(r.op) && TableOk(l, TableOf(s, l)) && OthersSame(s, t, l)
             && KeyOf(l, r.info) in TableOf(s, l).ids && IdOf(l, i) == TableOf(s, l).ids[KeyOf(l, r.info)]
             && was == TableOf(s, l).infos[IdOf(l, i)] && KeyOf(l, i) == KeyOf(l, r.info)
             && TableOf(t, l).ids == TableOf(s, l).ids[KeyOf(l, i) := IdOf(l, i)]
             && TableOf(t, l).infos == TableOf(s, l).infos[IdOf(l, i) := i]
             && ModifiedRead(l, was, r.info, i)
    ensures Reads(s, r, t, DONE)
  {
    var l := LevelOf(r.op);
    NameIsKey(l, r.info);
    Found(l, TableOf(s, l), KeyOf(l, r.info));
    assert Read(s, l, KeyOf(l, r.info)) == Some(was);
    SetReads(s, t, l, i);
    hide Read, NameOf, KeyOf, TableOk, ModifiedRead;
  }

  lemma OverrideAt(was: Attrs, asked: Attrs, f: Field)
    ensures At(ModifyAttrs(was, asked), f) == Later(Zone, At(was, f), At(asked, f), f)
  {
  }

  lemma InheritAt(own: Attrs, parent: Attrs, f: Field)
    ensures At(InheritAttrs(own, parent), f) == Initial(Zone, At(own, f), At(parent, f), f)
    ensures At(InheritTag(own, parent), f) == Initial(Servlet, At(own, f), At(parent, f), f)
  {
  }

  lemma NewNamespaceRead(s: State, r: Request)
    requires r.op.CreateNamespace?
    ensures NewlyRead(s, r, Some(r.info.(namespaceId := s.ns.maxId + 1, version := 1)))
  {
    hide At;
  }

  /** What create_namespace makes of the tables. */
  lemma CreateNamespaceTables(s: State, i: Info, ok: bool)
    ensures var (t, reply) := DoCreateNamespace(s, i, ok);
            && SameTable(s, t, Zone) && SameTable(s, t, Servlet)
            && (reply.code != Success ==> SameTable(s, t, Namespace))
            && (reply.code == Success ==>
                  && reply == DONE && i.namespaceName !in s.ns.ids
                  && t.ns.ids == s.ns.ids[i.namespaceName := s.ns.maxId + 1]
                  && t.ns.infos == s.ns.infos[s.ns.maxId + 1 := i.(namespaceId := s.ns.maxId + 1, version := 1)])
  {
  }

  lemma CreateNamespaceReads(s: State, i: Info, ok: bool)
    requires Inv(s)
    ensures var (t, reply) := DoCreateNamespace(s, i, ok);
            Reads(s, Request(CreateNamespace, i, ok), t, reply)
  {
    NextIdIsFree(Namespace, s.ns);
    assert TableOk(Namespace, s.ns);
    CreateNamespaceTables(s, i, ok);
    hide Inv, TableOk, Read, Reads, NewlyRead, DoCreateNamespace;
    var (t, reply) := DoCreateNamespace(s, i, ok);
    var r := Request(CreateNamespace, i, ok);
    if reply.code == Success {
      NewNamespaceRead(s, r);
      CreateIsRead(s, r, t, i.(namespaceId := s.ns.maxId + 1, version := 1));
    } else {
      RefusedIsRead(s, r, t, reply);
    }
  }

  lemma DropNamespaceReads(s: State, i: Info, ok: bool)
    requires Inv(s)
    ensures var (t, reply) := DoDropNamespace(s, i, ok);
            Reads(s, Request(DropNamespace, i, ok), t, reply)
  {
    hide Linked, Stored, TableOk, At, Read, Reads, Kids;
    var (t, reply) := DoDropNamespace(s, i, ok);
    if reply.code == Success {
      DropIsRead(s, Request(DropNamespace, i, ok), t);
    } else {
      RefusedIsRead(s, Request(DropNamespace, i, ok), t, reply);
    }
  }

  /** What the two modifies of namespaces and zones have in common. */
  lemma Modified(l: Level, was: Info, asked: Info)
    requires !l.Servlet?
    ensures ModifiedRead(l, was, asked, was.(attrs := ModifyAttrs(was.attrs, asked.attrs), version := was.version + 1))
  {
    forall f ensures At(ModifyAttrs(was.attrs, asked.attrs), f) == Later(l, At(was.attrs, f), At(asked.attrs, f), f) {
      OverrideAt(was.attrs, asked.attrs, f);
    }
    hide ModifyAttrs, At, Later;
  }

  lemma ModifyNamespaceReads(s: State, i: Info, ok: bool)
    requires Inv(s)
    ensures var (t, reply) := DoModifyNamespace(s, i, ok);
            Reads(s, Request(ModifyNamespace, i, ok), t, reply)
  {
    hide Linked, Stored, TableOk, Read, Reads, ModifiedRead, ModifyAttrs;
    var (t, reply) := DoModifyNamespace(s, i, ok);
    var r := Request(ModifyNamespace, i, ok);
    if i.namespaceName in s.ns.ids {
      Found(Namespace, s.ns, i.namespaceName);
      var was := s.ns.infos[s.ns.ids[i.namespaceName]];
      Modified(Namespace, was, i);
      if ok {
        ModifyIsRead(s, r, t, was, t.ns.infos[s.ns.ids[i.namespaceName]]);
      } else {
        RefusedIsRead(s, r, t, reply);
      }
    } else {
      RefusedIsRead(s, r, t, reply);
    }
  }

  lemma InheritsFrom(l: Level, own: Attrs, parent: Attrs)
    ensures l.Zone? ==> forall f :: At(InheritAttrs(own, parent), f) == Initial(Zone, At(own, f), At(parent, f), f)
    ensures l.Servlet? ==> forall f :: At(InheritTag(own, parent), f) == Initial(Servlet, At(own, f), At(parent, f), f)
  {
    forall f ensures At(InheritAttrs(own, parent), f) == Initial(Zone, At(own, f), At(parent, f), f) {
      InheritAt(own, parent, f);
    }
    forall f ensures At(InheritTag(own, parent), f) == Initial(Servlet, At(own, f), At(parent, f), f) {
      InheritAt(own, parent, f);
    }
    hide InheritAttrs, InheritTag, At, Initial;
  }

  lemma NewZoneRead(s: State, r: Request)
    requires Inv(s) && r.op.CreateZone? && GetId(s.ns, r.info.namespaceName) != 0
    ensures NewlyRead(s, r, Some(NewZone(s, r.info)))
  {
    var i := r.info;
    TableReads(s, Namespace, i.namespaceName);
    hide Inv, TableOk, Linked, Stored, At, Initial, InheritAttrs;
    InheritsFrom(Zone, i.attrs, s.ns.infos[s.ns.ids[i.namespaceName]].attrs);
  }

  /** What create_zone makes of the tables. */
  lemma CreateZoneTables(s: State, i: Info, ok: bool)
    ensures var (t, reply) := DoCreateZone(s, i, ok);
            && SameTable(s, t, Namespace) && SameTable(s, t, Servlet)
            && (reply.code != Success ==> SameTable(s, t, Zone))
            && (reply.code == Success ==>
                  && reply == DONE && GetId(s.ns, i.namespaceName) != 0 && ZoneKeyOf(i) !in s.zone.ids
                  && t.zone.ids == s.zone.ids[ZoneKeyOf(i) := s.zone.maxId + 1]
                  && t.zone.infos == s.zone.infos[s.zone.maxId + 1 := NewZone(s, i)])
  {
    NewZoneNames(s, i);
    hide ZoneKeyOf, NewZone, GetId;
  }

  lemma NewZoneNames(s: State, i: Info)
    ensures ZoneKeyOf(NewZone(s, i)) == ZoneKeyOf(i) && NewZone(s, i).zoneId == s.zone.maxId + 1
  {
    hide MakeZoneKey;
  }

  lemma CreateZoneReads(s: State, i: Info, ok: bool)
    requires Inv(s)
    ensures var (t, reply) := DoCreateZone(s, i, ok);
            Reads(s, Request(CreateZone, i, ok), t, reply)
  {
    NextIdIsFree(Zone, s.zone);
    assert TableOk(Zone, s.zone);
    CreateZoneTables(s, i, ok);
    NewZoneNames(s, i);
    hide TableOk, Read, Reads, NewlyRead, DoCreateZone, NewZone, ZoneKeyOf, GetId;
    var (t, reply) := DoCreateZone(s, i, ok);
    var r := Request(CreateZone, i, ok);
    if reply.code == Success {
      NewZoneRead(s, r);
      hide Inv;
      CreateIsRead(s, r, t, NewZone(s, i));
    } else {
      RefusedIsRead(s, r, t, reply);
    }
  }

  lemma DropZoneReads(s: State, i: Info, ok: bool)
    requires Inv(s)
    ensures var (t, reply) := DoDropZone(s, i, ok);
            Reads(s, Request(DropZone, i, ok), t, reply)
  {
    hide Linked, Stored, TableOk, Read, Reads, Kids, MakeZoneKey;
    var (t, reply) := DoDropZone(s, i, ok);
    var r := Request(DropZone, i, ok);
    if reply.code == Success {
      Found(Zone, s.zone, ZoneKeyOf(i));
      DropIsRead(s, r, t);
    } else {
      RefusedIsRead(s, r, t, reply);
    }
  }

  lemma ModifyZoneReads(s: State, i: Info, ok: bool)
    requires Inv(s)
    ensures var (t, reply) := DoModifyZone(s, i, ok);
            Reads(s, Request(ModifyZone, i, ok), t, reply)
  {
    hide Linked, Stored, TableOk, Read, Reads, ModifiedRead, ModifyAttrs, MakeZoneKey;
    var (t, reply) := DoModifyZone(s, i, ok);
    var r := Request(ModifyZone, i, ok);
    if GetId(s.ns, i.namespaceName) != 0 && ZoneKeyOf(i) in s.zone.ids {
      Found(Zone, s.zone, ZoneKeyOf(i));
      var was := s.zone.infos[s.zone.ids[ZoneKeyOf(i)]];
      Modified(Zone, was, i);
      if ok {
        ModifyIsRead(s, r, t, was, t.zone.infos[s.zone.ids[ZoneKeyOf(i)]]);
      } else {
        RefusedIsRead(s, r, t, reply);
      }
    } else {
      RefusedIsRead(s, r, t, reply);
    }
  }

  lemma NewServletRead(s: State, r: Request)
    requires Inv(s) && r.op.CreateServlet?
    requires GetId(s.ns, r.info.namespaceName) != 0 && GetId(s.zone, ZoneKeyOf(r.info)) != 0
    ensures NewlyRead(s, r, Some(NewServlet(s, r.info)))
  {
    var i := r.info;
    NameIsKey(Zone, i);
    TableReads(s, Namespace, i.namespaceName);
    TableReads(s, Zone, ZoneKeyOf(i));
    hide Inv, TableOk, Linked, Stored, At, Initial, InheritTag, NameOf, MakeZoneKey;
    InheritsFrom(Servlet, i.attrs, s.ns.infos[s.ns.ids[i.namespaceName]].attrs);
  }

  lemma NewServletNames(s: State, i: Info)
    ensures KeyOf(Servlet, NewServlet(s, i)) == KeyOf(Servlet, i) && IdOf(Servlet, NewServlet(s, i)) == s.servlet.maxId + 1
    ensures NewServlet(s, i).servletId == s.servlet.maxId + 1
  {
    hide MakeZoneKey, MakeServletKey;
  }

  /** What create_servlet makes of the tables. */
  lemma CreateServletTables(s: State, i: Info, ok: bool)
    ensures var (t, reply) := DoCreateServlet(Intended, s, i, ok);
            && SameTable(s, t, Namespace) && SameTable(s, t, Zone)
            && (reply.code != Success ==> SameTable(s, t, Servlet))
            && (reply.code == Success ==>
                  && reply == DONE
                  && GetId(s.ns, i.namespaceName) != 0 && GetId(s.zone, ZoneKeyOf(i)) != 0
                  && KeyOf(Servlet, i) !in s.servlet.ids
                  && t.servlet.ids == s.servlet.ids[KeyOf(Servlet, i) := s.servlet.maxId + 1]
                  && t.servlet.infos == s.servlet.infos[s.servlet.maxId + 1 := NewServlet(s, i)])
  {
    NewServletNames(s, i);
    hide KeyOf, ZoneKeyOf, NewServlet, GetId, IdOf;
  }

  lemma CreateServletReads(s: State, i: Info, ok: bool)
    requires Inv(s)
    ensures var (t, reply) := DoCreateServlet(Intended, s, i, ok);
            Reads(s, Request(CreateServlet, i, ok), t, reply)
  {
    NextIdIsFree(Servlet, s.servlet);
    CreateServletTables(s, i, ok);
    NewServletNames(s, i);
    var (t, reply) := DoCreateServlet(Intended, s, i, ok);
    var r := Request(CreateServlet, i, ok);
    assert TableOk(Servlet, s.servlet);
    hide TableOk, Read, Reads, NewlyRead, DoCreateServlet, NewServlet, KeyOf, ZoneKeyOf, GetId, IdOf;
    if reply.code == Success {
      NewServletRead(s, r);
      hide Inv;
      CreateIsRead(s, r, t, NewServlet(s, i));
    } else {
      RefusedIsRead(s, r, t, reply);
    }
  }

  lemma DropServletReads(s: State, i: Info, ok: bool)
    requires Inv(s)
    ensures var (t, reply) := DoDropServlet(Intended, s, i, ok);
            Reads(s, Request(DropServlet, i, ok), t, reply)
  {
    hide Linked, Stored, TableOk, Read, Reads, MakeZoneKey, MakeServletKey;
    var (t, reply) := DoDropServlet(Intended, s, i, ok);
    var r := Request(DropServlet, i, ok);
    if reply.code == Success {
      Found(Servlet, s.servlet, KeyOf(Servlet, i));
      DropIsRead(s, r, t);
    } else {
      RefusedIsRead(s, r, t, reply);
    }
  }

  lemma ServletModified(was: Info, asked: Info)
    ensures ModifiedRead(Servlet, was, asked,
              was.(attrs := was.attrs.(resourceTag := Override(was.attrs.resourceTag, asked.attrs.resourceTag)),
                   version := was.version + 1))
  {
  }

  lemma ModifyServletReads(s: State, i: Info, ok: bool)
    requires Inv(s)
    ensures var (t, reply) := DoModifyServlet(Intended, s, i, ok);
            Reads(s, Request(ModifyServlet, i, ok), t, reply)
  {
    hide Linked, Stored, TableOk, Read, Reads, ModifiedRead, Override, MakeZoneKey, MakeServletKey;
    var (t, reply) := DoModifyServlet(Intended, s, i, ok);
    var r := Request(ModifyServlet, i, ok);
    if GetId(s.ns, i.namespaceName) != 0 && GetId(s.zone, ZoneKeyOf(i)) != 0 && KeyOf(Servlet, i) in s.servlet.ids {
      Found(Servlet, s.servlet, KeyOf(Servlet, i));
      var was := s.servlet.infos[s.servlet.ids[KeyOf(Servlet, i)]];
      ServletModified(was, i);
      if ok {
        ModifyIsRead(s, r, t, was, t.servlet.infos[s.servlet.ids[KeyOf(Servlet, i)]]);
      } else {
        RefusedIsRead(s, r, t, reply);
      }
    } else {
      RefusedIsRead(s, r, t, reply);
    }
  }

  /** For every operation of every level. */
  lemma StepReads(s: State, r: Request)
    requires Inv(s)
    ensures var (t, reply) := Apply(Intended, s, r);
            Reads(s, r, t, reply)
  {
    hide Inv, Reads;
    match r.op
    case CreateNamespace => CreateNamespaceReads(s, r.info, r.ok);
    case DropNamespace => DropNamespaceReads(s, r.info, r.ok);
    case ModifyNamespace => ModifyNamespaceReads(s, r.info, r.ok);
    case CreateZone => CreateZoneReads(s, r.info, r.ok);
    case DropZone => DropZoneReads(s, r.info, r.ok);
    case ModifyZone => ModifyZoneReads(s, r.info, r.ok);
    case CreateServlet => CreateServletReads(s, r.info, r.ok);
    case DropServlet => DropServletReads(s, r.info, r.ok);
    case ModifyServlet => ModifyServletReads(s, r.info, r.ok);
  }

  // ---- the servlet operations as written

  /** create_servlet as written answers, stores and files the servlet as it should,
      but lists it as a child of the zone that has the id of the namespace. */
  lemma WrittenCreate(s: State, i: Info, ok: bool)
    ensures var (t, reply) := DoCreateServlet(AsWritten, s, i, ok);
            var (meant, answer) := DoCreateServlet(Intended, s, i, ok);
            && reply == answer && t == meant.(zone := t.zone) && t.zone == s.zone.(children := t.zone.children)
            && forall p :: Kids(t.zone, p) == Kids(s.zone, p) +
                 if reply.code == Success && p == GetId(s.ns, i.namespaceName) then {s.servlet.maxId + 1} else {}
  {
    hide KeyOf, ZoneKeyOf, NewServlet, GetId;
    NewServletNames(s, i);
  }

  /** modify_servlet as written changes the info under the id of the zone, or an
      empty one, and stores it under the id of the servlet. */
  lemma WrittenModify(s: State, i: Info)
    requires GetId(s.ns, i.namespaceName) != 0 && GetId(s.zone, ZoneKeyOf(i)) != 0 && KeyOf(Servlet, i) in s.servlet.ids
    ensures var zoneId := GetId(s.zone, ZoneKeyOf(i));
            var was := if zoneId in s.servlet.infos then s.servlet.infos[zoneId] else DEFAULT_INFO;
            var now := was.(version := was.version + 1,
                            attrs := was.attrs.(resourceTag :=
                              if i.attrs.resourceTag.Some? then i.attrs.resourceTag else was.attrs.resourceTag));
            var (t, reply) := DoModifyServlet(AsWritten, s, i, true);
            && reply.code == Success && t.ns == s.ns && t.zone == s.zone
            && t.db == s.db[ServletKey(s.servlet.ids[KeyOf(Servlet, i)]) := InfoValue(now)]
            && t.servlet.infos == s.servlet.infos[zoneId := was][now.servletId := now]
  {
    hide KeyOf, ZoneKeyOf, GetId;
  }

  // ---- the answer

  /** The answer, from which names are known, whether the entry to drop has
      children, and whether the store takes the write. */
  function Answer(r: Request, namespaceKnown: bool, zoneKnown: bool, servletKnown: bool, occupied: bool): Reply {
    var wrong :=
      match r.op
      case CreateNamespace => if namespaceKnown then "namespace already existed" else ""
      case DropNamespace =>
        if !namespaceKnown then "namespace not exist" else if occupied then "namespace has servlet" else ""
      case ModifyNamespace => if !namespaceKnown then "namespace not exist" else ""
      case CreateZone =>
        if !namespaceKnown then "namespace not exist" else if zoneKnown then "zone already exist" else ""
      case DropZone =>
        if !namespaceKnown then "namespace not exist"
        else if !zoneKnown then "zone not exist"
        else if occupied then "zone has servlet"
        else ""
      case ModifyZone =>
        if !namespaceKnown then "namespace not exist" else if !zoneKnown then "zone not exist" else ""
      case CreateServlet =>
        if !namespaceKnown then "namespace not exist"
        else if !zoneKnown then "zone not exist"
        else if servletKnown then "servlet already exist"
        else ""
      case DropServlet | ModifyServlet =>
        if !namespaceKnown || !zoneKnown then "namespace not exist" else if !servletKnown then "zone not exist" else "";
    if wrong != "" then Reply(InputParamError, wrong)
    else if !r.ok then Reply(InternalError, "write db fail")
    else Reply(Success, "success")
  }

  /** Some entry of the next level names this one as its parent. */
  ghost predicate Occupied(s: State, r: Request) {
    match r.op
    case DropNamespace =>
      var n := Read(s, Namespace, NameOf(Namespace, r.info));
      n.Some? && exists z :: z in s.zone.infos && s.zone.infos[z].namespaceId == n.value.namespaceId
    case DropZone =>
      var z := Read(s, Zone, NameOf(Zone, r.info));
      z.Some? && exists x :: x in s.servlet.infos && s.servlet.infos[x].zoneId == z.value.zoneId
    case _ => false
  }

  lemma KidIsChild(l: Level, up: Level, parents: Table, t: Table, id: int, c: int)
    requires Linked(l, up, parents, t)
    ensures c in Kids(parents, id) <==> c in t.infos && ParentId(l, t.infos[c]) == id
  {
  }

  lemma KidsOccupy(l: Level, up: Level, parents: Table, t: Table, id: int)
    requires Linked(l, up, parents, t)
    ensures Kids(parents, id) != {} <==> exists c :: c in t.infos && ParentId(l, t.infos[c]) == id
  {
    var children := set c | c in t.infos && ParentId(l, t.infos[c]) == id;
    forall c ensures c in Kids(parents, id) <==> c in children {
      KidIsChild(l, up, parents, t, id, c);
    }
    hide Linked, Kids, ParentId;
    assert Kids(parents, id) == children;
    if exists c :: c in t.infos && ParentId(l, t.infos[c]) == id {
      var c :| c in t.infos && ParentId(l, t.infos[c]) == id;
      assert c in children;
    } else {
      assert children == {};
    }
  }

  lemma OccupiedIsKids(s: State, r: Request)
    requires Inv(s)
    ensures r.op.DropNamespace? && r.info.namespaceName in s.ns.ids ==>
              (Occupied(s, r) <==> Kids(s.ns, s.ns.ids[r.info.namespaceName]) != {})
    ensures r.op.DropZone? && ZoneKeyOf(r.info) in s.zone.ids ==>
              (Occupied(s, r) <==> Kids(s.zone, s.zone.ids[ZoneKeyOf(r.info)]) != {})
  {
    hide TableOk, Linked, Stored, Kids, MakeZoneKey;
    NameIsKey(Zone, r.info);
    if r.op.DropNamespace? && r.info.namespaceName in s.ns.ids {
      Found(Namespace, s.ns, r.info.namespaceName);
      KidsOccupy(Zone, Namespace, s.ns, s.zone, s.ns.ids[r.info.namespaceName]);
    }
    if r.op.DropZone? && ZoneKeyOf(r.info) in s.zone.ids {
      Found(Zone, s.zone, ZoneKeyOf(r.info));
      KidsOccupy(Servlet, Zone, s.zone, s.servlet, s.zone.ids[ZoneKeyOf(r.info)]);
    }
  }

  lemma KnownIsRead(s: State, i: Info)
    requires Inv(s)
    ensures Read(s, Namespace, NameOf(Namespace, i)).Some? <==> i.namespaceName in s.ns.ids
    ensures Read(s, Namespace, NameOf(Namespace, i)).Some? <==> GetId(s.ns, i.namespaceName) != 0
    ensures Read(s, Zone, NameOf(Zone, i)).Some? <==> ZoneKeyOf(i) in s.zone.ids
    ensures Read(s, Zone, NameOf(Zone, i)).Some? <==> GetId(s.zone, ZoneKeyOf(i)) != 0
    ensures Read(s, Servlet, NameOf(Servlet, i)).Some? <==> KeyOf(Servlet, i) in s.servlet.ids
  {
    TableReads(s, Namespace, i.namespaceName);
    TableReads(s, Zone, ZoneKeyOf(i));
    TableReads(s, Servlet, KeyOf(Servlet, i));
    NameIsKey(Zone, i);
    NameIsKey(Servlet, i);
    hide Inv, Read, GetId, KeyOf, ZoneKeyOf;
  }

  predicate ZeroIsUnknown(s: State, i: Info) {
    && (GetId(s.ns, i.namespaceName) != 0 <==> i.namespaceName in s.ns.ids)
    && (GetId(s.zone, ZoneKeyOf(i)) != 0 <==> ZoneKeyOf(i) in s.zone.ids)
  }

  /** Every answer, from what is known under the names. */
  lemma NamespaceAnswers(s: State, r: Request, occupied: bool)
    requires LevelOf(r.op).Namespace?
    requires r.op.DropNamespace? && r.info.namespaceName in s.ns.ids ==> (occupied <==> Kids(s.ns, s.ns.ids[r.info.namespaceName]) != {})
    ensures forall zoneKnown, servletKnown ::
              Apply(Intended, s, r).1 == Answer(r, r.info.namespaceName in s.ns.ids, zoneKnown, servletKnown, occupied)
  {
    hide Kids, SetInfo, EraseInfo, InfoAt, ModifyAttrs;
  }

  lemma ZoneAnswers(s: State, r: Request, occupied: bool)
    requires LevelOf(r.op).Zone? && ZeroIsUnknown(s, r.info)
    requires r.op.DropZone? && ZoneKeyOf(r.info) in s.zone.ids ==> (occupied <==> Kids(s.zone, s.zone.ids[ZoneKeyOf(r.info)]) != {})
    ensures forall servletKnown ::
              Apply(Intended, s, r).1 ==
              Answer(r, r.info.namespaceName in s.ns.ids, ZoneKeyOf(r.info) in s.zone.ids, servletKnown, occupied)
  {
    hide Kids, SetInfo, EraseInfo, AddKid, DeleteKid, ZoneKeyOf, InfoAt, NewZone, ModifyAttrs, GetId;
  }

  lemma ServletAnswers(s: State, r: Request, occupied: bool)
    requires LevelOf(r.op).Servlet? && ZeroIsUnknown(s, r.info)
    ensures Apply(Intended, s, r).1 ==
            Answer(r, r.info.namespaceName in s.ns.ids, ZoneKeyOf(r.info) in s.zone.ids,
                   KeyOf(Servlet, r.info) in s.servlet.ids, occupied)
  {
    hide SetInfo, EraseInfo, AddKid, DeleteKid, KeyOf, ZoneKeyOf, InfoAt, NewServlet, GetId;
  }

  /** Every answer of every operation. */
  lemma StepAnswers(s: State, r: Request)
    requires Inv(s)
    ensures Apply(Intended, s, r).1 ==
            Answer(r, Read(s, Namespace, NameOf(Namespace, r.info)).Some?, Read(s, Zone, NameOf(Zone, r.info)).Some?,
                   Read(s, Servlet, NameOf(Servlet, r.info)).Some?, Occupied(s, r))
  {
    KnownIsRead(s, r.info);
    OccupiedIsKids(s, r);
    hide Inv, Read, NameOf, Kids, KeyOf, ZoneKeyOf, Apply, Answer, GetId;
    match LevelOf(r.op)
    case Namespace => NamespaceAnswers(s, r, Occupied(s, r));
    case Zone => ZoneAnswers(s, r, Occupied(s, r));
    case Servlet => ServletAnswers(s, r, Occupied(s, r));
  }

  // ---- runs

  /** One setting of every entry there is, with the entry's version, kept by the
      requests that succeed. */
  datatype Line = Line(version: int, setting: Option<Setting>)

  type Book = map<(Level, string), Line>

  function SettingIn(book: Book, l: Level, name: string): Option<Setting> {
    if (l, name) in book then book[(l, name)].setting else None
  }

  function Entered(book: Book, f: Field, r: Request, reply: Reply): Book {
    var l := LevelOf(r.op);
    var key := (l, NameOf(l, r.info));
    var asked := At(r.info.attrs, f);
    if reply.code != Success then book
    else if Drops(r.op) then book - {key}
    else if Creates(r.op) then
      book[key := Line(1, Initial(l, asked, SettingIn(book, Namespace, r.info.namespaceName), f))]
    else if key in book then
      book[key := Line(book[key].version + 1, Later(l, book[key].setting, asked, f))]
    else book
  }

  function EnteredAll(book: Book, f: Field, log: seq<Request>, replies: seq<Reply>): Book
    requires |replies| == |log|
    decreases |log|
  {
    if log == [] then book else EnteredAll(Entered(book, f, log[0], replies[0]), f, log[1..], replies[1..])
  }

  /** The book shows what is read. */
  ghost predicate Shows(book: Book, s: State, f: Field) {
    forall l, n ::
      && ((l, n) in book <==> Read(s, l, n).Some?)
      && ((l, n) in book ==> book[(l, n)] == Line(Read(s, l, n).value.version, At(Read(s, l, n).value.attrs, f)))
  }

  lemma EnteredShows(book: Book, s: State, f: Field, r: Request, t: State, reply: Reply)
    requires Shows(book, s, f) && Reads(s, r, t, reply)
    ensures Shows(Entered(book, f, r, reply), t, f)
  {
    hide Read, At, Initial, Later, NameOf, IdOf;
    var l := LevelOf(r.op);
    var name := NameOf(l, r.info);
    if reply.code == Success && Creates(r.op) && !l.Namespace? {
      assert Read(s, Namespace, r.info.namespaceName).Some?;
    }
    if reply.code == Success && Creates(r.op) && l.Namespace? {
      OwnSettings(At(r.info.attrs, f), SettingIn(book, Namespace, r.info.namespaceName), f);
    }
    var after := Entered(book, f, r, reply);
    forall m, n
      ensures (m, n) in after <==> Read(t, m, n).Some?
      ensures (m, n) in after ==> after[(m, n)] == Line(Read(t, m, n).value.version, At(Read(t, m, n).value.attrs, f))
    {
      assert (m, n) in book <==> Read(s, m, n).Some?;
    }
  }

  lemma OwnSettings(own: Option<Setting>, parent: Option<Setting>, f: Field)
    ensures Initial(Namespace, own, parent, f) == own
  {
  }

  lemma {:induction false} RunShows(v: Variant, book: Book, s: State, f: Field, log: seq<Request>)
    requires Inv(s) && GoodLog(v, s, log) && Shows(book, s, f)
    ensures |Run(v, s, log).1| == |log|
    ensures Shows(EnteredAll(book, f, log, Run(v, s, log).1), Run(v, s, log).0, f)
    decreases |log|
  {
    if log != [] {
      var (t, reply) := Apply(v, s, log[0]);
      StepReads(s, log[0]);
      AsWrittenIsIntended(s, log[0]);
      StepInv(v, s, log[0]);
      hide Inv, Apply, Reads, Shows, Entered, InPlace, AsIntended;
      EnteredShows(book, s, f, log[0], t, reply);
      RunShows(v, Entered(book, f, log[0], reply), t, f, log[1..]);
      var (u, replies) := Run(v, t, log[1..]);
      assert Run(v, s, log).1 == [reply] + replies && ([reply] + replies)[1..] == replies;
    }
  }

  /** Over every good log: which names there are, their versions and each of their
      settings are what the last successful create and the modifies since have
      made them, in memory and in the store. */
  lemma ReadsAreHistory(v: Variant, log: seq<Request>, f: Field, l: Level, name: string)
    requires GoodLog(v, INIT, log)
    ensures |Run(v, INIT, log).1| == |log|
    ensures var (s, replies) := Run(v, INIT, log);
            var book := EnteredAll(map[], f, log, replies);
            && ((l, name) in book <==> Read(s, l, name).Some?)
            && ((l, name) in book ==>
                  var i := Read(s, l, name).value;
                  && book[(l, name)] == Line(i.version, At(i.attrs, f))
                  && StoreKey(l, IdOf(l, i)) in s.db && s.db[StoreKey(l, IdOf(l, i))] == InfoValue(i))
  {
    InitInv();
    InitShows(f);
    RunShows(v, map[], INIT, f, log);
    RunInv(v, INIT, log);
    hide Run, GoodLog, EnteredAll;
    var s := Run(v, INIT, log).0;
    if Read(s, l, name).Some? {
      ReadIsStored(s, l, name);
    }
    hide Inv;
  }

  lemma InitShows(f: Field)
    ensures Shows(map[], INIT, f)
  {
  }

  lemma ReadIsStored(s: State, l: Level, name: string)
    requires Inv(s) && Read(s, l, name).Some?
    ensures var i := Read(s, l, name).value;
            StoreKey(l, IdOf(l, i)) in s.db && s.db[StoreKey(l, IdOf(l, i))] == InfoValue(i)
  {
    var t := TableOf(s, l);
    assert TableOk(l, t) && Stored(l, t, s.db);
    hide Inv;
    Found(l, t, name);
  }
}

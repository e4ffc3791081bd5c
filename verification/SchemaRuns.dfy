/** Whole runs of the schema part of the log: referential integrity, ids that
    are never reused, snapshots that commute with replay, and how far the
    servlet operations as written keep all this. */
module SchemaRuns {
  import opened Replies
  import opened Wrappers
  import opened Names
  import opened Schema

  // ---- where the servlet operations do what they mean to

  /** The checks shared by the three servlet operations pass. */
  predicate ParentsFound(s: State, i: Info) {
    GetId(s.ns, i.namespaceName) != 0 && GetId(s.zone, ZoneKeyOf(i)) != 0
  }

  /** In terms of the state and the request alone. */
  predicate AsIntended(s: State, r: Request) {
    var zoneId := GetId(s.zone, ZoneKeyOf(r.info));
    match r.op
    case CreateServlet =>
      || !ParentsFound(s, r.info) || KeyOf(Servlet, r.info) in s.servlet.ids || !r.ok
      || GetId(s.ns, r.info.namespaceName) == zoneId
    case DropServlet =>
      || !ParentsFound(s, r.info)
      || (ZoneKeyOf(r.info) !in s.servlet.ids && KeyOf(Servlet, r.info) !in s.servlet.ids)
      || (ZoneKeyOf(r.info) in s.servlet.ids && KeyOf(Servlet, r.info) in s.servlet.ids
          && (!r.ok || s.servlet.ids[KeyOf(Servlet, r.info)] == zoneId))
    case ModifyServlet =>
      || !ParentsFound(s, r.info) || KeyOf(Servlet, r.info) !in s.servlet.ids
      || s.servlet.ids[KeyOf(Servlet, r.info)] == zoneId
      || (!r.ok && zoneId in s.servlet.infos)
    case _ => true
  }

  lemma SeparatorsTell(n: string, z: string, m: string, y: string, v: string)
    requires Clean(n) && Clean(z) && Clean(m)
    ensures MakeZoneKey(n, z) != MakeServletKey(MakeZoneKey(m, y), v)
  {
    if MakeZoneKey(n, z) == MakeServletKey(MakeZoneKey(m, y), v) {
      var tail := y + [SEP] + v;
      assert MakeServletKey(MakeZoneKey(m, y), v) == m + [SEP] + tail;
      assert tail[|y|] == SEP;
      SplitUnique(n, z, m, tail);
    }
  }

  /** A zone's key has one separator and no servlet's key has so few, so the
      lookup of drop_servlet at line 111 never finds anything. */
  lemma ZoneKeyIsNoServletKey(s: State, i: Info)
    requires TableOk(Servlet, s.servlet) && CleanTable(Servlet, s.servlet) && CleanInfo(Servlet, i)
    ensures ZoneKeyOf(i) !in s.servlet.ids
  {
    hide MakeZoneKey, MakeServletKey;
    if ZoneKeyOf(i) in s.servlet.ids {
      Found(Servlet, s.servlet, ZoneKeyOf(i));
      var found := s.servlet.infos[s.servlet.ids[ZoneKeyOf(i)]];
      SeparatorsTell(i.namespaceName, i.zone, found.namespaceName, found.zone, found.servletName);
    }
  }

  lemma KidsKnown(s: State, p: int, c: int)
    requires Linked(Servlet, Zone, s.zone, s.servlet) && c !in s.servlet.infos
    ensures c !in Kids(s.zone, p)
  {
  }

  lemma CreateAsIntended(s: State, i: Info, ok: bool)
    requires Inv(s)
    ensures DoCreateServlet(AsWritten, s, i, ok) == DoCreateServlet(Intended, s, i, ok)
            <==> AsIntended(s, Request(CreateServlet, i, ok))
  {
    hide TableOk, Linked, Stored, MakeZoneKey, MakeServletKey;
    var zoneId := GetId(s.zone, ZoneKeyOf(i));
    var id := s.servlet.maxId + 1;
    NextIdIsFree(Servlet, s.servlet);
    KidsKnown(s, zoneId, id);
    if !AsIntended(s, Request(CreateServlet, i, ok)) {
      var a, b := DoCreateServlet(AsWritten, s, i, ok).0, DoCreateServlet(Intended, s, i, ok).0;
      assert id in Kids(b.zone, zoneId) && id !in Kids(a.zone, zoneId);
    }
  }

  /** What drop_servlet as written does, by what the two keys find. */
  lemma DropCases(s: State, i: Info, ok: bool)
    ensures !ParentsFound(s, i) ==>
              DoDropServlet(AsWritten, s, i, ok) == DoDropServlet(Intended, s, i, ok) == (s, Refuse("namespace not exist"))
    ensures ParentsFound(s, i) ==>
            var written, intended := DoDropServlet(AsWritten, s, i, ok), DoDropServlet(Intended, s, i, ok);
            var a, b := ZoneKeyOf(i) in s.servlet.ids, KeyOf(Servlet, i) in s.servlet.ids;
            && (!a ==> written == (s, Refuse("zone not exist"))) && (!b ==> intended == (s, Refuse("zone not exist")))
            && (a ==> written.1 in {WRITE_FAIL, DONE}) && (b ==> intended.1 in {WRITE_FAIL, DONE})
            && (a && b && !ok ==> written == intended)
            && (a && !b && !ok ==> written == (s.(servlet := s.servlet.(ids := s.servlet.ids[KeyOf(Servlet, i) := 0])), WRITE_FAIL))
            && (a && ok ==> written.1 == DONE && written.0.ns == s.ns
                            && written.0.db == s.db - {ServletKey(GetId(s.zone, ZoneKeyOf(i)))})
            && (a && b && ok ==>
                  && written == (intended.0.(db := s.db - {ServletKey(GetId(s.zone, ZoneKeyOf(i)))}), DONE)
                  && intended.1 == DONE && intended.0.db == s.db - {ServletKey(s.servlet.ids[KeyOf(Servlet, i)])})
  {
    hide MakeZoneKey, MakeServletKey, KeyOf, ZoneKeyOf, EraseInfo, DeleteKid;
  }

  lemma DropAsIntended(s: State, i: Info, ok: bool)
    requires Inv(s)
    ensures ZoneKeyOf(i) !in s.servlet.ids ==>
              DoDropServlet(AsWritten, s, i, ok) ==
              (s, if ParentsFound(s, i) then Refuse("zone not exist") else Refuse("namespace not exist"))
    ensures DoDropServlet(AsWritten, s, i, ok) == DoDropServlet(Intended, s, i, ok)
            <==> AsIntended(s, Request(DropServlet, i, ok))
  {
    hide MakeZoneKey, MakeServletKey, DoDropServlet, KeyOf, ZoneKeyOf, ParentsFound;
    DropCases(s, i, ok);
    FoundIsStored(s, KeyOf(Servlet, i));
    hide Inv;
  }

  lemma FoundIsStored(s: State, name: string)
    requires Inv(s)
    ensures name in s.servlet.ids ==> ServletKey(s.servlet.ids[name]) in s.db
  {
    if name in s.servlet.ids {
      assert StoreKey(Servlet, s.servlet.ids[name]) in s.db;
    }
  }

  /** No servlet is stored under an id that is not its own. */
  lemma InfoUnderOtherId(s: State, id: int)
    requires TableOk(Servlet, s.servlet)
    ensures InfoAt(s.servlet, id).servletId == if id in s.servlet.infos then id else 0
  {
    if id in s.servlet.infos {
      assert IdOf(Servlet, s.servlet.infos[id]) == id;
    }
  }

  lemma ModifyAsIntended(s: State, i: Info, ok: bool)
    requires Inv(s)
    ensures DoModifyServlet(AsWritten, s, i, ok) == DoModifyServlet(Intended, s, i, ok)
            <==> AsIntended(s, Request(ModifyServlet, i, ok))
  {
    hide TableOk, Linked, Stored, MakeZoneKey, MakeServletKey;
    var zoneId := GetId(s.zone, ZoneKeyOf(i));
    if ParentsFound(s, i) && KeyOf(Servlet, i) in s.servlet.ids {
      var id := s.servlet.ids[KeyOf(Servlet, i)];
      Found(Servlet, s.servlet, KeyOf(Servlet, i));
      InfoUnderOtherId(s, zoneId);
      var a, b := DoModifyServlet(AsWritten, s, i, ok).0, DoModifyServlet(Intended, s, i, ok).0;
      if zoneId != id {
        if ok {
          assert a.db[ServletKey(id)].info.servletId != id && b.db[ServletKey(id)].info.servletId == id;
        } else if zoneId in s.servlet.infos {
          assert s.servlet.infos[zoneId := s.servlet.infos[zoneId]] == s.servlet.infos;
        } else {
          assert zoneId in a.servlet.infos && zoneId !in b.servlet.infos;
        }
      }
    }
  }

  /** The code does what is meant exactly under AsIntended, which looks only at
      what is there before the call. */
  lemma AsWrittenIsIntended(s: State, r: Request)
    requires Inv(s)
    ensures Apply(AsWritten, s, r) == Apply(Intended, s, r) <==> AsIntended(s, r)
  {
    match r.op
    case CreateServlet => CreateAsIntended(s, r.info, r.ok);
    case DropServlet => DropAsIntended(s, r.info, r.ok);
    case ModifyServlet => ModifyAsIntended(s, r.info, r.ok);
    case _ =>
  }

  lemma CreateAsWrittenLoses(s: State, i: Info)
    requires Inv(s) && !AsIntended(s, Request(CreateServlet, i, true))
    ensures !Inv(DoCreateServlet(AsWritten, s, i, true).0)
  {
    var t := DoCreateServlet(AsWritten, s, i, true).0;
    var id := s.servlet.maxId + 1;
    var zoneId := GetId(s.zone, ZoneKeyOf(i));
    NextIdIsFree(Servlet, s.servlet);
    KidsKnown(s, zoneId, id);
    hide TableOk, Stored, MakeZoneKey, MakeServletKey;
    assert id in t.servlet.infos && ParentId(Servlet, t.servlet.infos[id]) == zoneId && id !in Kids(t.zone, zoneId);
  }

  lemma ModifyAsWrittenLoses(s: State, i: Info, ok: bool)
    requires Inv(s) && !AsIntended(s, Request(ModifyServlet, i, ok))
    ensures !Inv(DoModifyServlet(AsWritten, s, i, ok).0)
  {
    if ok {
      ModifyMisfiles(s, i);
    } else {
      ModifyInvents(s, i);
    }
    hide Inv, DoModifyServlet;
  }

  /** The info of the zone's id is stored under the servlet's. */
  lemma ModifyMisfiles(s: State, i: Info)
    requires Inv(s) && !AsIntended(s, Request(ModifyServlet, i, true))
    ensures !Inv(DoModifyServlet(AsWritten, s, i, true).0)
  {
    var t := DoModifyServlet(AsWritten, s, i, true).0;
    var id := s.servlet.ids[KeyOf(Servlet, i)];
    Found(Servlet, s.servlet, KeyOf(Servlet, i));
    InfoUnderOtherId(s, GetId(s.zone, ZoneKeyOf(i)));
    hide Linked, TableOk, Stored, MakeZoneKey, MakeServletKey;
    MisfiledServlet(t, id);
  }

  /** An empty info comes up in memory under the zone's id. */
  lemma ModifyInvents(s: State, i: Info)
    requires Inv(s) && !AsIntended(s, Request(ModifyServlet, i, false))
    ensures !Inv(DoModifyServlet(AsWritten, s, i, false).0)
  {
    var t := DoModifyServlet(AsWritten, s, i, false).0;
    var zoneId := GetId(s.zone, ZoneKeyOf(i));
    UnknownIsUnstored(s, zoneId);
    hide Inv, MakeZoneKey, MakeServletKey;
    assert zoneId in t.servlet.infos && t.db == s.db;
    UnstoredServlet(t, zoneId);
  }

  lemma UnknownIsUnstored(s: State, id: int)
    requires Inv(s) && id !in s.servlet.infos
    ensures ServletKey(id) !in s.db
  {
    assert StoreKey(Servlet, id) !in s.db;
  }

  lemma UnstoredServlet(t: State, id: int)
    requires id in t.servlet.infos && ServletKey(id) !in t.db
    ensures !Stored(Servlet, t.servlet, t.db) && !Inv(t)
  {
    assert StoreKey(Servlet, id) == ServletKey(id);
  }

  /** A servlet stored under the id of another cannot be part of a state in order. */
  lemma MisfiledServlet(t: State, id: int)
    requires ServletKey(id) in t.db && t.db[ServletKey(id)].InfoValue? && t.db[ServletKey(id)].info.servletId != id
    ensures !(TableOk(Servlet, t.servlet) && Stored(Servlet, t.servlet, t.db))
  {
    assert StoreKey(Servlet, id) == ServletKey(id);
    assert id in t.servlet.infos ==> IdOf(Servlet, t.servlet.infos[id]) == t.servlet.infos[id].servletId;
  }

  /** Where it does not, creating and modifying lose the invariant, and dropping
      leaves everything in place. */
  lemma AsWrittenLoses(s: State, r: Request)
    requires Inv(s) && !AsIntended(s, r)
    requires r.op.DropServlet? ==> ZoneKeyOf(r.info) !in s.servlet.ids
    ensures r.op.CreateServlet? || r.op.DropServlet? || r.op.ModifyServlet?
    ensures Inv(Apply(AsWritten, s, r).0) <==> r.op.DropServlet?
  {
    hide Inv;
    match r.op
    case CreateServlet => CreateAsWrittenLoses(s, r.info);
    case DropServlet => DropAsIntended(s, r.info, r.ok);
    case ModifyServlet => ModifyAsWrittenLoses(s, r.info, r.ok);
  }

  /** What this leads to: a replica that applied the create as written and one that
      loaded the same store answer a later drop of the zone differently, and on the
      first the zone goes from under its servlet. */
  lemma CreateAsWrittenDiverges(s: State, i: Info)
    requires Inv(s) && !AsIntended(s, Request(CreateServlet, i, true))
    requires Kids(s.zone, GetId(s.zone, ZoneKeyOf(i))) == {}
    ensures var applied := DoCreateServlet(AsWritten, s, i, true).0;
            var loaded := DoCreateServlet(Intended, s, i, true).0;
            && applied.db == loaded.db && Inv(loaded)
            && DoDropZone(loaded, i, true) == (loaded, Refuse("zone has servlet"))
            && DoDropZone(applied, i, true).1 == DONE
            && GetId(s.zone, ZoneKeyOf(i)) !in DoDropZone(applied, i, true).0.zone.infos
            && DoDropZone(applied, i, true).0.servlet.infos[s.servlet.maxId + 1].zoneId == GetId(s.zone, ZoneKeyOf(i))
  {
    CreateServletInv(s, i, true);
    hide Inv, MakeZoneKey, MakeServletKey;
    var zoneId := GetId(s.zone, ZoneKeyOf(i));
    var loaded := DoCreateServlet(Intended, s, i, true).0;
    assert s.servlet.maxId + 1 in Kids(loaded.zone, zoneId);
  }

  // ---- runs

  function Run(v: Variant, s: State, log: seq<Request>): (State, seq<Reply>)
    decreases |log|
  {
    if log == [] then (s, [])
    else
      var (t, reply) := Apply(v, s, log[0]);
      var (u, replies) := Run(v, t, log[1..]);
      (u, [reply] + replies)
  }

  /** Entries that drop nothing from under another parent and, for the code as
      written, have the intended effect. */
  predicate GoodLog(v: Variant, s: State, log: seq<Request>)
    decreases |log|
  {
    log == []
    || (InPlace(s, log[0]) && (v.AsWritten? ==> AsIntended(s, log[0]))
        && GoodLog(v, Apply(v, s, log[0]).0, log[1..]))
  }

  lemma StepInv(v: Variant, s: State, r: Request)
    requires Inv(s) && InPlace(s, r) && (v.AsWritten? ==> AsIntended(s, r))
    ensures Inv(Apply(v, s, r).0)
  {
    ApplyInv(s, r);
    if v.AsWritten? {
      AsWrittenIsIntended(s, r);
    }
  }

  lemma {:induction false} RunInv(v: Variant, s: State, log: seq<Request>)
    requires Inv(s) && GoodLog(v, s, log)
    ensures Inv(Run(v, s, log).0)
    decreases |log|
  {
    if log != [] {
      StepInv(v, s, log[0]);
      RunInv(v, Apply(v, s, log[0]).0, log[1..]);
    }
  }

  /** For the intended machine these are exactly the logs that keep the invariant
      throughout, whatever names they hold. */
  lemma {:induction false} GoodIffInv(s: State, log: seq<Request>)
    requires Inv(s)
    ensures GoodLog(Intended, s, log) <==> forall k :: 0 <= k <= |log| ==> Inv(Run(Intended, s, log[..k]).0)
    decreases |log|
  {
    if log != [] {
      hide Inv, InPlace, Apply;
      var t := Apply(Intended, s, log[0]).0;
      ApplyInv(s, log[0]);
      assert GoodLog(Intended, s, log) <==> InPlace(s, log[0]) && GoodLog(Intended, t, log[1..]);
      RunShift(s, log);
      hide Run, GoodLog;
      if Inv(t) {
        GoodIffInv(t, log[1..]);
        InvShift(s, t, log);
      } else {
        assert !Inv(Run(Intended, s, log[..1]).0);
      }
    }
  }

  lemma RunShift(s: State, log: seq<Request>)
    requires log != []
    ensures var t := Apply(Intended, s, log[0]).0;
            && Run(Intended, s, log[..0]).0 == s && Run(Intended, s, log[..1]).0 == t
            && forall k :: 0 < k <= |log| ==> Run(Intended, s, log[..k]).0 == Run(Intended, t, log[1..][..k - 1]).0
  {
    hide Apply;
    var t := Apply(Intended, s, log[0]).0;
    forall k | 0 < k <= |log| ensures Run(Intended, s, log[..k]).0 == Run(Intended, t, log[1..][..k - 1]).0 {
      assert log[..k][1..] == log[1..][..k - 1];
    }
    assert log[1..][..0] == [] && Run(Intended, t, []).0 == t;
  }

  lemma InvShift(s: State, t: State, log: seq<Request>)
    requires log != [] && Inv(s) && Run(Intended, s, log[..0]).0 == s
    requires forall k :: 0 < k <= |log| ==> Run(Intended, s, log[..k]).0 == Run(Intended, t, log[1..][..k - 1]).0
    ensures (forall k :: 0 <= k <= |log| ==> Inv(Run(Intended, s, log[..k]).0))
            <==> forall k :: 0 <= k <= |log[1..]| ==> Inv(Run(Intended, t, log[1..][..k]).0)
  {
    hide Inv, Run;
    if forall k :: 0 <= k <= |log| ==> Inv(Run(Intended, s, log[..k]).0) {
      forall k | 0 <= k <= |log[1..]| ensures Inv(Run(Intended, t, log[1..][..k]).0) {
        assert Inv(Run(Intended, s, log[..k + 1]).0);
      }
    }
  }

  predicate CleanLog(log: seq<Request>) {
    forall k :: 0 <= k < |log| ==> CleanRequest(log[k])
  }

  /** Names without the separator are enough, */
  lemma {:induction false} CleanIsGood(s: State, log: seq<Request>)
    requires Inv(s) && AllClean(s) && CleanLog(log)
    ensures GoodLog(Intended, s, log)
    decreases |log|
  {
    if log != [] {
      hide Inv, AllClean, InPlace, CleanRequest, Apply;
      CleanInPlace(s, log[0]);
      CleanStays(Intended, s, log[0]);
      StepInv(Intended, s, log[0]);
      CleanIsGood(Apply(Intended, s, log[0]).0, log[1..]);
    }
  }

  predicate NoServlets(log: seq<Request>) {
    forall k :: 0 <= k < |log| ==> !LevelOf(log[k].op).Servlet?
  }

  /** and for the code as written they are while only namespaces and zones are touched. */
  lemma {:induction false} NoServletsIsGood(s: State, log: seq<Request>)
    requires Inv(s) && AllClean(s) && CleanLog(log) && NoServlets(log)
    ensures GoodLog(AsWritten, s, log)
    decreases |log|
  {
    if log != [] {
      CleanInPlace(s, log[0]);
      CleanStays(AsWritten, s, log[0]);
      hide Inv, AllClean, InPlace, CleanRequest, Apply;
      StepInv(AsWritten, s, log[0]);
      NoServletsIsGood(Apply(AsWritten, s, log[0]).0, log[1..]);
    }
  }

  /** Every zone's namespace exists under the name the zone gives and lists it,
      and a namespace lists nothing else. */
  ghost predicate ZonesInPlace(ns: Table, zone: Table) {
    && (forall z :: z in zone.infos ==>
          && zone.infos[z].namespaceId in ns.infos
          && ns.infos[zone.infos[z].namespaceId].namespaceName == zone.infos[z].namespaceName
          && z in Kids(ns, zone.infos[z].namespaceId))
    && (forall p, z :: z in Kids(ns, p) ==> z in zone.infos && zone.infos[z].namespaceId == p)
  }

  /** The same of servlets and their zones. */
  ghost predicate ServletsInPlace(zone: Table, servlet: Table) {
    && (forall x :: x in servlet.infos ==>
          && servlet.infos[x].zoneId in zone.infos
          && ZoneKeyOf(zone.infos[servlet.infos[x].zoneId]) == ZoneKeyOf(servlet.infos[x])
          && x in Kids(zone, servlet.infos[x].zoneId))
    && (forall p, x :: x in Kids(zone, p) ==> x in servlet.infos && servlet.infos[x].zoneId == p)
  }

  /** Ids are at least 1, so 0 means absent, at most the counter, and never shared. */
  ghost predicate IdsUnique(t: Table) {
    && (forall n :: n in t.ids ==> 1 <= t.ids[n] <= t.maxId)
    && (forall n, m :: n in t.ids && m in t.ids && t.ids[n] == t.ids[m] ==> n == m)
  }

  ghost predicate Integral(s: State) {
    && ZonesInPlace(s.ns, s.zone) && ServletsInPlace(s.zone, s.servlet)
    && IdsUnique(s.ns) && IdsUnique(s.zone) && IdsUnique(s.servlet)
  }

  lemma LinkedZones(ns: Table, zone: Table)
    requires Linked(Zone, Namespace, ns, zone)
    ensures ZonesInPlace(ns, zone)
  {
    forall z | z in zone.infos ensures ParentId(Zone, zone.infos[z]) == zone.infos[z].namespaceId {
    }
  }

  lemma LinkedServlets(zone: Table, servlet: Table)
    requires Linked(Servlet, Zone, zone, servlet)
    ensures ServletsInPlace(zone, servlet)
  {
    hide MakeZoneKey, MakeServletKey;
    forall x | x in servlet.infos ensures ParentId(Servlet, servlet.infos[x]) == servlet.infos[x].zoneId {
    }
  }

  lemma TableIdsUnique(l: Level, t: Table)
    requires TableOk(l, t)
    ensures IdsUnique(t)
  {
    hide KeyOf, CleanInfo;
  }

  lemma InvIsIntegral(s: State)
    requires Inv(s)
    ensures Integral(s)
  {
    hide Stored, TableOk, Linked, ZonesInPlace, ServletsInPlace, IdsUnique;
    LinkedZones(s.ns, s.zone);
    LinkedServlets(s.zone, s.servlet);
    TableIdsUnique(Namespace, s.ns);
    TableIdsUnique(Zone, s.zone);
    TableIdsUnique(Servlet, s.servlet);
  }

  /** Referential integrity at every reachable state. */
  lemma Integrity(v: Variant, log: seq<Request>)
    requires GoodLog(v, INIT, log)
    ensures Integral(Run(v, INIT, log).0)
  {
    RunInv(v, INIT, log);
    InvIsIntegral(Run(v, INIT, log).0);
  }

  /** An entry loses from a table at most one id, and none with children. */
  ghost predicate OnlyChildlessGo(s: Table, t: Table) {
    forall p :: p in s.infos && p !in t.infos ==> Kids(s, p) == {}
  }

  lemma DropsAreChildless(s: State, i: Info, ok: bool)
    ensures OnlyChildlessGo(s.ns, DoDropNamespace(s, i, ok).0.ns) && OnlyChildlessGo(s.zone, DoDropNamespace(s, i, ok).0.zone)
    ensures OnlyChildlessGo(s.ns, DoDropZone(s, i, ok).0.ns) && OnlyChildlessGo(s.zone, DoDropZone(s, i, ok).0.zone)
  {
  }

  lemma StepKeepsParents(s: State, r: Request)
    ensures OnlyChildlessGo(s.ns, Apply(Intended, s, r).0.ns)
    ensures OnlyChildlessGo(s.zone, Apply(Intended, s, r).0.zone)
  {
    match r.op
    case DropNamespace | DropZone => DropsAreChildless(s, r.info, r.ok);
    case CreateNamespace | CreateZone | CreateServlet =>
    case ModifyNamespace | ModifyZone | ModifyServlet =>
    case DropServlet =>
  }

  /** No entry whatsoever takes away a parent that has a child. */
  lemma ParentsStay(s: State, r: Request)
    requires Inv(s)
    ensures var t := Apply(Intended, s, r).0;
            && (forall z :: z in s.zone.infos ==> s.zone.infos[z].namespaceId in t.ns.infos)
            && (forall x :: x in s.servlet.infos ==> s.servlet.infos[x].zoneId in t.zone.infos)
  {
    StepKeepsParents(s, r);
    LinksGiveParents(s, Apply(Intended, s, r).0);
  }

  lemma LinksGiveParents(s: State, t: State)
    requires Linked(Zone, Namespace, s.ns, s.zone) && Linked(Servlet, Zone, s.zone, s.servlet)
    requires OnlyChildlessGo(s.ns, t.ns) && OnlyChildlessGo(s.zone, t.zone)
    ensures forall z :: z in s.zone.infos ==> s.zone.infos[z].namespaceId in t.ns.infos
    ensures forall x :: x in s.servlet.infos ==> s.servlet.infos[x].zoneId in t.zone.infos
  {
    forall z | z in s.zone.infos ensures s.zone.infos[z].namespaceId in t.ns.infos {
      assert z in Kids(s.ns, ParentId(Zone, s.zone.infos[z]));
    }
    forall x | x in s.servlet.infos ensures s.servlet.infos[x].zoneId in t.zone.infos {
      assert x in Kids(s.zone, ParentId(Servlet, s.servlet.infos[x]));
    }
  }

  ghost predicate MaxUp(s: State, t: State) {
    s.ns.maxId <= t.ns.maxId && s.zone.maxId <= t.zone.maxId && s.servlet.maxId <= t.servlet.maxId
  }

  lemma MaxStep(s: State, r: Request)
    ensures MaxUp(s, Apply(Intended, s, r).0)
  {
    match r.op
    case CreateNamespace =>
    case DropNamespace =>
    case ModifyNamespace =>
    case CreateZone =>
    case DropZone =>
    case ModifyZone =>
    case CreateServlet =>
    case DropServlet =>
    case ModifyServlet =>
  }

  lemma {:induction false} MaxNeverFalls(s: State, log: seq<Request>)
    ensures MaxUp(s, Run(Intended, s, log).0)
    decreases |log|
  {
    if log != [] {
      MaxStep(s, log[0]);
      MaxNeverFalls(Apply(Intended, s, log[0]).0, log[1..]);
    }
  }

  /** From s to t a table gets at most the next id. */
  ghost predicate OnlyNextId(s: Table, t: Table) {
    forall y :: y in t.infos && y !in s.infos ==> y == s.maxId + 1
  }

  ghost predicate OnlyNextIds(s: State, t: State) {
    OnlyNextId(s.ns, t.ns) && OnlyNextId(s.zone, t.zone) && OnlyNextId(s.servlet, t.servlet)
  }

  lemma NewIdsFromCreate(s: State, i: Info, ok: bool)
    ensures OnlyNextIds(s, DoCreateNamespace(s, i, ok).0)
    ensures OnlyNextIds(s, DoCreateZone(s, i, ok).0)
    ensures OnlyNextIds(s, DoCreateServlet(Intended, s, i, ok).0)
  {
  }

  lemma NoIdsFromDrop(s: State, i: Info, ok: bool)
    ensures OnlyNextIds(s, DoDropNamespace(s, i, ok).0)
    ensures OnlyNextIds(s, DoDropZone(s, i, ok).0)
    ensures OnlyNextIds(s, DoDropServlet(Intended, s, i, ok).0)
  {
  }

  /** The info that a modify operation reads through the id map is there, with that id. */
  lemma FoundById(l: Level, t: Table, name: string)
    requires TableOk(l, t) && name in t.ids
    ensures t.ids[name] in t.infos && IdOf(l, InfoAt(t, t.ids[name])) == t.ids[name]
  {
  }

  lemma NoIdsFromModify(s: State, i: Info, ok: bool)
    requires i.namespaceName in s.ns.ids ==> IdOf(Namespace, InfoAt(s.ns, s.ns.ids[i.namespaceName])) == s.ns.ids[i.namespaceName]
                                             && s.ns.ids[i.namespaceName] in s.ns.infos
    requires ZoneKeyOf(i) in s.zone.ids ==> IdOf(Zone, InfoAt(s.zone, s.zone.ids[ZoneKeyOf(i)])) == s.zone.ids[ZoneKeyOf(i)]
                                            && s.zone.ids[ZoneKeyOf(i)] in s.zone.infos
    requires KeyOf(Servlet, i) in s.servlet.ids ==>
               IdOf(Servlet, InfoAt(s.servlet, s.servlet.ids[KeyOf(Servlet, i)])) == s.servlet.ids[KeyOf(Servlet, i)]
               && s.servlet.ids[KeyOf(Servlet, i)] in s.servlet.infos
    ensures OnlyNextIds(s, DoModifyNamespace(s, i, ok).0)
    ensures OnlyNextIds(s, DoModifyZone(s, i, ok).0)
    ensures OnlyNextIds(s, DoModifyServlet(Intended, s, i, ok).0)
  {
  }

  lemma NewIdsAreNext(s: State, r: Request)
    requires Inv(s)
    ensures OnlyNextIds(s, Apply(Intended, s, r).0)
  {
    hide OnlyNextIds, TableOk, Linked, Stored, MakeZoneKey, MakeServletKey;
    match r.op
    case CreateNamespace | CreateZone | CreateServlet => NewIdsFromCreate(s, r.info, r.ok);
    case DropNamespace | DropZone | DropServlet => NoIdsFromDrop(s, r.info, r.ok);
    case ModifyNamespace | ModifyZone | ModifyServlet =>
      if r.info.namespaceName in s.ns.ids { FoundById(Namespace, s.ns, r.info.namespaceName); }
      if ZoneKeyOf(r.info) in s.zone.ids { FoundById(Zone, s.zone, ZoneKeyOf(r.info)); }
      if KeyOf(Servlet, r.info) in s.servlet.ids { FoundById(Servlet, s.servlet, KeyOf(Servlet, r.info)); }
      NoIdsFromModify(s, r.info, r.ok);
  }

  /** An id that an entry gives out is above every id that was in use at any
      earlier point of the run, dropped ones included. */
  lemma IdsNeverReused(early: seq<Request>, late: seq<Request>, r: Request)
    requires GoodLog(Intended, INIT, early) && GoodLog(Intended, Run(Intended, INIT, early).0, late)
    ensures var a := Run(Intended, INIT, early).0;
            var s := Run(Intended, a, late).0;
            var t := Apply(Intended, s, r).0;
            && (forall x, y :: x in a.ns.infos && y in t.ns.infos && y !in s.ns.infos ==> x < y)
            && (forall x, y :: x in a.zone.infos && y in t.zone.infos && y !in s.zone.infos ==> x < y)
            && (forall x, y :: x in a.servlet.infos && y in t.servlet.infos && y !in s.servlet.infos ==> x < y)
  {
    var a := Run(Intended, INIT, early).0;
    RunInv(Intended, INIT, early);
    RunInv(Intended, a, late);
    MaxNeverFalls(a, late);
    NewIdsAreNext(Run(Intended, a, late).0, r);
  }

  // ---- a drop undoes a create

  /** All of a table but its counter comes back. */
  lemma EraseUndoesSet(l: Level, t: Table, i: Info)
    requires KeyOf(l, i) !in t.ids && IdOf(l, i) !in t.infos && Kids(t, IdOf(l, i)) == {}
    requires IdOf(l, i) !in t.children
    ensures EraseInfo(SetInfo(l, t, i).(maxId := IdOf(l, i)), KeyOf(l, i)) == t.(maxId := IdOf(l, i))
  {
    hide KeyOf;
    assert t.ids[KeyOf(l, i) := IdOf(l, i)] - {KeyOf(l, i)} == t.ids;
    assert t.infos[IdOf(l, i) := i] - {IdOf(l, i)} == t.infos;
    assert t.children - {IdOf(l, i)} == t.children;
  }

  lemma DeleteUndoesAdd(t: Table, parent: int, kid: int)
    requires kid !in Kids(t, parent) && (parent in t.children ==> t.children[parent] != {})
    ensures DeleteKid(AddKid(t, parent, kid), parent, kid) == t
  {
    assert Kids(t, parent) + {kid} - {kid} == Kids(t, parent);
    if parent in t.children {
      assert t.children[parent := Kids(t, parent) + {kid}][parent := t.children[parent]] == t.children;
    } else {
      assert t.children[parent := {kid}] - {parent} == t.children;
    }
  }

  lemma StoreUndone(db: Db, l: Level, id: int, v: Value, w: Value)
    requires StoreKey(l, id) !in db
    ensures db[StoreKey(l, id) := v][MaxKey(l) := w] - {StoreKey(l, id)} == db[MaxKey(l) := w]
  {
  }

  lemma NewIdIsChildless(l: Level, up: Level, parents: Table, t: Table)
    requires Linked(l, up, parents, t) && TableOk(up, parents)
    ensures parents.maxId + 1 !in parents.infos && parents.maxId + 1 !in parents.children
  {
  }

  /** Dropping a namespace just created leaves nothing behind but the counter. */
  lemma DropUndoesCreateNamespace(s: State, i: Info)
    requires TableOk(Namespace, s.ns) && Linked(Zone, Namespace, s.ns, s.zone) && Stored(Namespace, s.ns, s.db)
    requires DoCreateNamespace(s, i, true).1 == DONE
    ensures var id := s.ns.maxId + 1;
            DoDropNamespace(DoCreateNamespace(s, i, true).0, i, true) ==
            (s.(ns := s.ns.(maxId := id), db := s.db[MaxNamespaceId := IdValue(id)]), DONE)
  {
    var id := s.ns.maxId + 1;
    var info := i.(namespaceId := id, version := 1);
    NewIdIsChildless(Zone, Namespace, s.ns, s.zone);
    assert StoreKey(Namespace, id) !in s.db;
    hide TableOk, Linked, Stored, MakeZoneKey, MakeServletKey;
    EraseUndoesSet(Namespace, s.ns, info);
    StoreUndone(s.db, Namespace, id, InfoValue(info), IdValue(id));
  }

  /** So with a zone, whose namespace no longer lists it, */
  lemma DropUndoesCreateZone(s: State, i: Info)
    requires TableOk(Zone, s.zone) && Stored(Zone, s.zone, s.db)
    requires Linked(Zone, Namespace, s.ns, s.zone) && Linked(Servlet, Zone, s.zone, s.servlet)
    requires DoCreateZone(s, i, true).1 == DONE
    ensures var id := s.zone.maxId + 1;
            DoDropZone(DoCreateZone(s, i, true).0, i, true) ==
            (s.(zone := s.zone.(maxId := id), db := s.db[MaxZoneId := IdValue(id)]), DONE)
  {
    var id := s.zone.maxId + 1;
    var info := NewZone(s, i);
    var nsId := GetId(s.ns, i.namespaceName);
    NewIdIsChildless(Servlet, Zone, s.zone, s.servlet);
    assert StoreKey(Zone, id) !in s.db;
    UnknownIsNoKid(Zone, Namespace, s.ns, s.zone, nsId, id);
    hide TableOk, Linked, Stored, MakeZoneKey, MakeServletKey, NewZone;
    assert info.zoneId == id && ZoneKeyOf(info) == ZoneKeyOf(i) by { NewZoneKeeps(s, i); }
    EraseUndoesSet(Zone, s.zone, info);
    DeleteUndoesAdd(s.ns, nsId, id);
    StoreUndone(s.db, Zone, id, InfoValue(info), IdValue(id));
  }

  lemma NewZoneKeeps(s: State, i: Info)
    ensures NewZone(s, i).zoneId == s.zone.maxId + 1 && ZoneKeyOf(NewZone(s, i)) == ZoneKeyOf(i)
  {
  }

  lemma UnknownIsNoKid(l: Level, up: Level, parents: Table, t: Table, p: int, c: int)
    requires Linked(l, up, parents, t) && c !in t.infos
    ensures c !in Kids(parents, p) && (p in parents.children ==> parents.children[p] != {})
  {
  }

  /** and, as intended, with a servlet and its zone. */
  lemma DropUndoesCreateServlet(s: State, i: Info)
    requires TableOk(Servlet, s.servlet) && Stored(Servlet, s.servlet, s.db)
    requires Linked(Servlet, Zone, s.zone, s.servlet) && s.servlet.children == map[]
    requires DoCreateServlet(Intended, s, i, true).1 == DONE
    ensures var id := s.servlet.maxId + 1;
            DoDropServlet(Intended, DoCreateServlet(Intended, s, i, true).0, i, true) ==
            (s.(servlet := s.servlet.(maxId := id), db := s.db[MaxServletId := IdValue(id)]), DONE)
  {
    var id := s.servlet.maxId + 1;
    var info := NewServlet(s, i);
    var zoneId := GetId(s.zone, ZoneKeyOf(i));
    NextIdIsFree(Servlet, s.servlet);
    assert StoreKey(Servlet, id) !in s.db;
    UnknownIsNoKid(Servlet, Zone, s.zone, s.servlet, zoneId, id);
    hide TableOk, Linked, Stored, MakeZoneKey, MakeServletKey, NewServlet;
    assert info.servletId == id && KeyOf(Servlet, info) == KeyOf(Servlet, i) by { NewServletKeeps(s, i); }
    EraseUndoesSet(Servlet, s.servlet, info);
    DeleteUndoesAdd(s.zone, zoneId, id);
    StoreUndone(s.db, Servlet, id, InfoValue(info), IdValue(id));
  }

  lemma NewServletKeeps(s: State, i: Info)
    ensures NewServlet(s, i).servletId == s.servlet.maxId + 1 && KeyOf(Servlet, NewServlet(s, i)) == KeyOf(Servlet, i)
  {
  }

  // ---- snapshots

  lemma SameTable(l: Level, a: Table, b: Table, db: Db)
    requires TableOk(l, a) && TableOk(l, b) && Stored(l, a, db) && Stored(l, b, db)
    ensures a.maxId == b.maxId && a.infos == b.infos && a.ids == b.ids
  {
    forall id ensures id in a.infos <==> id in b.infos {
      assert StoreKey(l, id) in db <==> id in a.infos;
      assert StoreKey(l, id) in db <==> id in b.infos;
    }
    forall id | id in a.infos ensures a.infos[id] == b.infos[id] {
      assert db[StoreKey(l, id)] == InfoValue(a.infos[id]);
      assert db[StoreKey(l, id)] == InfoValue(b.infos[id]);
    }
    assert a.infos == b.infos;
    forall n | n in a.ids ensures n in b.ids && b.ids[n] == a.ids[n] {
      var id := a.ids[n];
      assert id in b.infos && KeyOf(l, b.infos[id]) == n;
    }
    forall n | n in b.ids ensures n in a.ids {
      var id := b.ids[n];
      assert id in a.infos && KeyOf(l, a.infos[id]) == n;
    }
  }

  lemma SameKids(l: Level, up: Level, p: Table, q: Table, a: Table, b: Table)
    requires Linked(l, up, p, a) && Linked(l, up, q, b) && a.infos == b.infos
    ensures p.children == q.children
  {
    forall x ensures Kids(p, x) == Kids(q, x) {
      forall c | c in Kids(p, x) ensures c in Kids(q, x) {
        assert c in b.infos && ParentId(l, b.infos[c]) == x;
      }
      forall c | c in Kids(q, x) ensures c in Kids(p, x) {
        assert c in a.infos && ParentId(l, a.infos[c]) == x;
      }
    }
    forall x | x in p.children ensures x in q.children && q.children[x] == p.children[x] {
      assert Kids(p, x) == Kids(q, x);
    }
    forall x | x in q.children ensures x in p.children {
      assert Kids(p, x) == Kids(q, x);
    }
  }

  /** The store determines the whole memory: names, infos, child sets, counters. */
  lemma StoreDeterminesMemory(a: State, b: State)
    requires Inv(a) && Inv(b) && a.db == b.db
    ensures a == b
  {
    SameTable(Namespace, a.ns, b.ns, a.db);
    SameTable(Zone, a.zone, b.zone, a.db);
    SameTable(Servlet, a.servlet, b.servlet, a.db);
    SameKids(Zone, Namespace, a.ns, b.ns, a.zone, b.zone);
    SameKids(Servlet, Zone, a.zone, b.zone, a.servlet, b.servlet);
  }

  lemma {:induction false} RunConcat(v: Variant, s: State, log: seq<Request>, more: seq<Request>)
    ensures Run(v, s, log + more).0 == Run(v, Run(v, s, log).0, more).0
    ensures Run(v, s, log + more).1 == Run(v, s, log).1 + Run(v, Run(v, s, log).0, more).1
    decreases |log|
  {
    if log == [] {
      assert log + more == more;
    } else {
      assert (log + more)[1..] == log[1..] + more && (log + more)[0] == log[0];
      RunConcat(v, Apply(v, s, log[0]).0, log[1..], more);
    }
  }

  /** Apply a prefix, dump the store, load it anywhere, apply the rest: the end
      state and every reply are those of applying the whole log. */
  lemma SnapshotCommutes(v: Variant, prefix: seq<Request>, suffix: seq<Request>, loaded: State)
    requires GoodLog(v, INIT, prefix)
    requires Inv(loaded) && loaded.db == Run(v, INIT, prefix).0.db
    ensures var (end, replies) := Run(v, loaded, suffix);
            Run(v, INIT, prefix + suffix) == (end, Run(v, INIT, prefix).1 + replies)
  {
    RunInv(v, INIT, prefix);
    StoreDeterminesMemory(loaded, Run(v, INIT, prefix).0);
    RunConcat(v, INIT, prefix, suffix);
  }

  // ---- names with a separator

  function Named(n: string, z: string): Info {
    DEFAULT_INFO.(namespaceName := n, zone := z)
  }

  /** The clean names are needed: a drop through a confusable key takes the zone
      away from under a namespace that keeps listing it. */
  lemma SeparatorInNameBreaks()
    ensures var a, b, c := "a", "b", "c";
            var log := [
              Request(CreateNamespace, Named(a, ""), true),
              Request(CreateNamespace, Named(a + [SEP] + b, ""), true),
              Request(CreateZone, Named(a + [SEP] + b, c), true),
              Request(DropZone, Named(a, b + [SEP] + c), true)];
            var s := Run(Intended, INIT, log).0;
            1 in Kids(s.ns, 2) && 1 !in s.zone.infos
  {
    var a, b, c := "a", "b", "c";
    var ab := a + [SEP] + b;
    UncleanNamesCollide(a, b, c);
    var r1 := Request(CreateNamespace, Named(a, ""), true);
    var r2 := Request(CreateNamespace, Named(ab, ""), true);
    var r3 := Request(CreateZone, Named(ab, c), true);
    var r4 := Request(DropZone, Named(a, b + [SEP] + c), true);
    var s1 := Apply(Intended, INIT, r1).0;
    assert s1.ns.ids == map[a := 1] && s1.ns.maxId == 1 && s1.zone == EMPTY_TABLE && s1.ns.children == map[];
    var s2 := Apply(Intended, s1, r2).0;
    assert s2.ns.ids == map[a := 1, ab := 2] && s2.zone == EMPTY_TABLE && s2.ns.children == map[];
    var s3 := Apply(Intended, s2, r3).0;
    assert s3.zone.ids == map[MakeZoneKey(ab, c) := 1] && s3.ns.ids == s2.ns.ids && s3.zone.children == map[];
    assert GetId(s2.ns, ab) == 2 && s3.ns.children == map[2 := {} + {1}];
    var s4 := Apply(Intended, s3, r4).0;
    assert ZoneKeyOf(r4.info) == MakeZoneKey(ab, c) && GetId(s3.ns, a) == 1 && Kids(s3.zone, 1) == {};
    assert s4.ns == DeleteKid(s3.ns, 1, 1);
    assert Kids(s2.ns, 2) + {1} == {1};
    assert s3.ns.children == map[2 := {1}];
    assert s4.ns.children == s3.ns.children - {1};
    RunFour(INIT, r1, r2, r3, r4);
  }

  lemma RunFour(s: State, a: Request, b: Request, c: Request, d: Request)
    ensures Run(Intended, s, [a, b, c, d]).0 ==
            Apply(Intended, Apply(Intended, Apply(Intended, Apply(Intended, s, a).0, b).0, c).0, d).0
  {
    assert [a, b, c, d][1..] == [b, c, d] && [b, c, d][1..] == [c, d] && [c, d][1..] == [d] && [d][1..] == [];
    var s1 := Apply(Intended, s, a).0;
    var s2 := Apply(Intended, s1, b).0;
    var s3 := Apply(Intended, s2, c).0;
    assert Run(Intended, s3, [d]).0 == Apply(Intended, s3, d).0;
    assert Run(Intended, s2, [c, d]).0 == Run(Intended, s3, [d]).0;
    assert Run(Intended, s1, [b, c, d]).0 == Run(Intended, s2, [c, d]).0;
  }

  // ---- where a log of the code gets to

  function InZone(z: string, x: string): Info {
    DEFAULT_INFO.(namespaceName := "n", zone := z, servletName := x)
  }

  function Entry(op: Op, z: string, x: string): Request {
    Request(op, InZone(z, x), true)
  }

  lemma AfterNamespace()
    ensures var s := Apply(AsWritten, INIT, Entry(CreateNamespace, "", "")).0;
            GetId(s.ns, "n") == 1 && s.zone == EMPTY_TABLE && s.servlet == EMPTY_TABLE
    ensures AsIntended(INIT, Entry(CreateNamespace, "", "")) && InPlace(INIT, Entry(CreateNamespace, "", ""))
  {
  }

  lemma AfterZone(s: State, z: string)
    requires GetId(s.ns, "n") == 1 && ZoneKeyOf(InZone(z, "")) !in s.zone.ids
    ensures var t := Apply(AsWritten, s, Entry(CreateZone, z, "")).0;
            && GetId(t.ns, "n") == 1 && t.servlet == s.servlet
            && t.zone.maxId == s.zone.maxId + 1 && t.zone.children == s.zone.children
            && t.zone.ids == s.zone.ids[ZoneKeyOf(InZone(z, "")) := t.zone.maxId]
    ensures AsIntended(s, Entry(CreateZone, z, "")) && InPlace(s, Entry(CreateZone, z, ""))
  {
    hide MakeZoneKey;
  }

  /** In the first zone of the first namespace the ids coincide and all is well. */
  lemma AfterServlet(s: State, z: string, x: string)
    requires GetId(s.ns, "n") == 1 && GetId(s.zone, ZoneKeyOf(InZone(z, ""))) == 1
    requires KeyOf(Servlet, InZone(z, x)) !in s.servlet.ids
    ensures var t := Apply(AsWritten, s, Entry(CreateServlet, z, x)).0;
            && t.ns == s.ns && t.zone.ids == s.zone.ids
            && t.servlet.maxId == s.servlet.maxId + 1
            && t.servlet.ids == s.servlet.ids[KeyOf(Servlet, InZone(z, x)) := t.servlet.maxId]
    ensures AsIntended(s, Entry(CreateServlet, z, x)) && InPlace(s, Entry(CreateServlet, z, x))
  {
    hide MakeZoneKey, MakeServletKey;
    assert ZoneKeyOf(InZone(z, x)) == ZoneKeyOf(InZone(z, ""));
  }

  lemma KeysDiffer()
    ensures MakeZoneKey("n", "a") != MakeZoneKey("n", "b")
    ensures MakeServletKey(MakeZoneKey("n", "a"), "x") != MakeServletKey(MakeZoneKey("n", "a"), "y")
    ensures forall x :: MakeServletKey(MakeZoneKey("n", "a"), x) != MakeZoneKey("n", "a")
  {
    var a, b := MakeZoneKey("n", "a"), MakeZoneKey("n", "b");
    assert a[|a| - 1] != b[|b| - 1];
    var x, y := MakeServletKey(a, "x"), MakeServletKey(a, "y");
    assert x[|x| - 1] != y[|y| - 1];
    forall z ensures MakeServletKey(a, z) != a {
      assert |MakeServletKey(a, z)| > |a|;
    }
  }

  lemma RunThree(v: Variant, s: State, a: Request, b: Request, c: Request)
    ensures Run(v, s, [a, b, c]).0 == Apply(v, Apply(v, Apply(v, s, a).0, b).0, c).0
    ensures GoodLog(v, s, [a, b, c]) <==>
              var t := Apply(v, s, a).0;
              var u := Apply(v, t, b).0;
              && InPlace(s, a) && InPlace(t, b) && InPlace(u, c)
              && (v.AsWritten? ==> AsIntended(s, a) && AsIntended(t, b) && AsIntended(u, c))
  {
    hide Apply, AsIntended, InPlace;
    assert [a, b, c][1..] == [b, c] && [b, c][1..] == [c] && [c][1..] == [];
    var t := Apply(v, s, a).0;
    var u := Apply(v, t, b).0;
    assert Run(v, u, [c]).0 == Apply(v, u, c).0;
    assert Run(v, t, [b, c]).0 == Run(v, u, [c]).0;
    assert GoodLog(v, u, [c]) <==> InPlace(u, c) && (v.AsWritten? ==> AsIntended(u, c));
    assert GoodLog(v, t, [b, c]) <==> InPlace(t, b) && (v.AsWritten? ==> AsIntended(t, b)) && GoodLog(v, u, [c]);
  }

  lemma TwoZones()
    ensures var log := [Entry(CreateNamespace, "", ""), Entry(CreateZone, "a", ""), Entry(CreateZone, "b", "")];
            var s := Run(AsWritten, INIT, log).0;
            && GoodLog(AsWritten, INIT, log) && GetId(s.ns, "n") == 1
            && GetId(s.zone, ZoneKeyOf(InZone("b", ""))) == 2 && s.zone.children == map[] && s.servlet == EMPTY_TABLE
  {
    var a, b, c := Entry(CreateNamespace, "", ""), Entry(CreateZone, "a", ""), Entry(CreateZone, "b", "");
    var s1 := Apply(AsWritten, INIT, a).0;
    KeysDiffer();
    AfterNamespace();
    AfterZone(s1, "a");
    AfterZone(Apply(AsWritten, s1, b).0, "b");
    hide Apply, AsIntended, InPlace, MakeZoneKey, MakeServletKey;
    RunThree(AsWritten, INIT, a, b, c);
  }

  lemma TwoServlets()
    ensures var log := [Entry(CreateNamespace, "", ""), Entry(CreateZone, "a", ""), Entry(CreateServlet, "a", "x")];
            var s := Run(AsWritten, INIT, log).0;
            var t := Apply(AsWritten, s, Entry(CreateServlet, "a", "y")).0;
            && GoodLog(AsWritten, INIT, log) && AsIntended(s, Entry(CreateServlet, "a", "y"))
            && GetId(t.ns, "n") == 1 && GetId(t.zone, ZoneKeyOf(InZone("a", ""))) == 1
            && GetId(t.servlet, KeyOf(Servlet, InZone("a", "x"))) == 1 && GetId(t.servlet, KeyOf(Servlet, InZone("a", "y"))) == 2
            && ZoneKeyOf(InZone("a", "x")) !in t.servlet.ids
  {
    var a, b, c := Entry(CreateNamespace, "", ""), Entry(CreateZone, "a", ""), Entry(CreateServlet, "a", "x");
    var s1 := Apply(AsWritten, INIT, a).0;
    var s2 := Apply(AsWritten, s1, b).0;
    KeysDiffer();
    AfterNamespace();
    AfterZone(s1, "a");
    AfterServlet(s2, "a", "x");
    AfterServlet(Apply(AsWritten, s2, c).0, "a", "y");
    hide Apply, AsIntended, InPlace, MakeZoneKey, MakeServletKey;
    RunThree(AsWritten, INIT, a, b, c);
  }

  lemma InitInv()
    ensures Inv(INIT)
  {
  }

  /** The code gets there: one namespace, two zones, and the first servlet of the
      second zone is filed under the namespace's id. */
  lemma CreateGoesWrong()
    ensures var log := [Entry(CreateNamespace, "", ""), Entry(CreateZone, "a", ""), Entry(CreateZone, "b", "")];
            var s := Run(AsWritten, INIT, log).0;
            var create := Entry(CreateServlet, "b", "x");
            var t := Apply(AsWritten, s, create).0;
            && GoodLog(AsWritten, INIT, log) && !AsIntended(s, create)
            && !Inv(t) && DoDropZone(t, create.info, true).1 == DONE
  {
    var log := [Entry(CreateNamespace, "", ""), Entry(CreateZone, "a", ""), Entry(CreateZone, "b", "")];
    var s := Run(AsWritten, INIT, log).0;
    TwoZones();
    InitInv();
    RunInv(AsWritten, INIT, log);
    hide Run, GoodLog;
    SecondZoneGoesWrong(s);
  }

  lemma SecondZoneGoesWrong(s: State)
    requires Inv(s) && GetId(s.ns, "n") == 1 && GetId(s.zone, ZoneKeyOf(InZone("b", ""))) == 2
    requires s.zone.children == map[] && s.servlet == EMPTY_TABLE
    ensures var create := Entry(CreateServlet, "b", "x");
            !AsIntended(s, create) && !Inv(DoCreateServlet(AsWritten, s, create.info, true).0)
            && DoDropZone(DoCreateServlet(AsWritten, s, create.info, true).0, create.info, true).1 == DONE
  {
    var i := InZone("b", "x");
    assert ZoneKeyOf(i) == ZoneKeyOf(InZone("b", ""));
    hide MakeZoneKey, MakeServletKey, Inv;
    assert !AsIntended(s, Request(CreateServlet, i, true));
    CreateAsWrittenLoses(s, i);
    CreateAsWrittenDiverges(s, i);
    hide DoCreateServlet, DoDropZone;
  }

  /** And with two servlets in the first zone, modifying the second or dropping
      the first is not what was meant. */
  lemma ModifyAndDropGoWrong()
    ensures var log := [Entry(CreateNamespace, "", ""), Entry(CreateZone, "a", ""), Entry(CreateServlet, "a", "x")];
            var s := Run(AsWritten, INIT, log).0;
            var create := Entry(CreateServlet, "a", "y");
            var t := Apply(AsWritten, s, create).0;
            && GoodLog(AsWritten, INIT, log) && AsIntended(s, create)
            && !AsIntended(t, Entry(ModifyServlet, "a", "y"))
            && !Inv(DoModifyServlet(AsWritten, t, InZone("a", "y"), true).0)
            && !AsIntended(t, Entry(DropServlet, "a", "x"))
            && DoDropServlet(AsWritten, t, InZone("a", "x"), true) == (t, Refuse("zone not exist"))
  {
    var log := [Entry(CreateNamespace, "", ""), Entry(CreateZone, "a", ""), Entry(CreateServlet, "a", "x")];
    var s := Run(AsWritten, INIT, log).0;
    var create := Entry(CreateServlet, "a", "y");
    TwoServlets();
    InitInv();
    RunInv(AsWritten, INIT, log);
    hide Run, GoodLog;
    assert InPlace(s, create);
    StepInv(AsWritten, s, create);
    hide Apply;
    SecondServletGoesWrong(Apply(AsWritten, s, create).0);
  }

  lemma SecondServletGoesWrong(t: State)
    requires Inv(t) && GetId(t.ns, "n") == 1 && GetId(t.zone, ZoneKeyOf(InZone("a", ""))) == 1
    requires GetId(t.servlet, KeyOf(Servlet, InZone("a", "x"))) == 1 && GetId(t.servlet, KeyOf(Servlet, InZone("a", "y"))) == 2
    requires ZoneKeyOf(InZone("a", "x")) !in t.servlet.ids
    ensures !AsIntended(t, Entry(ModifyServlet, "a", "y"))
    ensures !Inv(DoModifyServlet(AsWritten, t, InZone("a", "y"), true).0)
    ensures !AsIntended(t, Entry(DropServlet, "a", "x"))
    ensures DoDropServlet(AsWritten, t, InZone("a", "x"), true) == (t, Refuse("zone not exist"))
  {
    hide Inv, DoModifyServlet, DoDropServlet;
    NotAsMeant(t);
    hide AsIntended, ParentsFound, ZoneKeyOf, KeyOf, GetId;
    ModifyAsWrittenLoses(t, InZone("a", "y"), true);
    DropAsIntended(t, InZone("a", "x"), true);
  }

  lemma NotAsMeant(t: State)
    requires GetId(t.ns, "n") == 1 && GetId(t.zone, ZoneKeyOf(InZone("a", ""))) == 1
    requires GetId(t.servlet, KeyOf(Servlet, InZone("a", "x"))) == 1 && GetId(t.servlet, KeyOf(Servlet, InZone("a", "y"))) == 2
    requires ZoneKeyOf(InZone("a", "x")) !in t.servlet.ids
    ensures !AsIntended(t, Entry(ModifyServlet, "a", "y")) && !AsIntended(t, Entry(DropServlet, "a", "x"))
    ensures ParentsFound(t, InZone("a", "x"))
  {
    assert ZoneKeyOf(InZone("a", "x")) == ZoneKeyOf(InZone("a", "y")) == ZoneKeyOf(InZone("a", ""));
    hide MakeZoneKey, MakeServletKey;
  }
}

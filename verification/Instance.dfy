/** Service instances and the three indexes over them: instance_manager.cc,
    instance_manager.h, the flattened query of query_instance_manager.cc, and
    the id lookup of schema_manager.cc that guards an add. */
module Instance {
  import opened Replies
  import opened Wrappers
  import opened Names
  import Schema
  import SchemaRuns

  datatype Ids = Ids(namespaceId: int, zoneId: int, servletId: int)

  /** A ServletInstance; a setting that is absent is None. */
  datatype Info = Info(
    address: string,
    namespaceName: string, zoneName: string, servletName: string,
    ids: Ids,
    version: int,
    status: Option<int>, color: Option<string>, env: Option<string>, weight: Option<int>)

  datatype Level = ByNamespace | ByZone | ByServlet

  /** The key under which an index files an instance of these names. */
  function NamesKey(l: Level, namespaceName: string, zone: string, servlet: string): string {
    match l
    case ByNamespace => namespaceName
    case ByZone => MakeZoneKey(namespaceName, zone)
    case ByServlet => MakeServletKey(MakeZoneKey(namespaceName, zone), servlet)
  }

  function Key(l: Level, i: Info): string {
    NamesKey(l, i.namespaceName, i.zoneName, i.servletName)
  }

  type Infos = map<string, Info>
  type Index = map<string, set<string>>

  /** removed: when each dropped address was dropped, by the replica's own clock. */
  datatype State = State(
    infos: Infos,
    removed: map<string, int>,
    byNamespace: Index, byZone: Index, byServlet: Index,
    db: Infos)
  {
    function At(l: Level): Index {
      match l case ByNamespace => byNamespace case ByZone => byZone case ByServlet => byServlet
    }
  }

  const INIT := State(map[], map[], map[], map[], map[], map[])

  /** Dropping as the code does it takes a whole bucket away; what is meant is
      to take one address away. */
  datatype Variant = AsWritten | Intended

  // ---- the operations

  function Bucket(ix: Index, key: string): set<string> {
    if key in ix then ix[key] else {}
  }

  function File(ix: Index, key: string, address: string): Index {
    ix[key := Bucket(ix, key) + {address}]
  }

  function Unfile(v: Variant, ix: Index, key: string, address: string): Index {
    if v.AsWritten? || Bucket(ix, key) - {address} == {} then ix - {key}
    else ix[key := Bucket(ix, key) - {address}]
  }

  function SetInfo(s: State, i: Info): State {
    s.(infos := s.infos[i.address := i],
       removed := s.removed - {i.address},
       byNamespace := File(s.byNamespace, Key(ByNamespace, i), i.address),
       byZone := File(s.byZone, Key(ByZone, i), i.address),
       byServlet := File(s.byServlet, Key(ByServlet, i), i.address))
  }

  function RemoveInfo(v: Variant, s: State, address: string, now: int): State
    requires address in s.infos
  {
    var i := s.infos[address];
    s.(infos := s.infos - {address},
       removed := s.removed[address := now],
       byNamespace := Unfile(v, s.byNamespace, Key(ByNamespace, i), address),
       byZone := Unfile(v, s.byZone, Key(ByZone, i), address),
       byServlet := Unfile(v, s.byServlet, Key(ByServlet, i), address))
  }

  const TOMBSTONE_S := 3600

  predicate Buried(s: State, address: string, now: int) {
    address in s.removed && now - s.removed[address] < TOMBSTONE_S
  }

  /** ids: what the schema says of the names, None when one of them is missing.
      ok: whether the store takes the write. */
  function DoAdd(s: State, i: Info, ids: Option<Ids>, now: int, ok: bool): (State, Reply) {
    if ids.None? then (s, Refuse("request invalid"))
    else if i.address in s.infos then (s, Refuse("instance already existed"))
    else if Buried(s, i.address, now) then (s, Refuse("removed in 1 hour"))
    else if !ok then (s, WRITE_FAIL)
    else
      var info := i.(ids := ids.value, version := 1);
      (SetInfo(s, info).(db := s.db[i.address := info]), DONE)
  }

  function DoDrop(v: Variant, s: State, i: Info, now: int, ok: bool): (State, Reply) {
    if i.address !in s.infos then (s, Refuse("address not exist"))
    else if !ok then (s, WRITE_FAIL)
    else (RemoveInfo(v, s, i.address, now).(db := s.db - {i.address}), DONE)
  }

  function Updated(was: Info, asked: Info): Info {
    was.(status := Override(was.status, asked.status), color := Override(was.color, asked.color),
         env := Override(was.env, asked.env), weight := Override(was.weight, asked.weight),
         version := was.version + 1)
  }

  function DoUpdate(s: State, i: Info, ok: bool): (State, Reply) {
    if i.address !in s.infos then (s, Refuse("address not exist"))
    else if !ok then (s, WRITE_FAIL)
    else
      var info := Updated(s.infos[i.address], i);
      (SetInfo(s, info).(db := s.db[i.address := info]), DONE)
  }

  datatype Op = Add(ids: Option<Ids>) | Drop | Update

  /** now: what the replica applying the entry reads on its clock, in seconds. */
  datatype Request = Request(op: Op, info: Info, now: int, ok: bool)

  function Apply(v: Variant, s: State, r: Request): (State, Reply) {
    match r.op
    case Add(ids) => DoAdd(s, r.info, ids, r.now, r.ok)
    case Drop => DoDrop(v, s, r.info, r.now, r.ok)
    case Update => DoUpdate(s, r.info, r.ok)
  }

  function Run(v: Variant, s: State, log: seq<Request>): (State, seq<Reply>)
    decreases |log|
  {
    if log == [] then (s, [])
    else
      var (t, reply) := Apply(v, s, log[0]);
      var (u, replies) := Run(v, t, log[1..]);
      (u, [reply] + replies)
  }

  // ---- what an index is for

  /** No dangling and no misfiled address, and no empty bucket. */
  ghost predicate IndexSound(l: Level, ix: Index, infos: Infos) {
    && (forall k :: k in ix ==> ix[k] != {})
    && (forall k, a :: k in ix && a in ix[k] ==> a in infos && Key(l, infos[a]) == k)
  }

  /** Every instance is filed. */
  ghost predicate IndexComplete(l: Level, ix: Index, infos: Infos) {
    forall a :: a in infos ==> a in Bucket(ix, Key(l, infos[a]))
  }

  ghost predicate Sound(s: State) {
    && (forall a :: a in s.infos ==> s.infos[a].address == a)
    && s.db == s.infos
    && (forall l: Level :: IndexSound(l, s.At(l), s.infos))
  }

  ghost predicate Complete(s: State) {
    forall l: Level :: IndexComplete(l, s.At(l), s.infos)
  }

  lemma FileSound(l: Level, ix: Index, infos: Infos, i: Info)
    requires IndexSound(l, ix, infos)
    requires i.address in infos ==> Key(l, infos[i.address]) == Key(l, i)
    ensures IndexSound(l, File(ix, Key(l, i), i.address), infos[i.address := i])
    ensures IndexComplete(l, ix, infos) ==> IndexComplete(l, File(ix, Key(l, i), i.address), infos[i.address := i])
  {
    hide Key;
  }

  lemma UnfileSound(v: Variant, l: Level, ix: Index, infos: Infos, a: string)
    requires IndexSound(l, ix, infos) && a in infos
    ensures IndexSound(l, Unfile(v, ix, Key(l, infos[a]), a), infos - {a})
    ensures v.Intended? && IndexComplete(l, ix, infos) ==>
              IndexComplete(l, Unfile(v, ix, Key(l, infos[a]), a), infos - {a})
  {
    hide Key;
    var key := Key(l, infos[a]);
    forall b | b in infos && b != a && v.Intended? && IndexComplete(l, ix, infos)
      ensures b in Bucket(Unfile(v, ix, key, a), Key(l, infos[b]))
    {
      assert b in Bucket(ix, Key(l, infos[b]));
    }
  }

  /** Erasing the bucket is harmless exactly when nobody else is in it. */
  lemma EraseComplete(l: Level, ix: Index, infos: Infos, a: string)
    requires IndexSound(l, ix, infos) && IndexComplete(l, ix, infos) && a in infos
    ensures IndexComplete(l, Unfile(AsWritten, ix, Key(l, infos[a]), a), infos - {a})
            <==> forall b :: b in infos && b != a ==> Key(l, infos[b]) != Key(l, infos[a])
  {
    hide Key;
    var ix', infos' := Unfile(AsWritten, ix, Key(l, infos[a]), a), infos - {a};
    forall b | b in infos && b != a
      ensures b in infos' && infos'[b] == infos[b]
      ensures b in Bucket(ix', Key(l, infos'[b])) <==> Key(l, infos[b]) != Key(l, infos[a])
    {
      assert b in Bucket(ix, Key(l, infos[b]));
    }
  }

  lemma SetInfoKeeps(s: State, i: Info)
    requires Sound(s)
    requires i.address in s.infos ==> forall l: Level :: Key(l, s.infos[i.address]) == Key(l, i)
    ensures Sound(SetInfo(s, i).(db := s.db[i.address := i]))
    ensures Complete(s) ==> Complete(SetInfo(s, i).(db := s.db[i.address := i]))
  {
    hide IndexSound, IndexComplete, Key;
    forall l: Level {
      FileSound(l, s.At(l), s.infos, i);
    }
  }

  lemma RemoveInfoKeeps(v: Variant, s: State, a: string, now: int)
    requires Sound(s) && a in s.infos
    ensures Sound(RemoveInfo(v, s, a, now).(db := s.db - {a}))
    ensures v.Intended? && Complete(s) ==> Complete(RemoveInfo(v, s, a, now).(db := s.db - {a}))
  {
    hide IndexSound, IndexComplete, Key;
    forall l: Level {
      UnfileSound(v, l, s.At(l), s.infos, a);
    }
  }

  /** Any step of either variant keeps the indexes sound; an intended one, and
      any step but a drop, keeps them complete. */
  lemma StepKeeps(v: Variant, s: State, r: Request)
    requires Sound(s)
    ensures Sound(Apply(v, s, r).0)
    ensures Complete(s) && (v.Intended? || !r.op.Drop?) ==> Complete(Apply(v, s, r).0)
  {
    match r.op
    case Add(ids) =>
      if ids.Some? && r.info.address !in s.infos {
        SetInfoKeeps(s, r.info.(ids := ids.value, version := 1));
      }
    case Drop =>
      if r.info.address in s.infos {
        RemoveInfoKeeps(v, s, r.info.address, r.now);
      }
    case Update =>
      if r.info.address in s.infos {
        SetInfoKeeps(s, Updated(s.infos[r.info.address], r.info));
      }
  }

  lemma {:induction false} RunKeeps(v: Variant, s: State, log: seq<Request>)
    requires Sound(s)
    ensures Sound(Run(v, s, log).0)
    ensures Complete(s) && (v.Intended? || forall k :: 0 <= k < |log| ==> !log[k].op.Drop?) ==>
              Complete(Run(v, s, log).0)
    decreases |log|
  {
    if log != [] {
      hide Sound, Complete;
      StepKeeps(v, s, log[0]);
      assert (forall k :: 0 <= k < |log| ==> !log[k].op.Drop?) ==> !log[0].op.Drop?;
      RunKeeps(v, Apply(v, s, log[0]).0, log[1..]);
    }
  }

  /** One drop as written keeps complete indexes complete exactly when the
      dropped instance shares no bucket with another. */
  lemma DropCompleteIff(s: State, i: Info, now: int)
    requires Sound(s) && Complete(s) && i.address in s.infos
    ensures Complete(DoDrop(AsWritten, s, i, now, true).0)
            <==> forall b, l: Level :: b in s.infos && b != i.address ==> Key(l, s.infos[b]) != Key(l, s.infos[i.address])
  {
    hide IndexSound, Key;
    var t := DoDrop(AsWritten, s, i, now, true).0;
    forall l: Level
      ensures IndexComplete(l, t.At(l), t.infos)
              <==> forall b :: b in s.infos && b != i.address ==> Key(l, s.infos[b]) != Key(l, s.infos[i.address])
    {
      EraseComplete(l, s.At(l), s.infos, i.address);
    }
    hide IndexComplete;
  }

  predicate CleanInfo(i: Info) {
    Clean(i.namespaceName) && Clean(i.zoneName)
  }

  /** Sharing a zone or a servlet means sharing the namespace. */
  lemma SharedKeySharedNamespace(l: Level, i: Info, j: Info)
    requires CleanInfo(i) && CleanInfo(j) && Key(l, i) == Key(l, j)
    ensures i.namespaceName == j.namespaceName
    ensures l != ByNamespace ==> i.zoneName == j.zoneName
    ensures l == ByServlet ==> i.servletName == j.servletName
  {
    match l
    case ByNamespace =>
    case ByZone => SplitUnique(i.namespaceName, i.zoneName, j.namespaceName, j.zoneName);
    case ByServlet =>
      ServletKeyUnique(i.namespaceName, i.zoneName, i.servletName, j.namespaceName, j.zoneName, j.servletName);
  }

  /** So with valid names the code's drop is right exactly when the instance is
      the last one of its namespace; otherwise it hides every neighbour. */
  lemma DropNeedsLastOfNamespace(s: State, i: Info, now: int)
    requires Sound(s) && Complete(s) && i.address in s.infos
    requires forall a :: a in s.infos ==> CleanInfo(s.infos[a])
    ensures Complete(DoDrop(AsWritten, s, i, now, true).0)
            <==> forall b :: b in s.infos && b != i.address ==>
                   s.infos[b].namespaceName != s.infos[i.address].namespaceName
    ensures forall b :: b in s.infos && b != i.address && s.infos[b].namespaceName == s.infos[i.address].namespaceName ==>
              var t := DoDrop(AsWritten, s, i, now, true).0;
              b in t.infos && b !in Bucket(t.byNamespace, t.infos[b].namespaceName)
  {
    DropCompleteIff(s, i, now);
    hide Sound, Complete, Clean, MakeZoneKey, MakeServletKey;
    forall b, l: Level | b in s.infos && b != i.address && Key(l, s.infos[b]) == Key(l, s.infos[i.address])
      ensures s.infos[b].namespaceName == s.infos[i.address].namespaceName
    {
      SharedKeySharedNamespace(l, s.infos[b], s.infos[i.address]);
    }
    forall b | b in s.infos ensures Key(ByNamespace, s.infos[b]) == s.infos[b].namespaceName {
    }
  }

  // ---- queries

  datatype QueryReply = NoInstance | Found(addresses: set<string>)

  /** The addresses a flattened query lists: all of them, or those of one bucket. */
  function Query(s: State, at: Option<(Level, string)>): QueryReply {
    match at
    case None => Found(s.infos.Keys)
    case Some((l, key)) => if key in s.At(l) then Found(s.At(l)[key]) else NoInstance
  }

  /** An absent name and an empty one mean the same. */
  function QueryKey(namespaceName: string, zone: string, servlet: string): Option<(Level, string)> {
    if namespaceName == "" then None
    else if zone == "" then Some((ByNamespace, namespaceName))
    else if servlet == "" then Some((ByZone, MakeZoneKey(namespaceName, zone)))
    else Some((ByServlet, MakeServletKey(MakeZoneKey(namespaceName, zone), servlet)))
  }

  predicate Matches(i: Info, namespaceName: string, zone: string, servlet: string) {
    && (namespaceName == "" || i.namespaceName == namespaceName)
    && (namespaceName == "" || zone == "" || i.zoneName == zone)
    && (namespaceName == "" || zone == "" || servlet == "" || i.servletName == servlet)
  }

  /** The addresses a query should list. */
  function Filter(infos: Infos, namespaceName: string, zone: string, servlet: string): set<string> {
    set a | a in infos && Matches(infos[a], namespaceName, zone, servlet)
  }

  function Listed(r: QueryReply): set<string> {
    match r case NoInstance => {} case Found(a) => a
  }

  lemma BucketIsKeyFilter(l: Level, ix: Index, infos: Infos, key: string)
    requires IndexSound(l, ix, infos)
    ensures Bucket(ix, key) <= set a | a in infos && Key(l, infos[a]) == key
    ensures IndexComplete(l, ix, infos) ==> Bucket(ix, key) == set a | a in infos && Key(l, infos[a]) == key
    ensures key in ix <==> Bucket(ix, key) != {}
  {
    hide Key;
  }

  lemma KeyMatchesNames(i: Info, namespaceName: string, zone: string, servlet: string)
    requires CleanInfo(i) && Clean(namespaceName) && Clean(zone)
    ensures match QueryKey(namespaceName, zone, servlet)
            case None => Matches(i, namespaceName, zone, servlet)
            case Some((l, key)) => Key(l, i) == key <==> Matches(i, namespaceName, zone, servlet)
  {
    if namespaceName != "" && zone != "" {
      if servlet == "" {
        if Key(ByZone, i) == MakeZoneKey(namespaceName, zone) {
          SplitUnique(i.namespaceName, i.zoneName, namespaceName, zone);
        }
      } else if Key(ByServlet, i) == MakeServletKey(MakeZoneKey(namespaceName, zone), servlet) {
        ServletKeyUnique(i.namespaceName, i.zoneName, i.servletName, namespaceName, zone, servlet);
      }
    }
  }

  /** A query over sound indexes lists nothing it should not; over complete ones
      it lists exactly what it should, and says there is none only if so. */
  lemma QueryIsFilter(s: State, namespaceName: string, zone: string, servlet: string)
    requires Sound(s) && Clean(namespaceName) && Clean(zone)
    requires forall a :: a in s.infos ==> CleanInfo(s.infos[a])
    ensures var reply := Query(s, QueryKey(namespaceName, zone, servlet));
            var meant := Filter(s.infos, namespaceName, zone, servlet);
            && Listed(reply) <= meant
            && (Complete(s) ==> Listed(reply) == meant)
            && (reply.NoInstance? ==> namespaceName != "")
            && (reply.Found? && namespaceName != "" ==> reply.addresses != {})
  {
    hide MakeZoneKey, MakeServletKey, Clean;
    forall a | a in s.infos
      ensures match QueryKey(namespaceName, zone, servlet)
              case None => Matches(s.infos[a], namespaceName, zone, servlet)
              case Some((l, key)) => Key(l, s.infos[a]) == key <==> Matches(s.infos[a], namespaceName, zone, servlet)
    {
      KeyMatchesNames(s.infos[a], namespaceName, zone, servlet);
    }
    match QueryKey(namespaceName, zone, servlet)
    case None =>
    case Some((l, key)) =>
      BucketIsKeyFilter(l, s.At(l), s.infos, key);
  }

  lemma {:induction false} NamesStayClean(v: Variant, s: State, log: seq<Request>)
    requires Sound(s) && forall a :: a in s.infos ==> CleanInfo(s.infos[a])
    requires forall k :: 0 <= k < |log| && log[k].op.Add? ==> CleanInfo(log[k].info)
    ensures forall a :: a in Run(v, s, log).0.infos ==> CleanInfo(Run(v, s, log).0.infos[a])
    decreases |log|
  {
    if log != [] {
      StepKeeps(v, s, log[0]);
      hide Sound, Clean;
      NamesStayClean(v, Apply(v, s, log[0]).0, log[1..]);
    }
  }

  /** Every query of every run: never a wrong instance, and in an intended run,
      or one as written without drops, never a missing one. */
  lemma QueriesOverRuns(v: Variant, log: seq<Request>, namespaceName: string, zone: string, servlet: string)
    requires forall k :: 0 <= k < |log| && log[k].op.Add? ==> CleanInfo(log[k].info)
    requires Clean(namespaceName) && Clean(zone)
    ensures var s := Run(v, INIT, log).0;
            var listed := Listed(Query(s, QueryKey(namespaceName, zone, servlet)));
            && listed <= Filter(s.infos, namespaceName, zone, servlet)
            && (v.Intended? || (forall k :: 0 <= k < |log| ==> !log[k].op.Drop?) ==>
                  listed == Filter(s.infos, namespaceName, zone, servlet))
  {
    RunKeeps(v, INIT, log);
    NamesStayClean(v, INIT, log);
    QueryIsFilter(Run(v, INIT, log).0, namespaceName, zone, servlet);
  }

  /** Add two instances to one namespace, drop the first as the code does, and
      the namespace, with the second still in it, is reported to have none. */
  lemma DropHidesNeighbour(i: Info, j: Info, x: Ids, y: Ids, now: int)
    requires i.address != j.address && i.namespaceName == j.namespaceName != ""
    ensures var s := Run(AsWritten, INIT, [
              Request(Add(Some(x)), i, now, true),
              Request(Add(Some(y)), j, now, true),
              Request(Drop, i, now, true)]).0;
            && j.address in Filter(s.infos, j.namespaceName, "", "")
            && Query(s, QueryKey(j.namespaceName, "", "")) == NoInstance
  {
    var a, b, c := Request(Add(Some(x)), i, now, true), Request(Add(Some(y)), j, now, true), Request(Drop, i, now, true);
    var s1 := Apply(AsWritten, INIT, a).0;
    assert s1.infos == map[i.address := i.(ids := x, version := 1)] && s1.removed == map[];
    var s2 := Apply(AsWritten, s1, b).0;
    assert s2.infos == s1.infos[j.address := j.(ids := y, version := 1)];
    var s3 := Apply(AsWritten, s2, c).0;
    assert s3.infos[j.address] == j.(ids := y, version := 1) && i.namespaceName !in s3.byNamespace;
    assert [a, b, c][1..] == [b, c] && [b, c][1..] == [c] && [c][1..] == [];
    assert Run(AsWritten, s2, [c]).0 == s3;
    assert Run(AsWritten, s1, [b, c]).0 == s3;
  }

  // ---- the store rebuilds the memory

  /** Sound and complete indexes are determined by the instances alone. */
  lemma IndexDetermined(l: Level, a: Index, b: Index, infos: Infos)
    requires IndexSound(l, a, infos) && IndexComplete(l, a, infos)
    requires IndexSound(l, b, infos) && IndexComplete(l, b, infos)
    ensures a == b
  {
    forall key ensures Bucket(a, key) == Bucket(b, key) && (key in a <==> key in b) {
      BucketIsKeyFilter(l, a, infos, key);
      BucketIsKeyFilter(l, b, infos, key);
    }
    hide IndexSound, IndexComplete;
    forall key | key in a ensures key in b && a[key] == b[key] {
      assert Bucket(a, key) == Bucket(b, key);
    }
    forall key | key in b ensures key in a {
      assert Bucket(a, key) == Bucket(b, key);
    }
  }

  /** Equal in everything but the tombstones. */
  predicate Same(s: State, t: State) {
    && s.infos == t.infos && s.db == t.db
    && s.byNamespace == t.byNamespace && s.byZone == t.byZone && s.byServlet == t.byServlet
  }

  lemma StoreDeterminesMemory(s: State, t: State)
    requires Sound(s) && Complete(s) && Sound(t) && Complete(t) && s.db == t.db
    ensures Same(s, t)
  {
    hide IndexSound, IndexComplete;
    assert IndexSound(ByNamespace, s.At(ByNamespace), s.infos) && IndexSound(ByNamespace, t.At(ByNamespace), t.infos);
    assert IndexSound(ByZone, s.At(ByZone), s.infos) && IndexSound(ByZone, t.At(ByZone), t.infos);
    assert IndexSound(ByServlet, s.At(ByServlet), s.infos) && IndexSound(ByServlet, t.At(ByServlet), t.infos);
    IndexDetermined(ByNamespace, s.byNamespace, t.byNamespace, s.infos);
    IndexDetermined(ByZone, s.byZone, t.byZone, s.infos);
    IndexDetermined(ByServlet, s.byServlet, t.byServlet, s.infos);
  }

  /** No add of the log meets a tombstone younger than an hour. */
  predicate NoneBuried(v: Variant, s: State, log: seq<Request>)
    decreases |log|
  {
    log == []
    || ((log[0].op.Add? ==> !Buried(s, log[0].info.address, log[0].now))
        && NoneBuried(v, Apply(v, s, log[0]).0, log[1..]))
  }

  lemma EditsSame(v: Variant, s: State, t: State, i: Info, now: int, db: Infos)
    requires Same(s, t)
    ensures Same(SetInfo(s, i).(db := db), SetInfo(t, i).(db := db))
    ensures i.address in s.infos ==>
              Same(RemoveInfo(v, s, i.address, now).(db := db), RemoveInfo(v, t, i.address, now).(db := db))
  {
    hide File, Unfile, Key;
  }

  lemma StepTombstonesAside(v: Variant, s: State, t: State, r: Request)
    requires Same(s, t)
    requires r.op.Add? ==> !Buried(s, r.info.address, r.now) && !Buried(t, r.info.address, r.now)
    ensures Apply(v, s, r).1 == Apply(v, t, r).1 && Same(Apply(v, s, r).0, Apply(v, t, r).0)
  {
    hide SetInfo, RemoveInfo, Buried;
    match r.op
    case Add(ids) =>
      if ids.Some? {
        var info := r.info.(ids := ids.value, version := 1);
        EditsSame(v, s, t, info, r.now, s.db[info.address := info]);
      }
    case Drop => EditsSame(v, s, t, r.info, r.now, s.db - {r.info.address});
    case Update =>
      if r.info.address in s.infos {
        var info := Updated(s.infos[r.info.address], r.info);
        EditsSame(v, s, t, info, r.now, s.db[r.info.address := info]);
      }
  }

  lemma {:induction false} TombstonesAside(v: Variant, s: State, t: State, log: seq<Request>)
    requires Same(s, t) && NoneBuried(v, s, log) && NoneBuried(v, t, log)
    ensures Run(v, s, log).1 == Run(v, t, log).1 && Same(Run(v, s, log).0, Run(v, t, log).0)
    decreases |log|
  {
    if log != [] {
      StepTombstonesAside(v, s, t, log[0]);
      hide Apply, Same;
      TombstonesAside(v, Apply(v, s, log[0]).0, Apply(v, t, log[0]).0, log[1..]);
    }
  }

  lemma {:induction false} RunConcat(v: Variant, s: State, log: seq<Request>, more: seq<Request>)
    ensures Run(v, s, log + more).0 == Run(v, Run(v, s, log).0, more).0
    ensures Run(v, s, log + more).1 == Run(v, s, log).1 + Run(v, Run(v, s, log).0, more).1
    decreases |log|
  {
    if log == [] {
      assert log + more == more;
    } else {
      assert (log + more)[1..] == log[1..] + more && (log + more)[0] == log[0];
      RunConcat(v, Apply(v, s, log[0]).0, log[1..], more);
    }
  }

  /** Loading a dump and replaying the rest gives the instances, the indexes, the
      store and the replies of replaying everything, tombstones aside. */
  lemma SnapshotCommutes(prefix: seq<Request>, suffix: seq<Request>, loaded: State)
    requires Sound(loaded) && Complete(loaded) && loaded.db == Run(Intended, INIT, prefix).0.db
    requires NoneBuried(Intended, loaded, suffix)
    requires NoneBuried(Intended, Run(Intended, INIT, prefix).0, suffix)
    ensures var whole, rest := Run(Intended, INIT, prefix + suffix), Run(Intended, loaded, suffix);
            && Same(whole.0, rest.0)
            && whole.1 == Run(Intended, INIT, prefix).1 + rest.1
  {
    var mid := Run(Intended, INIT, prefix).0;
    RunKeeps(Intended, INIT, prefix);
    StoreDeterminesMemory(mid, loaded);
    TombstonesAside(Intended, mid, loaded, suffix);
    RunConcat(Intended, INIT, prefix, suffix);
  }

  /** The tombstone is the one thing a snapshot loses: within the hour the same
      entry is refused by a replica that lived through the drop and taken by one
      that loaded the store, and their stores part. */
  lemma TombstoneDiverges(v: Variant, s: State, loaded: State, i: Info, ids: Ids, now: int)
    requires Sound(s) && i.address !in s.infos && Buried(s, i.address, now)
    requires loaded.db == s.db && loaded.infos == s.infos && loaded.removed == map[]
    ensures var r := Request(Add(Some(ids)), i, now, true);
            && Apply(v, s, r) == (s, Refuse("removed in 1 hour"))
            && Apply(v, loaded, r).1 == DONE
            && Apply(v, loaded, r).0.db != Apply(v, s, r).0.db
  {
    assert i.address !in s.db;
  }

  // ---- the ids of an instance

  /** SchemaManager::check_and_get_for_instance. */
  function CheckAndGet(schema: Schema.State, i: Info): Option<Ids> {
    var namespaceId := Schema.GetId(schema.ns, i.namespaceName);
    var zoneId := Schema.GetId(schema.zone, MakeZoneKey(i.namespaceName, i.zoneName));
    var servletId := Schema.GetId(schema.servlet, MakeServletKey(MakeZoneKey(i.namespaceName, i.zoneName), i.servletName));
    if namespaceId == 0 || zoneId == 0 || servletId == 0 then None
    else Some(Ids(namespaceId, zoneId, servletId))
  }

  /** The three ids lie inside one another, and an instance is admitted exactly
      when its servlet exists: servlets stand in zones and zones in namespaces. */
  lemma IdsAreNested(schema: Schema.State, i: Info)
    requires Schema.Inv(schema) && Schema.AllClean(schema) && CleanInfo(i)
    ensures CheckAndGet(schema, i).Some?
            <==> Key(ByServlet, i) in schema.servlet.ids
    ensures CheckAndGet(schema, i).Some? ==>
              var ids := CheckAndGet(schema, i).value;
              && ids.servletId in schema.servlet.infos && ids.zoneId in schema.zone.infos
              && ids.namespaceId in schema.ns.infos
              && schema.servlet.infos[ids.servletId].zoneId == ids.zoneId
              && schema.zone.infos[ids.zoneId].namespaceId == ids.namespaceId
  {
    hide Schema.Linked, Schema.Stored, MakeZoneKey, MakeServletKey;
    var zoneKey := MakeZoneKey(i.namespaceName, i.zoneName);
    var asked := Schema.DEFAULT_INFO.(namespaceName := i.namespaceName, zone := i.zoneName, servletName := i.servletName);
    if Key(ByServlet, i) in schema.servlet.ids {
      Schema.ServletFoundInPlace(schema, asked);
      Schema.Found(Schema.Servlet, schema.servlet, Key(ByServlet, i));
      ServletGivesZone(schema, schema.servlet.ids[Key(ByServlet, i)]);
    }
    if zoneKey in schema.zone.ids {
      Schema.ZoneFoundInPlace(schema, asked);
      Schema.Found(Schema.Zone, schema.zone, zoneKey);
      ZoneGivesNamespace(schema, schema.zone.ids[zoneKey]);
    }
  }

  lemma ServletGivesZone(schema: Schema.State, id: int)
    requires Schema.Linked(Schema.Servlet, Schema.Zone, schema.zone, schema.servlet)
    requires Schema.TableOk(Schema.Zone, schema.zone) && id in schema.servlet.infos
    ensures schema.servlet.infos[id].zoneId in schema.zone.infos && schema.servlet.infos[id].zoneId > 0
  {
    hide MakeZoneKey, MakeServletKey;
    assert Schema.ParentId(Schema.Servlet, schema.servlet.infos[id]) in schema.zone.infos;
  }

  lemma ZoneGivesNamespace(schema: Schema.State, id: int)
    requires Schema.Linked(Schema.Zone, Schema.Namespace, schema.ns, schema.zone)
    requires Schema.TableOk(Schema.Namespace, schema.ns) && id in schema.zone.infos
    ensures schema.zone.infos[id].namespaceId in schema.ns.infos && schema.zone.infos[id].namespaceId > 0
  {
    hide MakeZoneKey, MakeServletKey;
    assert Schema.ParentId(Schema.Zone, schema.zone.infos[id]) in schema.ns.infos;
  }

  // ---- the manager as an object

  class InstanceManager {
    var instanceInfo: Infos
    var removedInstance: map<string, int>
    var namespaceInstance: Index
    var zoneInstance: Index
    var servletInstance: Index
    /** This manager's keys of the store. */
    var db: Infos

    function View(): State
      reads this
    {
      State(instanceInfo, removedInstance, namespaceInstance, zoneInstance, servletInstance, db)
    }

    constructor ()
      ensures View() == INIT
    {
      instanceInfo, removedInstance := map[], map[];
      namespaceInstance, zoneInstance, servletInstance := map[], map[], map[];
      db := map[];
    }

    method SetInstanceInfo(i: Info)
      modifies this`instanceInfo, this`removedInstance, this`namespaceInstance, this`zoneInstance, this`servletInstance
      ensures View() == SetInfo(old(View()), i)
    {
      hide File;
      instanceInfo := instanceInfo[i.address := i];
      removedInstance := removedInstance - {i.address};
      namespaceInstance := Insert(namespaceInstance, i.namespaceName, i.address);
      var zoneKey := MakeZoneKey(i.namespaceName, i.zoneName);
      zoneInstance := Insert(zoneInstance, zoneKey, i.address);
      var servletKey := MakeServletKey(zoneKey, i.servletName);
      servletInstance := Insert(servletInstance, servletKey, i.address);
    }

    /** The three find-or-create blocks of set_instance_info. */
    static method Insert(index: Index, key: string, address: string) returns (filed: Index)
      ensures filed == File(index, key, address)
    {
      filed := index;
      if key !in filed {
        filed := filed[key := {}];
      }
      filed := filed[key := filed[key] + {address}];
    }

    method RemoveInstanceInfo(v: Variant, address: string, now: int)
      requires address in instanceInfo
      modifies this`instanceInfo, this`removedInstance, this`namespaceInstance, this`zoneInstance, this`servletInstance
      ensures View() == RemoveInfo(v, old(View()), address, now)
    {
      var info := instanceInfo[address];
      removedInstance := removedInstance[address := now];
      namespaceInstance := Unfile(v, namespaceInstance, info.namespaceName, address);
      var zoneKey := MakeZoneKey(info.namespaceName, info.zoneName);
      zoneInstance := Unfile(v, zoneInstance, zoneKey, address);
      var servletKey := MakeServletKey(zoneKey, info.servletName);
      servletInstance := Unfile(v, servletInstance, servletKey, address);
      instanceInfo := instanceInfo - {address};
    }

    method AddInstance(i: Info, schema: Schema.State, now: int, ok: bool) returns (reply: Reply)
      modifies this
      ensures (View(), reply) == DoAdd(old(View()), i, CheckAndGet(schema, i), now, ok)
    {
      var ids := CheckAndGet(schema, i);
      if ids.None? {
        return Refuse("request invalid");
      }
      if i.address in instanceInfo {
        return Refuse("instance already existed");
      }
      if i.address in removedInstance {
        if now - removedInstance[i.address] < TOMBSTONE_S {
          return Refuse("removed in 1 hour");
        }
      }
      var info := i.(ids := ids.value, version := 1);
      if !ok {
        return WRITE_FAIL;
      }
      db := db[i.address := info];
      SetInstanceInfo(info);
      reply := DONE;
    }

    method DropInstance(v: Variant, i: Info, now: int, ok: bool) returns (reply: Reply)
      modifies this
      ensures (View(), reply) == DoDrop(v, old(View()), i, now, ok)
    {
      if i.address !in instanceInfo {
        return Refuse("address not exist");
      }
      if !ok {
        return WRITE_FAIL;
      }
      db := db - {i.address};
      RemoveInstanceInfo(v, i.address, now);
      reply := DONE;
    }

    method UpdateInstance(i: Info, ok: bool) returns (reply: Reply)
      modifies this
      ensures (View(), reply) == DoUpdate(old(View()), i, ok)
    {
      if i.address !in instanceInfo {
        return Refuse("address not exist");
      }
      var info := instanceInfo[i.address];
      if i.status.Some? {
        info := info.(status := i.status);
      }
      if i.color.Some? {
        info := info.(color := i.color);
      }
      if i.env.Some? {
        info := info.(env := i.env);
      }
      if i.weight.Some? {
        info := info.(weight := i.weight);
      }
      info := info.(version := info.version + 1);
      if !ok {
        return WRITE_FAIL;
      }
      db := db[i.address := info];
      SetInstanceInfo(info);
      reply := DONE;
    }

    /** The loops of query_instance_flatten: one copy of each instance of a bucket. */
    method QueryInstanceFlatten(namespaceName: string, zone: string, servlet: string)
      returns (reply: Reply, list: seq<Info>)
      requires Sound(View())
      ensures var meant := Query(View(), QueryKey(namespaceName, zone, servlet));
              && (reply == DONE <==> meant.Found?) && (meant.NoInstance? ==> reply.code == InputParamError)
              && (forall i :: i in list <==> i.address in Listed(meant) && i == instanceInfo[i.address])
              && (forall j, k :: 0 <= j < k < |list| ==> list[j].address != list[k].address)
    {
      list := [];
      var left: set<string>;
      match QueryKey(namespaceName, zone, servlet) {
        case None => left := instanceInfo.Keys;
        case Some((l, key)) =>
          var ix := View().At(l);
          assert IndexSound(l, ix, instanceInfo);
          if key !in ix {
            return Refuse("no instance"), [];
          }
          left := ix[key];
      }
      ghost var all := left;
      assert forall a :: a in all ==> a in instanceInfo && instanceInfo[a].address == a;
      while left != {}
        invariant left <= all
        invariant forall i :: i in list <==> i.address in all - left && i == instanceInfo[i.address]
        invariant forall j, k :: 0 <= j < k < |list| ==> list[j].address != list[k].address
        decreases left
      {
        var a :| a in left;
        forall j | 0 <= j < |list| ensures list[j].address != a {
          assert list[j] in list;
        }
        list := list + [instanceInfo[a]];
        left := left - {a};
      }
      reply := DONE;
    }

    /** load_snapshot: whatever order the store is read in, the memory is the one
        whose indexes are sound and complete, and the tombstones are gone. */
    method LoadSnapshot()
      requires forall a :: a in db ==> db[a].address == a
      modifies this`instanceInfo, this`removedInstance, this`namespaceInstance, this`zoneInstance, this`servletInstance
      ensures View().infos == db && View().removed == map[] && Sound(View()) && Complete(View())
    {
      instanceInfo, removedInstance := map[], map[];
      namespaceInstance, zoneInstance, servletInstance := map[], map[], map[];
      hide IndexSound, IndexComplete;
      assert Partial(View(), db.Keys) by {
        forall l: Level ensures IndexSound(l, map[], map[]) && IndexComplete(l, map[], map[]) {
          EmptyIndex(l);
        }
      }
      var left := db.Keys;
      while left != {}
        invariant left <= db.Keys && Partial(View(), left)
        decreases left
      {
        var a :| a in left;
        ghost var before := View();
        SetInstanceInfo(db[a]);
        LoadOne(before, left, a);
        left := left - {a};
      }
      assert instanceInfo.Keys == db.Keys;
    }
  }

  lemma EmptyIndex(l: Level)
    ensures IndexSound(l, map[], map[]) && IndexComplete(l, map[], map[])
  {
  }

  /** Loaded except for what is left. */
  ghost predicate Partial(s: State, left: set<string>) {
    && s.removed == map[]
    && (forall a :: a in s.db ==> s.db[a].address == a)
    && (forall a :: a in s.infos <==> a in s.db && a !in left)
    && (forall a :: a in s.infos ==> s.infos[a] == s.db[a])
    && (forall l: Level :: IndexSound(l, s.At(l), s.infos))
    && (forall l: Level :: IndexComplete(l, s.At(l), s.infos))
  }

  lemma LoadOne(s: State, left: set<string>, a: string)
    requires Partial(s, left) && a in left && a in s.db
    ensures Partial(SetInfo(s, s.db[a]), left - {a})
  {
    hide IndexSound, IndexComplete, Key;
    forall l: Level {
      FileSound(l, s.At(l), s.infos, s.db[a]);
    }
  }
}

/** What a user may do: every right, address and setting of a user is determined
    by the requests for it that were answered with success. */
module PrivilegeHistory {
  import opened Replies
  import opened Wrappers
  import opened Privilege
  import Schema

  // ---- one id

  /** All rights that a list gives for one id, in order; the first one counts. */
  function Values<K(==), N>(s: seq<Entry<K, N>>, k: K): seq<int>
    decreases |s|
  {
    if s == [] then [] else (if s[0].key == k then [s[0].rw.GetOr(0)] else []) + Values(s[1..], k)
  }

  lemma {:induction false} FirstValue<K(!new), N(!new)>(s: seq<Entry<K, N>>, k: K)
    ensures k in Rights(s) <==> Values(s, k) != []
    ensures k in Rights(s) ==> Rights(s)[k] == Values(s, k)[0]
    decreases |s|
  {
    if s != [] {
      FirstValue(s[1..], k);
    }
  }

  /** Being asked for one more right: it is entered if there is none, and otherwise
      replaces the first if it is forced or larger. */
  function Granted(was: seq<int>, rw: int, force: bool): seq<int> {
    if was == [] then [rw]
    else if force || rw > was[0] then [rw] + was[1..]
    else was
  }

  /** Being asked to give a right up: with none named all go; otherwise those that
      are above the one named fall to it, and those that are not are gone. */
  function GivenUp(was: seq<int>, rw: Option<int>): seq<int>
    decreases |was|
  {
    if was == [] || rw.None? then []
    else (if was[0] > rw.value then [rw.value] else []) + GivenUp(was[1..], rw)
  }

  function GrantedAll<K(==), N>(was: seq<int>, es: seq<Entry<K, N>>, k: K): seq<int>
    decreases |es|
  {
    if es == [] then was
    else GrantedAll(if es[0].key == k then Granted(was, es[0].rw.GetOr(0), es[0].force) else was, es[1..], k)
  }

  function GivenUpAll<K(==), N>(was: seq<int>, es: seq<Entry<K, N>>, k: K): seq<int>
    decreases |es|
  {
    if es == [] then was
    else GivenUpAll(if es[0].key == k then GivenUp(was, es[0].rw) else was, es[1..], k)
  }

  lemma ValuesCons<K(!new), N(!new)>(x: Entry<K, N>, s: seq<Entry<K, N>>, k: K)
    ensures Values([x] + s, k) == (if x.key == k then [x.rw.GetOr(0)] else []) + Values(s, k)
  {
    assert ([x] + s)[1..] == s;
  }

  lemma GrantedCons(x: int, was: seq<int>, rw: int, force: bool)
    ensures Granted([x] + was, rw, force) == if force || rw > x then [rw] + was else [x] + was
  {
    assert ([x] + was)[1..] == was;
  }

  lemma {:induction false} InsertValues<K(!new), N(!new)>(s: seq<Entry<K, N>>, e: Entry<K, N>, k: K)
    ensures Values(Insert(s, e), k) == if e.key == k then Granted(Values(s, k), e.rw.GetOr(0), e.force) else Values(s, k)
    decreases |s|
  {
    if s == [] {
      assert [e][1..] == [];
    } else {
      GrantedCons(s[0].rw.GetOr(0), Values(s[1..], k), e.rw.GetOr(0), e.force);
      hide Granted;
      if s[0].key == e.key {
        ValuesCons(Raise(s[0], e), s[1..], k);
      } else {
        InsertValues(s[1..], e, k);
        ValuesCons(s[0], Insert(s[1..], e), k);
        assert [] + Values(s[1..], k) == Values(s[1..], k);
        assert [] + Values(Insert(s[1..], e), k) == Values(Insert(s[1..], e), k);
      }
    }
  }

  lemma GivenUpCons(x: int, was: seq<int>, rw: Option<int>)
    ensures GivenUp([x] + was, rw) == (if rw.Some? && x > rw.value then [rw.value] else []) + GivenUp(was, rw)
  {
    assert ([x] + was)[1..] == was;
  }

  lemma {:induction false} DeleteValues<K(!new), N(!new)>(s: seq<Entry<K, N>>, e: Entry<K, N>, k: K)
    ensures Values(Delete(s, e), k) == if e.key == k then GivenUp(Values(s, k), e.rw) else Values(s, k)
    decreases |s|
  {
    if s != [] {
      DeleteValues(s[1..], e, k);
      var rest := Delete(s[1..], e);
      GivenUpCons(s[0].rw.GetOr(0), Values(s[1..], k), e.rw);
      hide GivenUp;
      if s[0].key != e.key {
        ValuesCons(s[0], rest, k);
        assert [] + Values(rest, k) == Values(rest, k) && [] + Values(s[1..], k) == Values(s[1..], k);
      } else if e.rw.Some? && e.rw.value < Rw(s[0]) {
        ValuesCons(e, rest, k);
        assert [] + Values(rest, k) == Values(rest, k) && [] + Values(s[1..], k) == Values(s[1..], k);
      } else {
        assert [] + rest == rest;
        assert [] + Values(rest, k) == Values(rest, k) && [] + Values(s[1..], k) == Values(s[1..], k);
      }
    }
  }

  lemma {:induction false} InsertAllValues<K(!new), N(!new)>(s: seq<Entry<K, N>>, es: seq<Entry<K, N>>, k: K)
    ensures Values(InsertAll(s, es), k) == GrantedAll(Values(s, k), es, k)
    decreases |es|
  {
    if es != [] {
      InsertValues(s, es[0], k);
      InsertAllValues(Insert(s, es[0]), es[1..], k);
    }
  }

  lemma {:induction false} DeleteAllValues<K(!new), N(!new)>(s: seq<Entry<K, N>>, es: seq<Entry<K, N>>, k: K)
    ensures Values(DeleteAll(s, es), k) == GivenUpAll(Values(s, k), es, k)
    decreases |es|
  {
    if es != [] {
      DeleteValues(s, es[0], k);
      DeleteAllValues(Delete(s, es[0]), es[1..], k);
    }
  }

  // ---- what a whole list of entries amounts to

  predicate Names<K(==), N>(es: seq<Entry<K, N>>, k: K) {
    exists i :: 0 <= i < |es| && es[i].key == k
  }

  lemma {:induction false} NotNamed<K(!new), N(!new)>(was: seq<int>, es: seq<Entry<K, N>>, k: K)
    requires !Names(es, k)
    ensures GrantedAll(was, es, k) == was && GivenUpAll(was, es, k) == was
    decreases |es|
  {
    if es != [] {
      assert es[0].key != k;
      assert forall i :: 0 <= i < |es[1..]| ==> es[1..][i] == es[i + 1];
      NotNamed(was, es[1..], k);
    }
  }

  lemma {:induction false} NothingLeft<K(!new), N(!new)>(es: seq<Entry<K, N>>, k: K)
    ensures GivenUpAll([], es, k) == []
    decreases |es|
  {
    if es != [] {
      NothingLeft(es[1..], k);
    }
  }

  /** The entry takes everything away. */
  predicate TakesAll(was: seq<int>, rw: Option<int>) {
    rw.None? || forall i :: 0 <= i < |was| ==> was[i] <= rw.value
  }

  lemma {:induction false} GivenUpBelow(was: seq<int>, rw: Option<int>, high: Option<int>)
    requires TakesAll(was, high)
    ensures TakesAll(GivenUp(was, rw), high) && GivenUp(was, high) == []
    decreases |was|
  {
    if was != [] {
      GivenUpBelow(was[1..], rw, high);
    }
  }

  /** An id named without a right, or with one that is no lower than any the user
      has for it, is gone afterwards, whatever else the request names. */
  lemma {:induction false} NamedIsGone<K(!new), N(!new)>(was: seq<int>, es: seq<Entry<K, N>>, k: K)
    requires exists i :: 0 <= i < |es| && es[i].key == k && TakesAll(was, es[i].rw)
    ensures GivenUpAll(was, es, k) == []
    decreases |es|
  {
    var i :| 0 <= i < |es| && es[i].key == k && TakesAll(was, es[i].rw);
    GivenUpBelow(was, es[0].rw, es[i].rw);
    hide GivenUp, TakesAll;
    if i == 0 {
      NothingLeft(es[1..], k);
    } else {
      assert es[1..][i - 1] == es[i];
      NamedIsGone(if es[0].key == k then GivenUp(was, es[0].rw) else was, es[1..], k);
    }
  }

  /** A single right, named with lower ones only, each below the one before, falls
      to the last of them. */
  lemma OneLowered(was: int, rw: int)
    requires rw < was
    ensures GivenUp([was], Some(rw)) == [rw]
  {
    assert GivenUp([was], Some(rw)) == [rw] + GivenUp([was][1..], Some(rw));
  }

  // ---- one request

  /** The ids a request's names stand for, by the names written out. */
  function AskedZones(r: Request): Zones {
    seq(|r.user.zones|, i requires 0 <= i < |r.user.zones| =>
      r.user.zones[i].(key := Schema.GetId(r.schema.zone, r.user.namespaceName + [1 as char] + r.user.zones[i].name)))
  }

  function AskedServlets(r: Request): Servlets {
    seq(|r.user.servlets|, i requires 0 <= i < |r.user.servlets| =>
      var (zone, servlet) := r.user.servlets[i].name;
      r.user.servlets[i].(key :=
        (Schema.GetId(r.schema.zone, r.user.namespaceName + [1 as char] + zone),
         Schema.GetId(r.schema.servlet, r.user.namespaceName + [1 as char] + zone + [1 as char] + servlet))))
  }

  lemma AskedIsFound(r: Request)
    ensures AskedZones(r) == ZonesFound(r.schema, r.user.namespaceName, r.user.zones)
    ensures AskedServlets(r) == ServletsFound(r.schema, r.user.namespaceName, r.user.servlets)
  {
  }

  /** The requested change of a user as it reads afterwards. */
  ghost predicate Changed(was: User, r: Request, now: User) {
    var add := r.op.AddPrivilege?;
    && now.username == was.username && now.password == was.password
    && now.namespaceName == was.namespaceName && now.namespaceId == was.namespaceId
    && now.version == was.version + 1
    && (forall k :: Values(now.zones, k) ==
          if add then GrantedAll(Values(was.zones, k), AskedZones(r), k) else GivenUpAll(Values(was.zones, k), AskedZones(r), k))
    && (forall k :: Values(now.servlets, k) ==
          if add then GrantedAll(Values(was.servlets, k), AskedServlets(r), k)
          else GivenUpAll(Values(was.servlets, k), AskedServlets(r), k))
    && (forall ip :: ip in now.ips <==> if add then ip in was.ips || ip in r.user.ips else ip in was.ips && ip !in r.user.ips)
    && now.needAuthAddr == (if r.user.needAuthAddr.Some? then r.user.needAuthAddr else was.needAuthAddr)
    && now.resourceTag ==
         if add then (if r.user.resourceTag.Some? then r.user.resourceTag else was.resourceTag)
         else if r.user.resourceTag.Some? && was.resourceTag == r.user.resourceTag then None
         else was.resourceTag
  }

  lemma AddChanges(was: User, r: Request)
    requires r.op.AddPrivilege?
    ensures Changed(was, r, AddTo(was, Found(r.schema, r.user)))
  {
    AskedIsFound(r);
    var now := AddTo(was, Found(r.schema, r.user));
    forall k ensures Values(now.zones, k) == GrantedAll(Values(was.zones, k), AskedZones(r), k) {
      InsertAllValues(was.zones, AskedZones(r), k);
    }
    forall k ensures Values(now.servlets, k) == GrantedAll(Values(was.servlets, k), AskedServlets(r), k) {
      InsertAllValues(was.servlets, AskedServlets(r), k);
    }
    forall ip ensures ip in now.ips <==> ip in was.ips || ip in r.user.ips {
      IpsAreSets(was.ips, r.user.ips, ip);
    }
    hide Values, GrantedAll, GivenUpAll, InsertAll, InsertIps, AskedZones, AskedServlets, ZonesFound, ServletsFound;
  }

  lemma DropChanges(was: User, r: Request)
    requires r.op.DropPrivilege?
    ensures Changed(was, r, DropFrom(was, Found(r.schema, r.user)))
  {
    AskedIsFound(r);
    var now := DropFrom(was, Found(r.schema, r.user));
    forall k ensures Values(now.zones, k) == GivenUpAll(Values(was.zones, k), AskedZones(r), k) {
      DeleteAllValues(was.zones, AskedZones(r), k);
    }
    forall k ensures Values(now.servlets, k) == GivenUpAll(Values(was.servlets, k), AskedServlets(r), k) {
      DeleteAllValues(was.servlets, AskedServlets(r), k);
    }
    forall ip ensures ip in now.ips <==> ip in was.ips && ip !in r.user.ips {
      IpsAreSets(was.ips, r.user.ips, ip);
    }
    hide Values, GrantedAll, GivenUpAll, DeleteAll, DeleteIps, AskedZones, AskedServlets, ZonesFound, ServletsFound;
  }

  function UserOf(s: State, name: string): Option<User> {
    if name in s.users then Some(s.users[name]) else None
  }

  /** A request that succeeds changes the user it names and no other, in memory as
      in the store: it creates the user as asked for, with the ids filled in and at
      version 1, takes it away, or changes it. Any other changes nothing. */
  ghost predicate Reads(s: State, r: Request, t: State, reply: Reply) {
    var name := r.user.username;
    && (forall n :: n != name || reply.code != Success ==> UserOf(t, n) == UserOf(s, n))
    && (reply.code == Success ==>
          match r.op
          case CreateUser =>
            && UserOf(s, name).None?
            && UserOf(t, name) == Some(r.user.(version := 1, namespaceId := Schema.GetId(r.schema.ns, r.user.namespaceName),
                                               zones := AskedZones(r), servlets := AskedServlets(r)))
          case DropUser => UserOf(s, name).Some? && UserOf(t, name).None?
          case _ => UserOf(s, name).Some? && UserOf(t, name).Some? && Changed(UserOf(s, name).value, r, UserOf(t, name).value))
  }

  lemma ChangeReads(s: State, r: Request)
    requires r.user.username in s.users && (r.op.AddPrivilege? || r.op.DropPrivilege?)
    ensures Changed(s.users[r.user.username], r,
              if r.op.AddPrivilege? then AddTo(s.users[r.user.username], Found(r.schema, r.user))
              else DropFrom(s.users[r.user.username], Found(r.schema, r.user)))
  {
    hide Changed, AddTo, DropFrom, Found;
    if r.op.AddPrivilege? {
      AddChanges(s.users[r.user.username], r);
    } else {
      DropChanges(s.users[r.user.username], r);
    }
  }

  lemma StepReads(s: State, r: Request)
    requires Stored(s)
    ensures var (t, reply) := Apply(s, r);
            Reads(s, r, t, reply) && t.db == t.users
  {
    StepStored(s, r);
    AskedIsFound(r);
    var name := r.user.username;
    assert name in s.users ==> s.users[name].username == name;
    if name in s.users && (r.op.AddPrivilege? || r.op.DropPrivilege?) {
      ChangeReads(s, r);
    }
    hide Changed, AddTo, DropFrom, Known, AskedZones, AskedServlets, ZonesFound, ServletsFound, Stored;
  }

  /** Every answer: a request is refused for its user first, then for a name in it
      that stands for nothing, and then only the store can fail it. */
  lemma StepAnswers(s: State, r: Request)
    ensures var there := r.user.username in s.users;
            var known :=
              && Schema.GetId(r.schema.ns, r.user.namespaceName) != 0
              && (forall i :: 0 <= i < |AskedZones(r)| ==> AskedZones(r)[i].key != 0)
              && (forall i :: 0 <= i < |AskedServlets(r)| ==>
                    AskedServlets(r)[i].key.0 != 0 && AskedServlets(r)[i].key.1 != 0);
            Apply(s, r).1 ==
            if r.op.CreateUser? && there then Reply(InputParamError, "username has been repeated")
            else if !r.op.CreateUser? && !there then Reply(InputParamError, "username not exist")
            else if !r.op.DropUser? && !known then Reply(InputParamError, "request invalid")
            else if r.ok then Reply(Success, "success")
            else if r.op.DropUser? then Reply(InternalError, "delete from db fail")
            else Reply(InternalError, "write db fail")
  {
    KnownIsAsked(r);
    hide Known, Found, AddTo, DropFrom, AskedZones, AskedServlets;
  }

  lemma KnownIsAsked(r: Request)
    ensures Known(r.schema, r.user) <==>
              && Schema.GetId(r.schema.ns, r.user.namespaceName) != 0
              && (forall i :: 0 <= i < |AskedZones(r)| ==> AskedZones(r)[i].key != 0)
              && (forall i :: 0 <= i < |AskedServlets(r)| ==>
                    AskedServlets(r)[i].key.0 != 0 && AskedServlets(r)[i].key.1 != 0)
  {
    var u := r.user;
    AskedIsFound(r);
    assert forall i :: 0 <= i < |u.zones| ==> AskedZones(r)[i].key == ZoneId(r.schema, u.namespaceName, u.zones[i].name);
    assert forall i :: 0 <= i < |u.servlets| ==>
             AskedServlets(r)[i].key == (ZoneId(r.schema, u.namespaceName, u.servlets[i].name.0),
                                         ServletId(r.schema, u.namespaceName, u.servlets[i].name.0, u.servlets[i].name.1));
    assert |AskedZones(r)| == |u.zones| && |AskedServlets(r)| == |u.servlets|;
    hide AskedZones, AskedServlets, ZoneId, ServletId, ZonesFound, ServletsFound;
  }

  /** So much for a drop that succeeds: an id that it names without a right, or with
      one that is no lower than any the user has for it, is gone; an id that it does
      not name is left alone. */
  lemma DropTakesAway(s: State, r: Request, zone: int, servlet: (int, int))
    requires Stored(s) && r.op.DropPrivilege? && Apply(s, r).1.code == Success
    ensures r.user.username in s.users && r.user.username in Apply(s, r).0.users
    ensures var was, now := s.users[r.user.username], Apply(s, r).0.users[r.user.username];
            && ((exists i :: 0 <= i < |AskedZones(r)| && AskedZones(r)[i].key == zone
                   && TakesAll(Values(was.zones, zone), AskedZones(r)[i].rw)) ==> zone !in Rights(now.zones))
            && ((exists i :: 0 <= i < |AskedServlets(r)| && AskedServlets(r)[i].key == servlet
                   && TakesAll(Values(was.servlets, servlet), AskedServlets(r)[i].rw)) ==> servlet !in Rights(now.servlets))
            && (!Names(AskedZones(r), zone) ==> Values(now.zones, zone) == Values(was.zones, zone))
            && (!Names(AskedServlets(r), servlet) ==> Values(now.servlets, servlet) == Values(was.servlets, servlet))
  {
    StepReads(s, r);
    var was, now := s.users[r.user.username], Apply(s, r).0.users[r.user.username];
    assert UserOf(s, r.user.username) == Some(was) && Changed(was, r, now);
    hide Apply, Stored, AskedZones, AskedServlets, Values, GivenUpAll, TakesAll, Rights;
    FirstValue(now.zones, zone);
    FirstValue(now.servlets, servlet);
    if exists i :: 0 <= i < |AskedZones(r)| && AskedZones(r)[i].key == zone
                   && TakesAll(Values(was.zones, zone), AskedZones(r)[i].rw) {
      NamedIsGone(Values(was.zones, zone), AskedZones(r), zone);
    }
    if exists i :: 0 <= i < |AskedServlets(r)| && AskedServlets(r)[i].key == servlet
                   && TakesAll(Values(was.servlets, servlet), AskedServlets(r)[i].rw) {
      NamedIsGone(Values(was.servlets, servlet), AskedServlets(r), servlet);
    }
    if !Names(AskedZones(r), zone) {
      NotNamed(Values(was.zones, zone), AskedZones(r), zone);
    }
    if !Names(AskedServlets(r), servlet) {
      NotNamed(Values(was.servlets, servlet), AskedServlets(r), servlet);
    }
  }

  // ---- runs

  /** The rights of one user for one zone, kept by the requests that succeed. */
  function ZoneEntered(was: Option<seq<int>>, r: Request, reply: Reply, name: string, k: int): Option<seq<int>> {
    if reply.code != Success || r.user.username != name then was
    else
      match r.op
      case CreateUser => Some(Values(AskedZones(r), k))
      case DropUser => None
      case AddPrivilege => if was.Some? then Some(GrantedAll(was.value, AskedZones(r), k)) else None
      case DropPrivilege => if was.Some? then Some(GivenUpAll(was.value, AskedZones(r), k)) else None
  }

  function ServletEntered(was: Option<seq<int>>, r: Request, reply: Reply, name: string, k: (int, int)): Option<seq<int>> {
    if reply.code != Success || r.user.username != name then was
    else
      match r.op
      case CreateUser => Some(Values(AskedServlets(r), k))
      case DropUser => None
      case AddPrivilege => if was.Some? then Some(GrantedAll(was.value, AskedServlets(r), k)) else None
      case DropPrivilege => if was.Some? then Some(GivenUpAll(was.value, AskedServlets(r), k)) else None
  }

  function ZoneHistory(was: Option<seq<int>>, log: seq<Request>, replies: seq<Reply>, name: string, k: int): Option<seq<int>>
    requires |replies| == |log|
    decreases |log|
  {
    if log == [] then was
    else ZoneHistory(ZoneEntered(was, log[0], replies[0], name, k), log[1..], replies[1..], name, k)
  }

  function ServletHistory(was: Option<seq<int>>, log: seq<Request>, replies: seq<Reply>, name: string, k: (int, int))
    : Option<seq<int>>
    requires |replies| == |log|
    decreases |log|
  {
    if log == [] then was
    else ServletHistory(ServletEntered(was, log[0], replies[0], name, k), log[1..], replies[1..], name, k)
  }

  function ZoneRights(s: State, name: string, k: int): Option<seq<int>> {
    if name in s.users then Some(Values(s.users[name].zones, k)) else None
  }

  function ServletRights(s: State, name: string, k: (int, int)): Option<seq<int>> {
    if name in s.users then Some(Values(s.users[name].servlets, k)) else None
  }

  lemma StepRights(s: State, r: Request, t: State, reply: Reply, name: string, zone: int, servlet: (int, int))
    requires Reads(s, r, t, reply)
    ensures ZoneRights(t, name, zone) == ZoneEntered(ZoneRights(s, name, zone), r, reply, name, zone)
    ensures ServletRights(t, name, servlet) == ServletEntered(ServletRights(s, name, servlet), r, reply, name, servlet)
  {
    assert UserOf(t, name) == UserOf(s, name) || name == r.user.username;
    hide Values, GrantedAll, GivenUpAll, AskedZones, AskedServlets;
  }

  lemma {:induction false} RunRights(s: State, log: seq<Request>, name: string, zone: int, servlet: (int, int))
    requires Stored(s)
    ensures |Run(s, log).1| == |log|
    ensures var (t, replies) := Run(s, log);
            && ZoneRights(t, name, zone) == ZoneHistory(ZoneRights(s, name, zone), log, replies, name, zone)
            && ServletRights(t, name, servlet) == ServletHistory(ServletRights(s, name, servlet), log, replies, name, servlet)
    decreases |log|
  {
    if log != [] {
      var (t, reply) := Apply(s, log[0]);
      StepReads(s, log[0]);
      StepStored(s, log[0]);
      hide Stored, Apply, Reads, ZoneEntered, ServletEntered, ZoneRights, ServletRights;
      StepRights(s, log[0], t, reply, name, zone, servlet);
      RunRights(t, log[1..], name, zone, servlet);
      var (u, replies) := Run(t, log[1..]);
      assert Run(s, log).1 == [reply] + replies && ([reply] + replies)[1..] == replies;
    }
  }

  /** Over any run: what a user may do in a zone or a servlet is what its creation
      and the adds and drops since, those answered with success, have left. */
  lemma RightsAreHistory(log: seq<Request>, name: string, zone: int, servlet: (int, int))
    ensures |Run(INIT, log).1| == |log|
    ensures var (s, replies) := Run(INIT, log);
            && ZoneRights(s, name, zone) == ZoneHistory(None, log, replies, name, zone)
            && ServletRights(s, name, servlet) == ServletHistory(None, log, replies, name, servlet)
  {
    RunRights(INIT, log, name, zone, servlet);
  }
}

/** Users and their rights: privilege_manager.cc and the name lookup of
    schema_manager.cc. A user's rights are lists edited in place; read as a map
    from ids to rights they obey simple laws. */
module Privilege {
  import opened Replies
  import opened Wrappers
  import opened Names
  import Schema

  /** Absent, a right reads as the first value of its enumeration. */
  const DEFAULT_RW := 0

  /** A PrivilegeZone or PrivilegeServlet: the id it is found by, the name it was
      asked for under, a right, and whether to overwrite. */
  datatype Entry<K, N> = Entry(key: K, name: N, rw: Option<int>, force: bool)

  function Rw<K, N>(e: Entry<K, N>): int {
    e.rw.GetOr(DEFAULT_RW)
  }

  // ---- one list

  predicate Unique<K(==), N>(s: seq<Entry<K, N>>) {
    forall i, j :: 0 <= i < j < |s| ==> s[i].key != s[j].key
  }

  /** The list read as a map; the first entry of an id counts. */
  function Rights<K, N>(s: seq<Entry<K, N>>): map<K, int>
    decreases |s|
  {
    if s == [] then map[] else Rights(s[1..])[s[0].key := Rw(s[0])]
  }

  function Raise<K, N>(was: Entry<K, N>, e: Entry<K, N>): Entry<K, N> {
    if e.force || Rw(e) > Rw(was) then was.(rw := Some(Rw(e))) else was
  }

  function Insert<K(==), N>(s: seq<Entry<K, N>>, e: Entry<K, N>): seq<Entry<K, N>>
    decreases |s|
  {
    if s == [] then [e]
    else if s[0].key == e.key then [Raise(s[0], e)] + s[1..]
    else [s[0]] + Insert(s[1..], e)
  }

  /** What is left of one entry: a lower right that was asked for, or nothing. */
  function Lower<K(==), N>(was: Entry<K, N>, e: Entry<K, N>): seq<Entry<K, N>> {
    if was.key != e.key then [was]
    else if e.rw.Some? && e.rw.value < Rw(was) then [e]
    else []
  }

  function Delete<K(==), N>(s: seq<Entry<K, N>>, e: Entry<K, N>): seq<Entry<K, N>>
    decreases |s|
  {
    if s == [] then [] else Lower(s[0], e) + Delete(s[1..], e)
  }

  /** The first entry with the id is where the insert lands. */
  lemma {:induction false} InsertAt<K(!new), N(!new)>(s: seq<Entry<K, N>>, e: Entry<K, N>, i: nat)
    requires i <= |s| && forall j :: 0 <= j < i ==> s[j].key != e.key
    requires i == |s| || s[i].key == e.key
    ensures Insert(s, e) == if i == |s| then s + [e] else s[i := Raise(s[i], e)]
    decreases |s|
  {
    if i > 0 {
      InsertAt(s[1..], e, i - 1);
    }
  }

  /** insert_zone_privilege and insert_servlet_privilege. */
  method InsertPrivilege<K(==,!new), N(!new)>(e: Entry<K, N>, list: seq<Entry<K, N>>) returns (mem: seq<Entry<K, N>>)
    ensures mem == Insert(list, e)
  {
    mem := list;
    for i := 0 to |list|
      invariant mem == list && forall j :: 0 <= j < i ==> list[j].key != e.key
    {
      if mem[i].key == e.key {
        InsertAt(list, e, i);
        if e.force {
          mem := mem[i := mem[i].(rw := Some(Rw(e)))];
        } else if Rw(e) > Rw(mem[i]) {
          mem := mem[i := mem[i].(rw := Some(Rw(e)))];
        }
        return;
      }
    }
    InsertAt(list, e, |list|);
    mem := mem + [e];
  }

  lemma {:induction false} DeletePush<K(!new), N(!new)>(s: seq<Entry<K, N>>, x: Entry<K, N>, e: Entry<K, N>)
    ensures Delete(s + [x], e) == Delete(s, e) + Lower(x, e)
    decreases |s|
  {
    if s == [] {
      assert [x][1..] == [] && [] + [x] == [x];
      assert Lower(x, e) + [] == Lower(x, e);
    } else {
      assert (s + [x])[1..] == s[1..] + [x];
      DeletePush(s[1..], x, e);
    }
  }

  /** delete_zone_privilege and delete_servlet_privilege: the list is emptied and
      filled again from a copy. */
  method DeletePrivilege<K(==,!new), N(!new)>(e: Entry<K, N>, list: seq<Entry<K, N>>) returns (mem: seq<Entry<K, N>>)
    ensures mem == Delete(list, e)
  {
    mem := [];
    for i := 0 to |list|
      invariant mem == Delete(list[..i], e)
    {
      assert list[..i + 1] == list[..i] + [list[i]];
      DeletePush(list[..i], list[i], e);
      if list[i].key == e.key {
        if e.rw.Some? && e.rw.value < Rw(list[i]) {
          mem := mem + [e];
        }
      } else {
        mem := mem + [list[i]];
      }
    }
    assert list[..|list|] == list;
  }

  lemma {:induction false} RightsKeys<K(!new), N(!new)>(s: seq<Entry<K, N>>)
    ensures forall k :: k in Rights(s) <==> exists i :: 0 <= i < |s| && s[i].key == k
    decreases |s|
  {
    if s != [] {
      RightsKeys(s[1..]);
      forall k ensures k in Rights(s) <==> exists i :: 0 <= i < |s| && s[i].key == k {
        if k in Rights(s[1..]) {
          var i :| 0 <= i < |s[1..]| && s[1..][i].key == k;
          assert s[i + 1].key == k;
        }
        if i :| 0 <= i < |s| && s[i].key == k {
          assert i > 0 ==> s[1..][i - 1].key == k;
        }
      }
    }
  }

  function Better(force: bool, was: int, asked: int): int {
    if force || asked > was then asked else was
  }

  /** Inserting changes one right: to the one asked for if there was none or it
      is forced, otherwise to the larger of the two. */
  lemma {:induction false} InsertRights<K(!new), N(!new)>(s: seq<Entry<K, N>>, e: Entry<K, N>)
    ensures Rights(Insert(s, e)) ==
            Rights(s)[e.key := if e.key in Rights(s) then Better(e.force, Rights(s)[e.key], Rw(e)) else Rw(e)]
    decreases |s|
  {
    if s == [] {
      assert [e][1..] == [];
    } else if s[0].key == e.key {
      assert ([Raise(s[0], e)] + s[1..])[1..] == s[1..];
    } else {
      InsertRights(s[1..], e);
      assert ([s[0]] + Insert(s[1..], e))[1..] == Insert(s[1..], e);
    }
  }

  lemma {:induction false} InsertUnique<K(!new), N(!new)>(s: seq<Entry<K, N>>, e: Entry<K, N>)
    requires Unique(s)
    ensures Unique(Insert(s, e))
    decreases |s|
  {
    if s != [] && s[0].key != e.key {
      InsertUnique(s[1..], e);
      InsertRights(s[1..], e);
      RightsKeys(Insert(s[1..], e));
      RightsKeys(s[1..]);
      var rest := Insert(s[1..], e);
      forall i | 0 <= i < |rest| ensures rest[i].key != s[0].key {
        assert rest[i].key in Rights(rest);
      }
    }
  }

  lemma {:induction false} DeleteElsewhere<K(!new), N(!new)>(s: seq<Entry<K, N>>, e: Entry<K, N>)
    requires e.key !in Rights(s)
    ensures Delete(s, e) == s
    decreases |s|
  {
    if s != [] {
      DeleteElsewhere(s[1..], e);
    }
  }

  lemma HeadIsNew<K(!new), N(!new)>(s: seq<Entry<K, N>>)
    requires s != [] && Unique(s)
    ensures s[0].key !in Rights(s[1..])
  {
    RightsKeys(s[1..]);
  }

  lemma ConsUnique<K(!new), N(!new)>(x: Entry<K, N>, s: seq<Entry<K, N>>)
    requires Unique(s) && x.key !in Rights(s)
    ensures Unique([x] + s) && Rights([x] + s) == Rights(s)[x.key := Rw(x)]
  {
    RightsKeys(s);
    assert ([x] + s)[1..] == s;
    forall i | 0 <= i < |s| ensures s[i].key != x.key {
      assert s[i].key in Rights(s);
    }
  }

  function Lowered<K>(rights: map<K, int>, k: K, rw: Option<int>): map<K, int> {
    if k in rights && rw.Some? && rw.value < rights[k] then rights[k := rw.value] else rights - {k}
  }

  lemma LoweredAside<K(!new)>(rights: map<K, int>, k: K, rw: Option<int>, h: K, right: int)
    requires h != k
    ensures Lowered(rights[h := right], k, rw) == Lowered(rights, k, rw)[h := right]
    ensures h in Lowered(rights, k, rw) <==> h in rights
  {
  }

  /** With unique ids, deleting either lowers the one right to what was asked for
      or takes it away; no other is touched. */
  lemma {:induction false} DeleteRights<K(!new), N(!new)>(s: seq<Entry<K, N>>, e: Entry<K, N>)
    requires Unique(s)
    ensures Unique(Delete(s, e)) && Rights(Delete(s, e)) == Lowered(Rights(s), e.key, e.rw)
    decreases |s|
  {
    if s != [] {
      HeadIsNew(s);
      if s[0].key == e.key {
        DeleteHead(s, e);
      } else {
        hide Lowered;
        DeleteRights(s[1..], e);
        LoweredAside(Rights(s[1..]), e.key, e.rw, s[0].key, Rw(s[0]));
        ConsUnique(s[0], Delete(s[1..], e));
      }
    }
  }

  lemma DeleteHead<K(!new), N(!new)>(s: seq<Entry<K, N>>, e: Entry<K, N>)
    requires s != [] && Unique(s) && s[0].key == e.key && e.key !in Rights(s[1..])
    ensures Unique(Delete(s, e)) && Rights(Delete(s, e)) == Lowered(Rights(s), e.key, e.rw)
  {
    DeleteElsewhere(s[1..], e);
    assert Delete(s, e) == Lower(s[0], e) + s[1..];
    TailUnique(s);
    if Lower(s[0], e) != [] {
      HeadLowered(s, e);
    } else {
      HeadGone(s, e);
    }
  }

  lemma TailUnique<K(!new), N(!new)>(s: seq<Entry<K, N>>)
    requires s != [] && Unique(s)
    ensures Unique(s[1..])
  {
    assert forall i :: 0 <= i < |s[1..]| ==> s[1..][i] == s[i + 1];
  }

  lemma HeadLowered<K(!new), N(!new)>(s: seq<Entry<K, N>>, e: Entry<K, N>)
    requires s != [] && Unique(s[1..]) && e.key !in Rights(s[1..]) && Lower(s[0], e) == [e] && s[0].key == e.key
    requires e.rw.Some? && e.rw.value < Rw(s[0])
    ensures Unique([e] + s[1..]) && Rights([e] + s[1..]) == Lowered(Rights(s), e.key, e.rw)
  {
    ConsUnique(e, s[1..]);
    hide Unique;
  }

  lemma HeadGone<K(!new), N(!new)>(s: seq<Entry<K, N>>, e: Entry<K, N>)
    requires s != [] && Unique(s[1..]) && e.key !in Rights(s[1..]) && s[0].key == e.key
    requires !(e.rw.Some? && e.rw.value < Rw(s[0]))
    ensures Unique([] + s[1..]) && Rights([] + s[1..]) == Lowered(Rights(s), e.key, e.rw)
  {
    hide Unique;
    assert [] + s[1..] == s[1..] && Rights(s) - {e.key} == Rights(s[1..]);
  }

  /** Some entry of the id is above what the delete asks for. */
  predicate SomeAbove<K(==), N>(s: seq<Entry<K, N>>, e: Entry<K, N>) {
    exists j :: 0 <= j < |s| && s[j].key == e.key && e.rw.Some? && e.rw.value < Rw(s[j])
  }

  lemma AboveCons<K(!new), N(!new)>(s: seq<Entry<K, N>>, e: Entry<K, N>)
    requires s != []
    ensures SomeAbove(s, e) <==> (s[0].key == e.key && e.rw.Some? && e.rw.value < Rw(s[0])) || SomeAbove(s[1..], e)
  {
    if SomeAbove(s[1..], e) {
      var j :| 0 <= j < |s[1..]| && s[1..][j].key == e.key && e.rw.Some? && e.rw.value < Rw(s[1..][j]);
      assert s[j + 1] == s[1..][j];
    }
    if j :| 0 < j < |s| && s[j].key == e.key && e.rw.Some? && e.rw.value < Rw(s[j]) {
      assert s[1..][j - 1] == s[j];
    }
  }

  /** What a delete does to any list, an id listed twice or not: the right asked
      for stays if any entry of the id is above it, and nothing of the id otherwise. */
  lemma {:induction false} DeleteAnyRights<K(!new), N(!new)>(s: seq<Entry<K, N>>, e: Entry<K, N>)
    ensures Rights(Delete(s, e)) ==
            if SomeAbove(s, e) then Rights(s)[e.key := e.rw.value] else Rights(s) - {e.key}
    decreases |s|
  {
    if s != [] {
      AboveCons(s, e);
      hide SomeAbove;
      var rest := Delete(s[1..], e);
      DeleteAnyRights(s[1..], e);
      if Lower(s[0], e) == [] {
        assert [] + rest == rest;
      } else {
        var x := Lower(s[0], e)[0];
        assert Lower(s[0], e) == [x] && ([x] + rest)[1..] == rest;
      }
    }
  }

  /** Deleting raises a right that was there. */
  predicate Raises<K(==), N>(s: seq<Entry<K, N>>, e: Entry<K, N>) {
    var after := Rights(Delete(s, e));
    e.key in Rights(s) && e.key in after && after[e.key] > Rights(s)[e.key]
  }

  lemma {:induction false} FirstCounts<K(!new), N(!new)>(s: seq<Entry<K, N>>, i: nat)
    requires i < |s| && forall h :: 0 <= h < i ==> s[h].key != s[i].key
    ensures s[i].key in Rights(s) && Rights(s)[s[i].key] == Rw(s[i])
    decreases |s|
  {
    if i > 0 {
      FirstCounts(s[1..], i - 1);
    }
  }

  /** The first entry of the id at i, a later one at j, and the right asked for between them. */
  predicate Between<K(==), N>(s: seq<Entry<K, N>>, e: Entry<K, N>, i: int, j: int) {
    && 0 <= i < j < |s|
    && s[i].key == e.key == s[j].key
    && (forall h :: 0 <= h < i ==> s[h].key != e.key)
    && e.rw.Some? && Rw(s[i]) < e.rw.value < Rw(s[j])
  }

  /** A delete raises a right if and only if the first entry of the id is below
      what it asks for and a later one above. */
  lemma DeleteRaisesIff<K(!new), N(!new)>(s: seq<Entry<K, N>>, e: Entry<K, N>)
    ensures Raises(s, e) <==> exists i, j :: Between(s, e, i, j)
  {
    DeleteAnyRights(s, e);
    hide Delete;
    if Raises(s, e) {
      RightsKeys(s);
      var i := FirstOf(s, e.key);
      FirstCounts(s, i);
      var j :| 0 <= j < |s| && s[j].key == e.key && e.rw.Some? && e.rw.value < Rw(s[j]);
      assert Between(s, e, i, j);
    }
    if i, j :| Between(s, e, i, j) {
      FirstCounts(s, i);
    }
  }

  lemma {:induction false} FirstOf<K(!new), N(!new)>(s: seq<Entry<K, N>>, k: K) returns (i: nat)
    requires exists h :: 0 <= h < |s| && s[h].key == k
    ensures i < |s| && s[i].key == k && forall h :: 0 <= h < i ==> s[h].key != k
    decreases |s|
  {
    if s[0].key == k {
      return 0;
    }
    var h :| 0 <= h < |s| && s[h].key == k;
    assert s[1..][h - 1].key == k;
    i := FirstOf(s[1..], k);
    i := i + 1;
    assert forall h :: 0 <= h < i ==> s[h] == if h == 0 then s[0] else s[1..][h - 1];
  }

  /** With unique ids that never happens. */
  lemma UniqueNeverRaises<K(!new), N(!new)>(s: seq<Entry<K, N>>, e: Entry<K, N>)
    requires Unique(s)
    ensures !Raises(s, e)
  {
    DeleteRaisesIff(s, e);
    hide Raises;
  }

  // ---- a request's list

  function InsertAll<K(==), N>(s: seq<Entry<K, N>>, es: seq<Entry<K, N>>): seq<Entry<K, N>>
    decreases |es|
  {
    if es == [] then s else InsertAll(Insert(s, es[0]), es[1..])
  }

  function DeleteAll<K(==), N>(s: seq<Entry<K, N>>, es: seq<Entry<K, N>>): seq<Entry<K, N>>
    decreases |es|
  {
    if es == [] then s else DeleteAll(Delete(s, es[0]), es[1..])
  }

  lemma {:induction false} InsertAllUnique<K(!new), N(!new)>(s: seq<Entry<K, N>>, es: seq<Entry<K, N>>)
    requires Unique(s)
    ensures Unique(InsertAll(s, es))
    decreases |es|
  {
    if es != [] {
      InsertUnique(s, es[0]);
      InsertAllUnique(Insert(s, es[0]), es[1..]);
    }
  }

  /** best is, id by id, the largest right among those in was and in es. */
  ghost predicate IsMax<K(!new), N(!new)>(best: map<K, int>, was: map<K, int>, es: seq<Entry<K, N>>) {
    && (forall k :: k in was ==> k in best && was[k] <= best[k])
    && (forall e :: e in es ==> e.key in best && Rw(e) <= best[e.key])
    && (forall k :: k in best ==> (k in was && was[k] == best[k]) || exists e :: e in es && e.key == k && Rw(e) == best[k])
  }

  predicate NoneForced<K, N>(es: seq<Entry<K, N>>) {
    forall i :: 0 <= i < |es| ==> !es[i].force
  }

  lemma IsMaxStep<K(!new), N(!new)>(best: map<K, int>, mid: map<K, int>, was: map<K, int>, es: seq<Entry<K, N>>)
    requires es != [] && IsMax(best, mid, es[1..])
    requires var e := es[0]; mid == was[e.key := if e.key in was then Better(false, was[e.key], Rw(e)) else Rw(e)]
    ensures IsMax(best, was, es)
  {
    assert es == [es[0]] + es[1..];
    assert es[0] in es;
    forall k | k in best && !(k in was && was[k] == best[k]) ensures exists e :: e in es && e.key == k && Rw(e) == best[k] {
      if e :| e in es[1..] && e.key == k && Rw(e) == best[k] {
        assert e in es;
      }
    }
  }

  /** Inserts that are not forced leave, for every id, the largest right ever asked for. */
  lemma {:induction false} InsertAllIsMax<K(!new), N(!new)>(s: seq<Entry<K, N>>, es: seq<Entry<K, N>>)
    requires NoneForced(es)
    ensures IsMax(Rights(InsertAll(s, es)), Rights(s), es)
    decreases |es|
  {
    if es != [] {
      InsertRights(s, es[0]);
      InsertAllIsMax(Insert(s, es[0]), es[1..]);
      IsMaxStep(Rights(InsertAll(s, es)), Rights(Insert(s, es[0])), Rights(s), es);
    }
  }

  lemma MaxIsOne<K(!new), N(!new)>(a: map<K, int>, b: map<K, int>, was: map<K, int>, es: seq<Entry<K, N>>, fs: seq<Entry<K, N>>)
    requires IsMax(a, was, es) && IsMax(b, was, fs) && forall e :: e in es <==> e in fs
    ensures a == b
  {
    forall k | k in a ensures k in b && a[k] <= b[k] {
    }
    forall k | k in b ensures k in a && b[k] <= a[k] {
    }
  }

  /** So neither the order of the entries nor repetitions among them matter: two
      requests with the same entries give the same rights. */
  lemma OrderDoesNotMatter<K(!new), N(!new)>(s: seq<Entry<K, N>>, es: seq<Entry<K, N>>, fs: seq<Entry<K, N>>)
    requires NoneForced(es) && NoneForced(fs) && forall e :: e in es <==> e in fs
    ensures Rights(InsertAll(s, es)) == Rights(InsertAll(s, fs))
  {
    InsertAllIsMax(s, es);
    InsertAllIsMax(s, fs);
    MaxIsOne(Rights(InsertAll(s, es)), Rights(InsertAll(s, fs)), Rights(s), es, fs);
  }

  lemma {:induction false} InsertAllConcat<K(!new), N(!new)>(s: seq<Entry<K, N>>, es: seq<Entry<K, N>>, fs: seq<Entry<K, N>>)
    ensures InsertAll(s, es + fs) == InsertAll(InsertAll(s, es), fs)
    decreases |es|
  {
    if es == [] {
      assert es + fs == fs;
    } else {
      assert (es + fs)[1..] == es[1..] + fs;
      InsertAllConcat(Insert(s, es[0]), es[1..], fs);
    }
  }

  /** Adding the same rights again adds nothing. */
  lemma InsertTwice<K(!new), N(!new)>(s: seq<Entry<K, N>>, es: seq<Entry<K, N>>)
    requires NoneForced(es)
    ensures Rights(InsertAll(InsertAll(s, es), es)) == Rights(InsertAll(s, es))
  {
    InsertAllConcat(s, es, es);
    OrderDoesNotMatter(s, es + es, es);
  }

  predicate Mentions<K(==), N>(es: seq<Entry<K, N>>, k: K) {
    exists i :: 0 <= i < |es| && es[i].key == k
  }

  /** Forced or not, rights of ids that are not mentioned stay. */
  lemma {:induction false} InsertAllElsewhere<K(!new), N(!new)>(s: seq<Entry<K, N>>, es: seq<Entry<K, N>>, k: K)
    requires !Mentions(es, k)
    ensures k in Rights(InsertAll(s, es)) <==> k in Rights(s)
    ensures k in Rights(s) ==> Rights(InsertAll(s, es))[k] == Rights(s)[k]
    decreases |es|
  {
    if es != [] {
      InsertRights(s, es[0]);
      assert forall i :: 0 <= i < |es[1..]| ==> es[1..][i] == es[i + 1];
      InsertAllElsewhere(Insert(s, es[0]), es[1..], k);
    }
  }

  /** Deleting never raises a right, gives none, and leaves the ids it does not
      mention alone. */
  lemma {:induction false} DeleteAllLowers<K(!new), N(!new)>(s: seq<Entry<K, N>>, es: seq<Entry<K, N>>, k: K)
    requires Unique(s)
    ensures Unique(DeleteAll(s, es))
    ensures k in Rights(DeleteAll(s, es)) ==> k in Rights(s) && Rights(DeleteAll(s, es))[k] <= Rights(s)[k]
    ensures !Mentions(es, k) && k in Rights(s) ==> k in Rights(DeleteAll(s, es)) && Rights(DeleteAll(s, es))[k] == Rights(s)[k]
    decreases |es|
  {
    if es != [] {
      DeleteRights(s, es[0]);
      assert forall i :: 0 <= i < |es[1..]| ==> es[1..][i] == es[i + 1];
      DeleteAllLowers(Delete(s, es[0]), es[1..], k);
    }
  }

  // ---- addresses

  function InsertIps(ips: seq<string>, more: seq<string>): seq<string>
    decreases |more|
  {
    if more == [] then ips
    else InsertIps(if more[0] in ips then ips else ips + [more[0]], more[1..])
  }

  function Without(ips: seq<string>, ip: string): seq<string>
    decreases |ips|
  {
    if ips == [] then [] else (if ips[0] != ip then [ips[0]] else []) + Without(ips[1..], ip)
  }

  function DeleteIps(ips: seq<string>, gone: seq<string>): seq<string>
    decreases |gone|
  {
    if gone == [] then ips else DeleteIps(Without(ips, gone[0]), gone[1..])
  }

  lemma {:induction false} WithoutPush(ips: seq<string>, x: string, ip: string)
    ensures Without(ips + [x], ip) == Without(ips, ip) + if x != ip then [x] else []
    decreases |ips|
  {
    if ips == [] {
      assert [x][1..] == [] && [] + [x] == [x];
    } else {
      assert (ips + [x])[1..] == ips[1..] + [x];
      WithoutPush(ips[1..], x, ip);
    }
  }

  lemma {:induction false} WithoutExact(ips: seq<string>, ip: string, x: string)
    ensures x in Without(ips, ip) <==> x in ips && x != ip
    decreases |ips|
  {
    if ips != [] {
      WithoutExact(ips[1..], ip, x);
    }
  }

  /** The address lists are sets: union and difference. */
  lemma {:induction false} IpsAreSets(ips: seq<string>, asked: seq<string>, x: string)
    ensures x in InsertIps(ips, asked) <==> x in ips || x in asked
    ensures x in DeleteIps(ips, asked) <==> x in ips && x !in asked
    decreases |asked|
  {
    if asked != [] {
      IpsAreSets(if asked[0] in ips then ips else ips + [asked[0]], asked[1..], x);
      IpsAreSets(Without(ips, asked[0]), asked[1..], x);
      WithoutExact(ips, asked[0], x);
    }
  }

  // ---- users

  type Zones = seq<Entry<int, string>>
  type Servlets = seq<Entry<(int, int), (string, string)>>

  datatype User = User(
    username: string, password: string,
    namespaceName: string, namespaceId: int,
    zones: Zones, servlets: Servlets, ips: seq<string>,
    needAuthAddr: Option<bool>, resourceTag: Option<string>,
    version: int)

  function ZoneId(schema: Schema.State, ns: string, zone: string): int {
    Schema.GetId(schema.zone, MakeZoneKey(ns, zone))
  }

  function ServletId(schema: Schema.State, ns: string, zone: string, servlet: string): int {
    Schema.GetId(schema.servlet, MakeServletKey(MakeZoneKey(ns, zone), servlet))
  }

  predicate Known(schema: Schema.State, u: User) {
    && Schema.GetId(schema.ns, u.namespaceName) != 0
    && (forall i :: 0 <= i < |u.zones| ==> ZoneId(schema, u.namespaceName, u.zones[i].name) != 0)
    && (forall i :: 0 <= i < |u.servlets| ==>
          && ZoneId(schema, u.namespaceName, u.servlets[i].name.0) != 0
          && ServletId(schema, u.namespaceName, u.servlets[i].name.0, u.servlets[i].name.1) != 0)
  }

  function ZonesFound(schema: Schema.State, ns: string, zs: Zones): Zones {
    seq(|zs|, i requires 0 <= i < |zs| => zs[i].(key := ZoneId(schema, ns, zs[i].name)))
  }

  function ServletsFound(schema: Schema.State, ns: string, xs: Servlets): Servlets {
    seq(|xs|, i requires 0 <= i < |xs| =>
      xs[i].(key := (ZoneId(schema, ns, xs[i].name.0), ServletId(schema, ns, xs[i].name.0, xs[i].name.1))))
  }

  /** The request with every id filled in from the names. */
  function Found(schema: Schema.State, u: User): User {
    u.(namespaceId := Schema.GetId(schema.ns, u.namespaceName),
       zones := ZonesFound(schema, u.namespaceName, u.zones),
       servlets := ServletsFound(schema, u.namespaceName, u.servlets))
  }

  function AddTo(u: User, r: User): User {
    u.(zones := InsertAll(u.zones, r.zones), servlets := InsertAll(u.servlets, r.servlets),
       ips := InsertIps(u.ips, r.ips),
       needAuthAddr := Override(u.needAuthAddr, r.needAuthAddr), resourceTag := Override(u.resourceTag, r.resourceTag),
       version := u.version + 1)
  }

  function DropFrom(u: User, r: User): User {
    u.(zones := DeleteAll(u.zones, r.zones), servlets := DeleteAll(u.servlets, r.servlets),
       ips := DeleteIps(u.ips, r.ips),
       needAuthAddr := Override(u.needAuthAddr, r.needAuthAddr),
       resourceTag := if r.resourceTag.Some? && r.resourceTag == u.resourceTag then None else u.resourceTag,
       version := u.version + 1)
  }

  datatype State = State(users: map<string, User>, db: map<string, User>)

  const INIT := State(map[], map[])

  datatype Op = CreateUser | DropUser | AddPrivilege | DropPrivilege

  /** schema: what the schema managers hold when the entry is applied. */
  datatype Request = Request(op: Op, user: User, schema: Schema.State, ok: bool)

  function Write(s: State, u: User, ok: bool): (State, Reply) {
    if !ok then (s, WRITE_FAIL)
    else (State(s.users[u.username := u], s.db[u.username := u]), DONE)
  }

  function Apply(s: State, r: Request): (State, Reply) {
    var name := r.user.username;
    if r.op.CreateUser? && name in s.users then (s, Refuse("username has been repeated"))
    else if !r.op.CreateUser? && name !in s.users then (s, Refuse("username not exist"))
    else if r.op.DropUser? then
      if !r.ok then (s, DELETE_FAIL)
      else (State(s.users - {name}, s.db - {name}), DONE)
    else if !Known(r.schema, r.user) then (s, Refuse("request invalid"))
    else
      var found := Found(r.schema, r.user);
      match r.op
      case CreateUser => Write(s, found.(version := 1), r.ok)
      case AddPrivilege => Write(s, AddTo(s.users[name], found), r.ok)
      case DropPrivilege => Write(s, DropFrom(s.users[name], found), r.ok)
  }

  function Run(s: State, log: seq<Request>): (State, seq<Reply>)
    decreases |log|
  {
    if log == [] then (s, [])
    else
      var (t, reply) := Apply(s, log[0]);
      var (u, replies) := Run(t, log[1..]);
      (u, [reply] + replies)
  }

  predicate UserOk(u: User) {
    Unique(u.zones) && Unique(u.servlets)
  }

  /** Memory is what the store holds. */
  ghost predicate Stored(s: State) {
    s.users == s.db && forall n :: n in s.users ==> s.users[n].username == n
  }

  /** And no list has an id twice. */
  ghost predicate Inv(s: State) {
    Stored(s) && forall n :: n in s.users ==> UserOk(s.users[n])
  }

  /** create_user takes its lists as they come; unique ids are kept, not made. */
  predicate Careful(r: Request) {
    r.op.CreateUser? ==> UserOk(Found(r.schema, r.user))
  }

  lemma AddOk(u: User, r: User)
    requires UserOk(u)
    ensures UserOk(AddTo(u, r))
  {
    InsertAllUnique(u.zones, r.zones);
    InsertAllUnique(u.servlets, r.servlets);
  }

  lemma DropOk(u: User, r: User)
    requires UserOk(u)
    ensures UserOk(DropFrom(u, r))
  {
    DeleteAllLowers(u.zones, r.zones, 0);
    DeleteAllLowers(u.servlets, r.servlets, (0, 0));
  }

  /** Every branch keeps memory and store equal, whatever the request holds. */
  lemma StepStored(s: State, r: Request)
    requires Stored(s)
    ensures Stored(Apply(s, r).0)
  {
    hide UserOk, Known, Found, AddTo, DropFrom;
    KeepNames(s.users, r);
  }

  lemma StepKeeps(s: State, r: Request)
    requires Inv(s) && Careful(r)
    ensures Inv(Apply(s, r).0)
  {
    StepStored(s, r);
    hide UserOk, Known, Found, AddTo, DropFrom, Stored;
    var name := r.user.username;
    if name in s.users {
      AddOk(s.users[name], Found(r.schema, r.user));
      DropOk(s.users[name], Found(r.schema, r.user));
    }
    KeepNames(s.users, r);
    VersionAside(Found(r.schema, r.user));
  }

  lemma KeepNames(users: map<string, User>, r: Request)
    ensures Found(r.schema, r.user).username == r.user.username
    ensures forall n :: n in users ==>
              AddTo(users[n], Found(r.schema, r.user)).username == users[n].username
              && DropFrom(users[n], Found(r.schema, r.user)).username == users[n].username
  {
  }

  lemma VersionAside(u: User)
    ensures UserOk(u.(version := 1)) == UserOk(u)
  {
  }

  lemma {:induction false} RunKeeps(s: State, log: seq<Request>)
    requires Inv(s) && forall k :: 0 <= k < |log| ==> Careful(log[k])
    ensures Inv(Run(s, log).0)
    decreases |log|
  {
    if log != [] {
      StepKeeps(s, log[0]);
      hide Inv, Careful, Apply;
      RunKeeps(Apply(s, log[0]).0, log[1..]);
    }
  }

  lemma {:induction false} RunStored(s: State, log: seq<Request>)
    requires Stored(s)
    ensures Stored(Run(s, log).0)
    decreases |log|
  {
    if log != [] {
      StepStored(s, log[0]);
      hide Stored, Apply;
      RunStored(Apply(s, log[0]).0, log[1..]);
    }
  }

  lemma TwoRights(id: int, zone: string, low: int)
    ensures var s := [Entry(id, zone, Some(low), false), Entry(id, zone, Some(low + 2), false)];
            var e := Entry(id, zone, Some(low + 1), false);
            Rights(s) == map[id := low] && Rights(DeleteAll(s, [e])) == map[id := low + 1]
  {
    var a, b := Entry(id, zone, Some(low), false), Entry(id, zone, Some(low + 2), false);
    var e := Entry(id, zone, Some(low + 1), false);
    var s := [a, b];
    assert s[1..] == [b] && [b][1..] == [] && [e][1..] == [];
    assert s[1].key == e.key && e.rw.value < Rw(s[1]);
    DeleteAnyRights(s, e);
    assert DeleteAll(s, [e]) == DeleteAll(Delete(s, e), []) == Delete(s, e);
    assert Rights([b]) == map[id := low + 2];
  }

  /** A log from the start that gets there, in any schema with a zone: a user is
      created with the zone listed twice, and dropping a right leaves it a higher one. */
  lemma DeleteCanRaise(schema: Schema.State, ns: string, zone: string, name: string, low: int)
    requires Schema.GetId(schema.ns, ns) != 0 && ZoneId(schema, ns, zone) != 0
    ensures var twice := [Entry(0, zone, Some(low), false), Entry(0, zone, Some(low + 2), false)];
            var user := User(name, "", ns, 0, twice, [], [], None, None, 0);
            var create := Request(CreateUser, user, schema, true);
            var drop := Request(DropPrivilege, user.(zones := [Entry(0, zone, Some(low + 1), false)]), schema, true);
            var (s, replies) := Run(INIT, [create, drop]);
            && replies == [DONE, DONE]
            && name in Apply(INIT, create).0.users && name in s.users
            && Rights(Apply(INIT, create).0.users[name].zones) == map[ZoneId(schema, ns, zone) := low]
            && Rights(s.users[name].zones) == map[ZoneId(schema, ns, zone) := low + 1]
  {
    hide ZoneId, Rights, DeleteAll;
    var id := ZoneId(schema, ns, zone);
    var twice := [Entry(0, zone, Some(low), false), Entry(0, zone, Some(low + 2), false)];
    var user := User(name, "", ns, 0, twice, [], [], None, None, 0);
    var create := Request(CreateUser, user, schema, true);
    var less := user.(zones := [Entry(0, zone, Some(low + 1), false)]);
    var drop := Request(DropPrivilege, less, schema, true);
    var t := Apply(INIT, create).0;
    assert ZonesFound(schema, ns, twice)
        == [Entry(id, zone, Some(low), false), Entry(id, zone, Some(low + 2), false)];
    assert ZonesFound(schema, ns, less.zones) == [Entry(id, zone, Some(low + 1), false)];
    TwoRights(id, zone, low);
    assert Known(schema, user) && Known(schema, less);
    var u := Apply(t, drop).0;
    assert Apply(INIT, create).1 == DONE && t.users[name].zones == ZonesFound(schema, ns, twice);
    assert Apply(t, drop).1 == DONE;
    assert u.users[name].zones == DeleteAll(t.users[name].zones, ZonesFound(schema, ns, less.zones));
    RunTwo(INIT, create, drop);
  }

  lemma RunTwo(s: State, a: Request, b: Request)
    ensures Run(s, [a, b]) == (Apply(Apply(s, a).0, b).0, [Apply(s, a).1, Apply(Apply(s, a).0, b).1])
  {
    hide Apply;
    assert [a, b][1..] == [b] && [b][1..] == [];
    var t := Apply(s, a).0;
    assert Run(Apply(t, b).0, []) == (Apply(t, b).0, []);
    assert Run(t, [b]) == (Apply(t, b).0, [Apply(t, b).1] + []);
    assert [Apply(t, b).1] + [] == [Apply(t, b).1];
    assert Run(s, [a, b]) == (Run(t, [b]).0, [Apply(s, a).1] + Run(t, [b]).1);
    assert [Apply(s, a).1] + [Apply(t, b).1] == [Apply(s, a).1, Apply(t, b).1];
  }

  /** After any run whatsoever the store rebuilds the memory, and if users were
      created with unique ids every list has unique ids. */
  lemma StoreIsMemory(log: seq<Request>)
    ensures Run(INIT, log).0.db == Run(INIT, log).0.users
    ensures (forall k :: 0 <= k < |log| ==> Careful(log[k])) ==>
              forall n :: n in Run(INIT, log).0.users ==> UserOk(Run(INIT, log).0.users[n])
  {
    RunStored(INIT, log);
    if forall k :: 0 <= k < |log| ==> Careful(log[k]) {
      hide Careful, Apply, UserOk;
      RunKeeps(INIT, log);
    }
  }

  /** Successful changes of one user in a log. */
  function Changes(s: State, log: seq<Request>, name: string): nat
    decreases |log|
  {
    if log == [] then 0
    else
      var (t, reply) := Apply(s, log[0]);
      (if log[0].user.username == name && reply == DONE then 1 else 0) + Changes(t, log[1..], name)
  }

  /** While a user is not dropped, its version counts the changes it went through. */
  lemma {:induction false} VersionCounts(s: State, log: seq<Request>, name: string)
    requires Stored(s) && name in s.users
    requires forall k :: 0 <= k < |log| && log[k].user.username == name ==> !log[k].op.DropUser?
    ensures name in Run(s, log).0.users
    ensures Run(s, log).0.users[name].version == s.users[name].version + Changes(s, log, name)
    decreases |log|
  {
    if log != [] {
      StepStored(s, log[0]);
      VersionStep(s, log[0], name);
      hide Stored, Apply;
      VersionCounts(Apply(s, log[0]).0, log[1..], name);
    }
  }

  lemma VersionStep(s: State, r: Request, name: string)
    requires Stored(s) && name in s.users && (r.user.username == name ==> !r.op.DropUser?)
    ensures var (t, reply) := Apply(s, r);
            && name in t.users
            && t.users[name].version == s.users[name].version + if r.user.username == name && reply == DONE then 1 else 0
  {
    hide Known, Found, UserOk;
    KeepNames(s.users, r);
  }

  /** b has nothing that a has not, and nothing larger. */
  ghost predicate AtMost<K(!new)>(b: map<K, int>, a: map<K, int>) {
    forall k :: k in b ==> k in a && b[k] <= a[k]
  }

  /** b is a except at the ids that es mentions. */
  ghost predicate SameElsewhere<K(!new), N(!new)>(b: map<K, int>, a: map<K, int>, es: seq<Entry<K, N>>) {
    forall k :: !Mentions(es, k) ==> (k in b <==> k in a) && (k in a ==> b[k] == a[k])
  }

  lemma AddedRights<K(!new), N(!new)>(s: seq<Entry<K, N>>, es: seq<Entry<K, N>>)
    ensures SameElsewhere(Rights(InsertAll(s, es)), Rights(s), es)
    ensures NoneForced(es) ==> IsMax(Rights(InsertAll(s, es)), Rights(s), es)
  {
    forall k | !Mentions(es, k)
      ensures (k in Rights(InsertAll(s, es)) <==> k in Rights(s))
      ensures k in Rights(s) ==> Rights(InsertAll(s, es))[k] == Rights(s)[k]
    {
      InsertAllElsewhere(s, es, k);
    }
    if NoneForced(es) {
      InsertAllIsMax(s, es);
    }
  }

  lemma DroppedRights<K(!new), N(!new)>(s: seq<Entry<K, N>>, es: seq<Entry<K, N>>)
    requires Unique(s)
    ensures AtMost(Rights(DeleteAll(s, es)), Rights(s)) && SameElsewhere(Rights(DeleteAll(s, es)), Rights(s), es)
  {
    forall k
      ensures k in Rights(DeleteAll(s, es)) ==> k in Rights(s) && Rights(DeleteAll(s, es))[k] <= Rights(s)[k]
      ensures !Mentions(es, k) && k in Rights(s) ==>
                k in Rights(DeleteAll(s, es)) && Rights(DeleteAll(s, es))[k] == Rights(s)[k]
    {
      DeleteAllLowers(s, es, k);
    }
  }

  /** What a successful add_privilege and drop_privilege do to the rights: an add
      that forces nothing takes the maximum, a drop never raises, and neither
      touches a zone or servlet that the request does not mention. */
  lemma RightsAfter(s: State, r: Request)
    requires Inv(s) && Apply(s, r).1 == DONE && (r.op.AddPrivilege? || r.op.DropPrivilege?)
    ensures var u, v, found := s.users[r.user.username], Apply(s, r).0.users[r.user.username], Found(r.schema, r.user);
            && SameElsewhere(Rights(v.zones), Rights(u.zones), found.zones)
            && SameElsewhere(Rights(v.servlets), Rights(u.servlets), found.servlets)
            && (r.op.AddPrivilege? && NoneForced(found.zones) ==> IsMax(Rights(v.zones), Rights(u.zones), found.zones))
            && (r.op.AddPrivilege? && NoneForced(found.servlets) ==>
                  IsMax(Rights(v.servlets), Rights(u.servlets), found.servlets))
            && (r.op.DropPrivilege? ==>
                  AtMost(Rights(v.zones), Rights(u.zones)) && AtMost(Rights(v.servlets), Rights(u.servlets)))
  {
    var u, found := s.users[r.user.username], Found(r.schema, r.user);
    hide Rights, Known, Found, IsMax, SameElsewhere, AtMost, NoneForced, Unique;
    KeepNames(s.users, r);
    AddedRights(u.zones, found.zones);
    AddedRights(u.servlets, found.servlets);
    DroppedRights(u.zones, found.zones);
    DroppedRights(u.servlets, found.servlets);
  }

  // ---- the manager as an object

  class PrivilegeManager {
    var userPrivilege: map<string, User>
    /** This manager's keys of the store. */
    var db: map<string, User>

    function View(): State
      reads this
    {
      State(userPrivilege, db)
    }

    constructor ()
      ensures View() == INIT
    {
      userPrivilege, db := map[], map[];
    }

    /** SchemaManager::check_and_get_for_privilege. */
    static method CheckAndGet(schema: Schema.State, u: User) returns (ok: bool, found: User)
      ensures ok <==> Known(schema, u)
      ensures ok ==> found == Found(schema, u)
    {
      found := u.(namespaceId := Schema.GetId(schema.ns, u.namespaceName));
      if found.namespaceId == 0 {
        return false, found;
      }
      var zones: Zones := [];
      for i := 0 to |u.zones|
        invariant zones == ZonesFound(schema, u.namespaceName, u.zones[..i])
        invariant forall k :: 0 <= k < i ==> ZoneId(schema, u.namespaceName, u.zones[k].name) != 0
      {
        var id := ZoneId(schema, u.namespaceName, u.zones[i].name);
        if id == 0 {
          return false, found;
        }
        zones := zones + [u.zones[i].(key := id)];
      }
      assert u.zones[..|u.zones|] == u.zones;
      var servlets: Servlets := [];
      for i := 0 to |u.servlets|
        invariant servlets == ServletsFound(schema, u.namespaceName, u.servlets[..i])
        invariant forall k :: 0 <= k < i ==>
                    && ZoneId(schema, u.namespaceName, u.servlets[k].name.0) != 0
                    && ServletId(schema, u.namespaceName, u.servlets[k].name.0, u.servlets[k].name.1) != 0
      {
        var zoneId := ZoneId(schema, u.namespaceName, u.servlets[i].name.0);
        var servletId := ServletId(schema, u.namespaceName, u.servlets[i].name.0, u.servlets[i].name.1);
        if zoneId == 0 || servletId == 0 {
          return false, found;
        }
        servlets := servlets + [u.servlets[i].(key := (zoneId, servletId))];
      }
      assert u.servlets[..|u.servlets|] == u.servlets;
      found := found.(zones := zones, servlets := servlets);
      ok := true;
    }

    method Put(u: User, ok: bool) returns (reply: Reply)
      modifies this
      ensures (View(), reply) == Write(old(View()), u, ok)
    {
      if !ok {
        return WRITE_FAIL;
      }
      db := db[u.username := u];
      userPrivilege := userPrivilege[u.username := u];
      reply := DONE;
    }

    method Create(u: User, schema: Schema.State, ok: bool) returns (reply: Reply)
      modifies this
      ensures (View(), reply) == Apply(old(View()), Request(CreateUser, u, schema, ok))
    {
      if u.username in userPrivilege {
        return Refuse("username has been repeated");
      }
      var known, found := CheckAndGet(schema, u);
      if !known {
        return Refuse("request invalid");
      }
      reply := Put(found.(version := 1), ok);
    }

    method Drop(u: User, schema: Schema.State, ok: bool) returns (reply: Reply)
      modifies this
      ensures (View(), reply) == Apply(old(View()), Request(DropUser, u, schema, ok))
    {
      if u.username !in userPrivilege {
        return Refuse("username not exist");
      }
      if !ok {
        return DELETE_FAIL;
      }
      db := db - {u.username};
      userPrivilege := userPrivilege - {u.username};
      reply := DONE;
    }

    static method InsertLists(u: User, r: User) returns (mem: User)
      ensures mem == u.(zones := InsertAll(u.zones, r.zones), servlets := InsertAll(u.servlets, r.servlets),
                        ips := InsertIps(u.ips, r.ips))
    {
      var zones, servlets, ips := u.zones, u.servlets, u.ips;
      for i := 0 to |r.zones|
        invariant InsertAll(zones, r.zones[i..]) == InsertAll(u.zones, r.zones)
      {
        assert r.zones[i..][1..] == r.zones[i + 1..];
        zones := InsertPrivilege(r.zones[i], zones);
      }
      for i := 0 to |r.servlets|
        invariant InsertAll(servlets, r.servlets[i..]) == InsertAll(u.servlets, r.servlets)
      {
        assert r.servlets[i..][1..] == r.servlets[i + 1..];
        servlets := InsertPrivilege(r.servlets[i], servlets);
      }
      for i := 0 to |r.ips|
        invariant InsertIps(ips, r.ips[i..]) == InsertIps(u.ips, r.ips)
      {
        assert r.ips[i..][1..] == r.ips[i + 1..];
        if r.ips[i] !in ips {
          ips := ips + [r.ips[i]];
        }
      }
      mem := u.(zones := zones, servlets := servlets, ips := ips);
    }

    static method DeleteIp(ip: string, list: seq<string>) returns (mem: seq<string>)
      ensures mem == Without(list, ip)
    {
      mem := [];
      for i := 0 to |list|
        invariant mem == Without(list[..i], ip)
      {
        assert list[..i + 1] == list[..i] + [list[i]];
        WithoutPush(list[..i], list[i], ip);
        if list[i] != ip {
          mem := mem + [list[i]];
        }
      }
      assert list[..|list|] == list;
    }

    static method DeleteLists(u: User, r: User) returns (mem: User)
      ensures mem == u.(zones := DeleteAll(u.zones, r.zones), servlets := DeleteAll(u.servlets, r.servlets),
                        ips := DeleteIps(u.ips, r.ips))
    {
      var zones, servlets, ips := u.zones, u.servlets, u.ips;
      for i := 0 to |r.zones|
        invariant DeleteAll(zones, r.zones[i..]) == DeleteAll(u.zones, r.zones)
      {
        assert r.zones[i..][1..] == r.zones[i + 1..];
        zones := DeletePrivilege(r.zones[i], zones);
      }
      for i := 0 to |r.servlets|
        invariant DeleteAll(servlets, r.servlets[i..]) == DeleteAll(u.servlets, r.servlets)
      {
        assert r.servlets[i..][1..] == r.servlets[i + 1..];
        servlets := DeletePrivilege(r.servlets[i], servlets);
      }
      for i := 0 to |r.ips|
        invariant DeleteIps(ips, r.ips[i..]) == DeleteIps(u.ips, r.ips)
      {
        assert r.ips[i..][1..] == r.ips[i + 1..];
        ips := DeleteIp(r.ips[i], ips);
      }
      mem := u.(zones := zones, servlets := servlets, ips := ips);
    }

    method Add(u: User, schema: Schema.State, ok: bool) returns (reply: Reply)
      modifies this
      ensures (View(), reply) == Apply(old(View()), Request(AddPrivilege, u, schema, ok))
    {
      if u.username !in userPrivilege {
        return Refuse("username not exist");
      }
      var known, found := CheckAndGet(schema, u);
      if !known {
        return Refuse("request invalid");
      }
      var mem := InsertLists(userPrivilege[u.username], found);
      if found.needAuthAddr.Some? {
        mem := mem.(needAuthAddr := found.needAuthAddr);
      }
      if found.resourceTag.Some? {
        mem := mem.(resourceTag := found.resourceTag);
      }
      mem := mem.(version := mem.version + 1);
      assert mem == AddTo(userPrivilege[u.username], found);
      reply := Put(mem, ok);
    }

    method DropRights(u: User, schema: Schema.State, ok: bool) returns (reply: Reply)
      modifies this
      ensures (View(), reply) == Apply(old(View()), Request(DropPrivilege, u, schema, ok))
    {
      if u.username !in userPrivilege {
        return Refuse("username not exist");
      }
      var known, found := CheckAndGet(schema, u);
      if !known {
        return Refuse("request invalid");
      }
      var mem := DeleteLists(userPrivilege[u.username], found);
      if found.needAuthAddr.Some? {
        mem := mem.(needAuthAddr := found.needAuthAddr);
      }
      if found.resourceTag.Some? && mem.resourceTag.Some? && found.resourceTag == mem.resourceTag {
        mem := mem.(resourceTag := None);
      }
      mem := mem.(version := mem.version + 1);
      assert mem == DropFrom(userPrivilege[u.username], found);
      reply := Put(mem, ok);
    }

    /** load_snapshot: memory becomes the store, entry by entry. */
    method LoadSnapshot()
      modifies this`userPrivilege
      ensures userPrivilege == db
    {
      userPrivilege := map[];
      var left := db.Keys;
      while left != {}
        invariant left <= db.Keys && userPrivilege.Keys == db.Keys - left
        invariant forall n :: n in userPrivilege ==> userPrivilege[n] == db[n]
        decreases left
      {
        var name :| name in left;
        userPrivilege := userPrivilege[name := db[name]];
        left := left - {name};
      }
    }
  }
}

/** What clients read from the configs: a lookup, the store and every answer are
    determined by the requests that were answered with success. */
module ConfigHistory {
  import opened Replies
  import opened Wrappers
  import opened Names
  import opened Config

  /** What a request leaves of one version of one name, told from its answer alone. */
  function Left(was: Option<ConfigInfo>, r: Request, reply: Reply, name: string, v: Version): Option<ConfigInfo> {
    if reply.code != Success then was
    else
      match r
      case Create(c, _) => if c.name == name && c.version.GetOr(Version(0, 0, 1)) == v then Some(c) else was
      case Remove(n, version, _) => if n == name && (version.None? || version.value == v) then None else was
  }

  function LeftByAll(was: Option<ConfigInfo>, log: seq<Request>, replies: seq<Reply>, name: string, v: Version)
    : Option<ConfigInfo>
    requires |replies| == |log|
    decreases |log|
  {
    if log == [] then was
    else LeftByAll(Left(was, log[0], replies[0], name, v), log[1..], replies[1..], name, v)
  }

  /** A name stays known while it has a version, and after any create. */
  ghost predicate Known(was: bool, r: Request, reply: Reply, after: State, name: string) {
    match r
    case Create(c, _) => was || c.name == name
    case Remove(n, version, _) =>
      if n == name && reply.code == Success then version.Some? && exists v :: Get(after, name, v).Some?
      else was
  }

  lemma CreateReads(s: State, c: ConfigInfo, ok: bool, name: string, v: Version)
    ensures var (t, reply) := DoCreate(s, c, ok);
            Get(t, name, v) == Left(Get(s, name, v), Create(c, ok), reply, name, v)
  {
    hide MakeConfigKey;
  }

  lemma RemoveReads(s: State, n: string, version: Option<Version>, ok: bool, name: string, v: Version)
    ensures var (t, reply) := DoRemove(s, n, version, ok);
            Get(t, name, v) == Left(Get(s, name, v), Remove(n, version, ok), reply, name, v)
  {
    hide MakeConfigKey, KeysOf;
  }

  /** One request: the configs read as its answer says. */
  lemma StepReads(s: State, r: Request, name: string, v: Version)
    ensures var (t, reply) := Apply(s, r);
            Get(t, name, v) == Left(Get(s, name, v), r, reply, name, v)
  {
    hide DoCreate, DoRemove, Get, Left;
    match r
    case Create(c, ok) => CreateReads(s, c, ok, name, v);
    case Remove(n, version, ok) => RemoveReads(s, n, version, ok, name, v);
  }

  /** And a name without versions is gone, unless a create has just named it. */
  lemma StepNames(s: State, r: Request, name: string)
    ensures var (t, reply) := Apply(s, r);
            name in t.configs <==> Known(name in s.configs, r, reply, t, name)
  {
    hide MakeConfigKey, KeysOf;
    var t := Apply(s, r).0;
    if name in t.configs && t.configs[name].Keys != {} {
      var v :| v in t.configs[name].Keys;
      assert Get(t, name, v).Some?;
    }
  }

  /** The store, for any names: a create writes its key, a remove takes away its
      key or those of all versions of the name, and nothing else changes. */
  lemma StepStores(s: State, r: Request)
    ensures var (t, reply) := Apply(s, r);
            if reply.code != Success then t.db == s.db
            else
              match r
              case Create(c, _) =>
                var key := [4 as char] + c.name + VersionToString(c.version.GetOr(Version(0, 0, 1)));
                t.db == s.db[key := c]
              case Remove(n, Some(v), _) => t.db == s.db - {[4 as char] + n + VersionToString(v)}
              case Remove(n, None, _) =>
                (forall k :: k in t.db ==> k in s.db && t.db[k] == s.db[k])
                && (forall k :: k in s.db && k !in t.db <==>
                      k in s.db && exists v :: Get(s, n, v).Some? && k == [4 as char] + n + VersionToString(v))
  {
    hide VersionToString;
    if r.Remove? && r.version.None? && r.name in s.configs {
      KeysAreOfVersions(s, r.name);
    }
  }

  lemma KeysAreOfVersions(s: State, name: string)
    requires name in s.configs
    ensures forall k :: k in KeysOf(name, s.configs[name]) <==>
                        exists v :: Get(s, name, v).Some? && k == [4 as char] + name + VersionToString(v)
  {
    hide VersionToString;
    forall k | k in KeysOf(name, s.configs[name])
      ensures exists v :: Get(s, name, v).Some? && k == [4 as char] + name + VersionToString(v)
    {
      var v :| v in s.configs[name] && k == MakeConfigKey(name, v);
      assert Get(s, name, v).Some?;
    }
    forall k, v | Get(s, name, v).Some? && k == [4 as char] + name + VersionToString(v)
      ensures k in KeysOf(name, s.configs[name])
    {
      assert v in s.configs[name] && k == MakeConfigKey(name, v);
    }
  }

  /** When a create is answered how. */
  lemma CreateAnswers(s: State, c: ConfigInfo, ok: bool)
    ensures var v := c.version.GetOr(Version(0, 0, 1));
            var reply := Apply(s, Create(c, ok)).1;
            && (reply == Reply(InputParamError, "config already exist") <==> Get(s, c.name, v).Some?)
            && (reply == Reply(InputParamError, "Version numbers must increase monotonically") <==>
                  Get(s, c.name, v).None? && exists w :: Get(s, c.name, w).Some? && Less(v, w))
            && (reply.code == Success <==> ok && forall w :: Get(s, c.name, w).Some? ==> Less(w, v))
            && (reply == Reply(InternalError, "write db fail") <==> !ok && forall w :: Get(s, c.name, w).Some? ==> Less(w, v))
  {
    hide MakeConfigKey;
    var m := At(s, c.name);
    var v := c.version.GetOr(Version(0, 0, 1));
    assert Touch(s.configs, c.name)[c.name] == m;
    forall w ensures Get(s, c.name, w).Some? <==> w in m {
    }
    if m.Keys != {} {
      assert Last(m) in m;
    }
  }

  lemma RemoveAnswers(s: State, name: string, version: Option<Version>, ok: bool)
    ensures var reply := Apply(s, Remove(name, version, ok)).1;
            && (name !in s.configs ==> reply == Reply(ParseToPbFail, "config not exist"))
            && (name in s.configs && !ok ==> reply == Reply(InternalError, "delete from db fail"))
            && (name in s.configs && ok ==> reply == Reply(Success, "success"))
  {
  }

  lemma {:induction false} RunReads(s: State, log: seq<Request>, name: string, v: Version)
    ensures |Run(s, log).1| == |log|
    ensures Get(Run(s, log).0, name, v) == LeftByAll(Get(s, name, v), log, Run(s, log).1, name, v)
    decreases |log|
  {
    if log != [] {
      var (t, reply) := Apply(s, log[0]);
      StepReads(s, log[0], name, v);
      hide Apply, Get, Left;
      RunReads(t, log[1..], name, v);
      var (u, replies) := Run(t, log[1..]);
      assert Run(s, log).1 == [reply] + replies && ([reply] + replies)[1..] == replies;
    }
  }

  /** Over any run: looking up a version finds exactly the config that was created
      under it with success and not removed with success since. */
  lemma LookupIsHistory(log: seq<Request>, name: string, v: Version)
    ensures |Run(INIT, log).1| == |log|
    ensures GetConfig(Run(INIT, log).0, name, Some(v)) == LeftByAll(None, log, Run(INIT, log).1, name, v)
  {
    RunReads(INIT, log, name, v);
    hide Run;
  }

  /** And without a version the highest of those that are left. */
  lemma LatestIsHistory(log: seq<Request>, name: string)
    ensures |Run(INIT, log).1| == |log|
    ensures var found := GetConfig(Run(INIT, log).0, name, None);
            var replies := Run(INIT, log).1;
            && (found.None? <==> forall v :: LeftByAll(None, log, replies, name, v).None?)
            && (found.Some? ==>
                  exists v :: found == LeftByAll(None, log, replies, name, v)
                    && forall w :: LeftByAll(None, log, replies, name, w).Some? ==> w == v || Less(w, v))
  {
    var (s, replies) := Run(INIT, log);
    RunReads(INIT, log, name, Version(0, 0, 0));
    forall v ensures Get(s, name, v) == LeftByAll(None, log, replies, name, v) {
      RunReads(INIT, log, name, v);
    }
    hide Run, LeftByAll;
    if name in s.configs && s.configs[name].Keys != {} {
      var v := Last(s.configs[name]);
      assert Get(s, name, v).Some?;
      assert GetConfig(s, name, None) == LeftByAll(None, log, replies, name, v);
    } else {
      forall v ensures Get(s, name, v).None? {
      }
    }
  }

  /** Nor does the store hold anything else, while names are plain. */
  lemma StoreIsHistory(log: seq<Request>, name: string, v: Version)
    requires PlainLog(INIT, log) && !Confusable(name)
    ensures |Run(INIT, log).1| == |log|
    ensures var left := LeftByAll(None, log, Run(INIT, log).1, name, v);
            var db := Run(INIT, log).0.db;
            left == if MakeConfigKey(name, v) in db then Some(db[MakeConfigKey(name, v)]) else None
  {
    var s := Run(INIT, log).0;
    InitInv();
    RunKeeps(INIT, log);
    RunReads(INIT, log, name, v);
    hide Run, LeftByAll, PlainLog;
    StoredIsHeld(s, name, v);
  }

  lemma StoredIsHeld(s: State, name: string, v: Version)
    requires Inv(s) && !Confusable(name)
    ensures Get(s, name, v) == if MakeConfigKey(name, v) in s.db then Some(s.db[MakeConfigKey(name, v)]) else None
  {
    hide MakeConfigKey, Confusable, Get, VersionLoaded;
    var k := MakeConfigKey(name, v);
    if k in s.db {
      var c := s.db[k];
      KnownName(s, c.name, VersionLoaded(c));
      ConfigKeyInjective(name, v, c.name, VersionLoaded(c));
    }
  }
}

/** Versioned configurations: config_manager.cc, and the lookup of
    query_config_manager.cc. The store is keyed by name and version run together. */
module Config {
  import opened Replies
  import opened Wrappers
  import opened Names

  datatype ConfigInfo = ConfigInfo(name: string, version: Option<Version>, content: string)

  /** A std::map from versions; its order is Less. */
  type Versions = map<Version, ConfigInfo>

  type Db = map<string, ConfigInfo>

  datatype State = State(configs: map<string, Versions>, db: Db)

  const INIT := State(map[], map[])

  predicate Less(a: Version, b: Version) {
    a.major < b.major || (a.major == b.major && (a.minor < b.minor || (a.minor == b.minor && a.patch < b.patch)))
  }

  function Rank(v: Version, base: int): int {
    (v.major * base + v.minor) * base + v.patch
  }

  /** Less compares versions as numbers with three digits, whatever the base. */
  lemma LessIsNumeric(a: Version, b: Version, base: int)
    requires 0 <= a.minor < base && 0 <= a.patch < base && 0 <= b.minor < base && 0 <= b.patch < base
    ensures Less(a, b) <==> Rank(a, base) < Rank(b, base)
    ensures a == b <==> Rank(a, base) == Rank(b, base)
  {
    TwoDigits(a.major, a.minor, b.major, b.minor, base);
    TwoDigits(a.major * base + a.minor, a.patch, b.major * base + b.minor, b.patch, base);
  }

  lemma TwoDigits(p: int, x: int, q: int, y: int, base: int)
    requires 0 <= x < base && 0 <= y < base
    ensures p * base + x < q * base + y <==> p < q || (p == q && x < y)
    ensures p * base + x == q * base + y <==> p == q && x == y
  {
    if p < q {
      assert (p + 1) * base <= q * base;
    } else if q < p {
      assert (q + 1) * base <= p * base;
    }
  }

  lemma {:induction false} LastExists(vs: set<Version>)
    requires vs != {}
    ensures exists v :: v in vs && forall w :: w in vs ==> w == v || Less(w, v)
    decreases vs
  {
    var x :| x in vs;
    if vs - {x} != {} {
      LastExists(vs - {x});
      var y :| y in vs - {x} && forall w :: w in vs - {x} ==> w == y || Less(w, y);
      var z := if Less(x, y) then y else x;
      forall w | w in vs ensures w == z || Less(w, z) {
        assert w == x || w in vs - {x};
      }
    } else {
      assert vs == {x};
    }
  }

  /** rbegin() of a version map. */
  function Last(m: Versions): (v: Version)
    requires m.Keys != {}
    ensures v in m && forall w :: w in m ==> w == v || Less(w, v)
  {
    LastExists(m.Keys);
    var v :| v in m && forall w :: w in m ==> w == v || Less(w, v);
    v
  }

  // ---- the operations

  /** What memory files a config without a version under. */
  const DEFAULT_VERSION := Version(0, 0, 1)

  /** What reading an absent version from a stored config gives. */
  const NO_VERSION := Version(0, 0, 0)

  function VersionIn(c: ConfigInfo): Version {
    c.version.GetOr(DEFAULT_VERSION)
  }

  function VersionLoaded(c: ConfigInfo): Version {
    c.version.GetOr(NO_VERSION)
  }

  const NOT_EXIST := Reply(ParseToPbFail, "config not exist")

  /** operator[]: a missing name gets an empty version map. */
  function Touch(configs: map<string, Versions>, name: string): map<string, Versions> {
    if name in configs then configs else configs[name := map[]]
  }

  function DoCreate(s: State, c: ConfigInfo, ok: bool): (State, Reply) {
    var configs := Touch(s.configs, c.name);
    var m := configs[c.name];
    var v := VersionIn(c);
    if v in m then (s.(configs := configs), Refuse("config already exist"))
    else if m.Keys != {} && !Less(Last(m), v) then
      (s.(configs := configs), Refuse("Version numbers must increase monotonically"))
    else if !ok then (s.(configs := configs), WRITE_FAIL)
    else (State(configs[c.name := m[v := c]], s.db[MakeConfigKey(c.name, v) := c]), DONE)
  }

  function KeysOf(name: string, m: Versions): set<string> {
    set v | v in m :: MakeConfigKey(name, v)
  }

  function DoRemoveAll(s: State, name: string, ok: bool): (State, Reply) {
    if name !in s.configs then (s, NOT_EXIST)
    else if !ok then (s, DELETE_FAIL)
    else (State(s.configs - {name}, s.db - KeysOf(name, s.configs[name])), DONE)
  }

  function Erase(configs: map<string, Versions>, name: string, v: Version): map<string, Versions>
    requires name in configs
  {
    var m := configs[name] - {v};
    if m.Keys == {} then configs - {name} else configs[name := m]
  }

  /** A version that is not there is reported and then removed all the same, so
      what the caller sees is success. */
  function DoRemove(s: State, name: string, version: Option<Version>, ok: bool): (State, Reply) {
    if version.None? then DoRemoveAll(s, name, ok)
    else if name !in s.configs then (s, NOT_EXIST)
    else if !ok then (s, DELETE_FAIL)
    else (State(Erase(s.configs, name, version.value), s.db - {MakeConfigKey(name, version.value)}), DONE)
  }

  datatype Request = Create(config: ConfigInfo, ok: bool) | Remove(name: string, version: Option<Version>, ok: bool)

  function Apply(s: State, r: Request): (State, Reply) {
    match r
    case Create(c, ok) => DoCreate(s, c, ok)
    case Remove(name, version, ok) => DoRemove(s, name, version, ok)
  }

  function Run(s: State, log: seq<Request>): (State, seq<Reply>)
    decreases |log|
  {
    if log == [] then (s, [])
    else
      var (t, reply) := Apply(s, log[0]);
      var (u, replies) := Run(t, log[1..]);
      (u, [reply] + replies)
  }

  /** get_config: the exact version asked for, or the last one. */
  function GetConfig(s: State, name: string, version: Option<Version>): Option<ConfigInfo> {
    if name !in s.configs || s.configs[name].Keys == {} then None
    else
      var v := version.GetOr(Last(s.configs[name]));
      if v in s.configs[name] then Some(s.configs[name][v]) else None
  }

  // ---- memory and store

  function At(s: State, name: string): Versions {
    if name in s.configs then s.configs[name] else map[]
  }

  function Get(s: State, name: string, v: Version): Option<ConfigInfo> {
    if v in At(s, name) then Some(At(s, name)[v]) else None
  }

  /** Every config in memory is stored under its key, with the name and version
      memory knows it by. */
  ghost predicate MemoryStored(s: State) {
    forall n, v :: Get(s, n, v).Some? ==>
      && Get(s, n, v).value.name == n && VersionLoaded(Get(s, n, v).value) == v
      && MakeConfigKey(n, v) in s.db && s.db[MakeConfigKey(n, v)] == Get(s, n, v).value
  }

  /** Every stored config is in memory under its name and version. */
  ghost predicate StoreInMemory(s: State) {
    forall k :: k in s.db ==>
      && k == MakeConfigKey(s.db[k].name, VersionLoaded(s.db[k]))
      && Get(s, s.db[k].name, VersionLoaded(s.db[k])).Some?
  }

  ghost predicate Inv(s: State) {
    && MemoryStored(s) && StoreInMemory(s)
    && (forall n :: n in s.configs ==> !Confusable(n))
  }

  lemma KnownName(s: State, name: string, v: Version)
    requires Get(s, name, v).Some?
    ensures name in s.configs
  {
  }

  /** Adding one config to memory and store. */
  lemma PutKeeps(s: State, t: State, c: ConfigInfo, v: Version)
    requires MemoryStored(s) && StoreInMemory(s) && !Confusable(c.name) && VersionLoaded(c) == v
    requires forall n :: n in s.configs ==> !Confusable(n)
    requires t.db == s.db[MakeConfigKey(c.name, v) := c]
    requires forall n, w :: Get(t, n, w) == if n == c.name && w == v then Some(c) else Get(s, n, w)
    ensures MemoryStored(t) && StoreInMemory(t)
  {
    hide MakeConfigKey, Confusable, Get, VersionLoaded;
    forall n, w | Get(s, n, w).Some? && MakeConfigKey(n, w) == MakeConfigKey(c.name, v) ensures n == c.name && w == v {
      KnownName(s, n, w);
      ConfigKeyInjective(n, w, c.name, v);
    }
  }

  /** Taking versions of one name from memory and store. */
  lemma TakeKeeps(s: State, t: State, name: string, gone: set<Version>)
    requires MemoryStored(s) && StoreInMemory(s) && !Confusable(name)
    requires forall n :: n in s.configs ==> !Confusable(n)
    requires t.db == s.db - set v | v in gone :: MakeConfigKey(name, v)
    requires forall n, w :: Get(t, n, w) == if n == name && w in gone then None else Get(s, n, w)
    ensures MemoryStored(t) && StoreInMemory(t)
  {
    hide MakeConfigKey, Confusable, Get, VersionLoaded;
    forall n, w, v | Get(s, n, w).Some? && v in gone && MakeConfigKey(n, w) == MakeConfigKey(name, v) ensures n == name && w == v {
      KnownName(s, n, w);
      ConfigKeyInjective(n, w, name, v);
    }
  }

  lemma CreateKeeps(s: State, c: ConfigInfo, ok: bool)
    requires Inv(s) && !Confusable(c.name) && (c.version.Some? || DoCreate(s, c, ok).1 != DONE)
    ensures Inv(DoCreate(s, c, ok).0)
  {
    hide MakeConfigKey, Confusable;
    var t := DoCreate(s, c, ok).0;
    if DoCreate(s, c, ok).1 == DONE {
      forall n, w ensures Get(t, n, w) == if n == c.name && w == VersionIn(c) then Some(c) else Get(s, n, w) {
      }
      PutKeeps(s, t, c, VersionIn(c));
    } else {
      RefusedKeeps(s, c, ok);
    }
  }

  lemma RefusedKeeps(s: State, c: ConfigInfo, ok: bool)
    requires Inv(s) && !Confusable(c.name) && DoCreate(s, c, ok).1 != DONE
    ensures Inv(DoCreate(s, c, ok).0)
  {
    hide MakeConfigKey, Confusable;
    var t := DoCreate(s, c, ok).0;
    forall n, w ensures Get(t, n, w) == Get(s, n, w) {
    }
    hide Get, VersionLoaded;
  }

  lemma RemoveKeeps(s: State, name: string, v: Version, ok: bool)
    requires Inv(s)
    ensures Inv(DoRemove(s, name, Some(v), ok).0)
  {
    hide MakeConfigKey, Confusable;
    if name in s.configs && ok {
      var t := DoRemove(s, name, Some(v), ok).0;
      forall n, w ensures Get(t, n, w) == if n == name && w in {v} then None else Get(s, n, w) {
      }
      assert (set w | w in {v} :: MakeConfigKey(name, w)) == {MakeConfigKey(name, v)};
      TakeKeeps(s, t, name, {v});
    }
  }

  lemma RemoveAllKeeps(s: State, name: string, ok: bool)
    requires Inv(s)
    ensures Inv(DoRemoveAll(s, name, ok).0)
  {
    hide MakeConfigKey, Confusable;
    if name in s.configs && ok {
      var t := DoRemoveAll(s, name, ok).0;
      TakeKeeps(s, t, name, s.configs[name].Keys);
    }
  }

  /** A create writes an explicit version, or nothing, under a name that keys cannot confuse. */
  predicate Plain(s: State, r: Request) {
    r.Create? ==> !Confusable(r.config.name) && (r.config.version.Some? || DoCreate(s, r.config, r.ok).1 != DONE)
  }

  lemma StepKeeps(s: State, r: Request)
    requires Inv(s) && Plain(s, r)
    ensures Inv(Apply(s, r).0)
  {
    match r
    case Create(c, ok) => CreateKeeps(s, c, ok);
    case Remove(name, None, ok) => RemoveAllKeeps(s, name, ok);
    case Remove(name, Some(v), ok) => RemoveKeeps(s, name, v, ok);
  }

  predicate PlainLog(s: State, log: seq<Request>)
    decreases |log|
  {
    log == [] || (Plain(s, log[0]) && PlainLog(Apply(s, log[0]).0, log[1..]))
  }

  lemma {:induction false} RunKeeps(s: State, log: seq<Request>)
    requires Inv(s) && PlainLog(s, log)
    ensures Inv(Run(s, log).0)
    decreases |log|
  {
    if log != [] {
      StepKeeps(s, log[0]);
      hide Inv, Plain, Apply;
      RunKeeps(Apply(s, log[0]).0, log[1..]);
    }
  }

  lemma InitInv()
    ensures Inv(INIT)
  {
  }

  // ---- the store rebuilds the memory

  /** Equal in all that a lookup can see: a name with no versions left is as
      good as absent. */
  ghost predicate Same(s: State, t: State) {
    s.db == t.db && forall n :: At(s, n) == At(t, n)
  }

  lemma {:induction false} StoreDeterminesMemory(s: State, t: State)
    requires Inv(s) && Inv(t) && s.db == t.db
    ensures Same(s, t)
  {
    hide MakeConfigKey, Confusable;
    forall n ensures At(s, n) == At(t, n) {
      Within(s, t, n);
      Within(t, s, n);
    }
  }

  lemma Within(s: State, t: State, n: string)
    requires MemoryStored(s) && MemoryStored(t) && StoreInMemory(t) && s.db == t.db
    ensures forall v :: v in At(s, n) ==> v in At(t, n) && At(t, n)[v] == At(s, n)[v]
  {
    hide MakeConfigKey;
    forall v | v in At(s, n) ensures v in At(t, n) && At(t, n)[v] == At(s, n)[v] {
      var k := MakeConfigKey(n, v);
      assert Get(s, n, v) == Some(At(s, n)[v]);
      assert k in t.db && t.db[k].name == n && VersionLoaded(t.db[k]) == v && Get(t, n, v).Some?;
    }
  }

  /** A fresh load after any run of plain requests, failed writes included, finds
      every config that memory held and no other. */
  lemma RebuildAfterRun(log: seq<Request>, loaded: State)
    requires PlainLog(INIT, log)
    requires Inv(loaded) && loaded.db == Run(INIT, log).0.db
    ensures Same(Run(INIT, log).0, loaded)
    ensures forall n, v :: GetConfig(Run(INIT, log).0, n, v) == GetConfig(loaded, n, v)
  {
    hide Inv, Plain, Run, Same, GetConfig;
    InitInv();
    RunKeeps(INIT, log);
    StoreDeterminesMemory(Run(INIT, log).0, loaded);
    SameLookups(Run(INIT, log).0, loaded);
  }

  lemma SameLookups(s: State, t: State)
    requires Same(s, t)
    ensures forall n, v :: GetConfig(s, n, v) == GetConfig(t, n, v)
  {
    forall n, v ensures GetConfig(s, n, v) == GetConfig(t, n, v) {
      assert At(s, n) == At(t, n);
    }
  }

  predicate NoEmpty(s: State) {
    forall n :: n in s.configs ==> s.configs[n].Keys != {}
  }

  /** A failed create of a name that memory does not know. */
  predicate Lingers(s: State, r: Request) {
    r.Create? && !r.ok && r.config.name !in s.configs
  }

  /** That, and nothing else, leaves a name without versions behind. */
  lemma NoEmptyIff(s: State, r: Request)
    requires NoEmpty(s)
    ensures NoEmpty(Apply(s, r).0) <==> !Lingers(s, r)
  {
    hide MakeConfigKey, KeysOf;
    match r
    case Create(c, ok) =>
      var m := Touch(s.configs, c.name)[c.name];
      assert VersionIn(c) in m[VersionIn(c) := c].Keys;
      assert m.Keys == {} <==> c.name !in s.configs;
    case Remove(name, version, ok) =>
  }

  predicate NoneLingers(s: State, log: seq<Request>)
    decreases |log|
  {
    log == [] || (!Lingers(s, log[0]) && NoneLingers(Apply(s, log[0]).0, log[1..]))
  }

  lemma {:induction false} RunNoEmpty(s: State, log: seq<Request>)
    requires NoEmpty(s) && NoneLingers(s, log)
    ensures NoEmpty(Run(s, log).0)
    decreases |log|
  {
    if log != [] {
      NoEmptyIff(s, log[0]);
      hide Apply, NoEmpty, Lingers;
      RunNoEmpty(Apply(s, log[0]).0, log[1..]);
    }
  }

  lemma {:induction false} RunConcat(s: State, log: seq<Request>, more: seq<Request>)
    ensures Run(s, log + more).0 == Run(Run(s, log).0, more).0
    ensures Run(s, log + more).1 == Run(s, log).1 + Run(Run(s, log).0, more).1
    decreases |log|
  {
    if log == [] {
      assert log + more == more;
    } else {
      assert (log + more)[1..] == log[1..] + more && (log + more)[0] == log[0];
      RunConcat(Apply(s, log[0]).0, log[1..], more);
    }
  }

  lemma SameIsEqual(s: State, t: State)
    requires Same(s, t) && NoEmpty(s) && NoEmpty(t)
    ensures s == t
  {
    forall n | n in s.configs ensures n in t.configs && t.configs[n] == s.configs[n] {
      assert At(s, n) == At(t, n);
    }
    forall n | n in t.configs ensures n in s.configs {
      assert At(s, n) == At(t, n);
    }
  }

  /** When no create of an unknown name failed, dump and load at any point of the
      log changes neither the end state nor a single reply. */
  lemma SnapshotCommutes(prefix: seq<Request>, suffix: seq<Request>, loaded: State)
    requires PlainLog(INIT, prefix) && NoneLingers(INIT, prefix)
    requires Inv(loaded) && NoEmpty(loaded) && loaded.db == Run(INIT, prefix).0.db
    ensures var (end, replies) := Run(loaded, suffix);
            Run(INIT, prefix + suffix) == (end, Run(INIT, prefix).1 + replies)
  {
    hide Inv, Plain, Lingers;
    var mid := Run(INIT, prefix).0;
    InitInv();
    RunKeeps(INIT, prefix);
    RunNoEmpty(INIT, prefix);
    StoreDeterminesMemory(mid, loaded);
    SameIsEqual(mid, loaded);
    RunConcat(INIT, prefix, suffix);
  }

  /** A failed first create is what it takes to tell the two apart: it leaves the
      name behind without versions, and only a reload forgets it. */
  lemma FailedCreateLingers(s: State, loaded: State, c: ConfigInfo, v: Version)
    requires c.name !in s.configs && c.name !in loaded.configs
    ensures var t := DoCreate(s, c, false).0;
            && t.db == s.db && (forall n :: At(t, n) == At(s, n))
            && Apply(t, Remove(c.name, Some(v), true)).1 == DONE
            && Apply(loaded, Remove(c.name, Some(v), true)).1 == NOT_EXIST
  {
  }

  // ---- order of versions

  /** An accepted create is above every version the name has, and from then on
      it is what a lookup without a version finds. */
  lemma AcceptedIsLatest(s: State, c: ConfigInfo)
    requires DoCreate(s, c, true).1 == DONE
    ensures forall v :: v in At(s, c.name) ==> Less(v, VersionIn(c))
    ensures GetConfig(DoCreate(s, c, true).0, c.name, None) == Some(c)
  {
    hide MakeConfigKey;
    var m := At(s, c.name);
    var t := DoCreate(s, c, true).0;
    assert t.configs[c.name] == m[VersionIn(c) := c];
    assert VersionIn(c) in t.configs[c.name];
    if m.Keys != {} {
      assert forall v :: v in m ==> v == Last(m) || Less(v, Last(m));
    }
    LastIs(t.configs[c.name], VersionIn(c));
  }

  lemma LastIs(m: Versions, v: Version)
    requires v in m && forall w :: w in m ==> w == v || Less(w, v)
    ensures m.Keys != {} && Last(m) == v
  {
  }

  /** The last create of a name that was accepted. */
  function LastCreated(s: State, log: seq<Request>, name: string): Option<ConfigInfo>
    decreases |log|
  {
    if log == [] then None
    else
      var (t, reply) := Apply(s, log[0]);
      var later := LastCreated(t, log[1..], name);
      if later.Some? then later
      else if log[0].Create? && log[0].config.name == name && reply == DONE then Some(log[0].config)
      else None
  }

  lemma OtherNameUntouched(s: State, r: Request, name: string)
    requires (r.Create? && r.config.name != name) || (r.Remove? && r.name != name) || (r.Create? && Apply(s, r).1 != DONE)
    ensures GetConfig(Apply(s, r).0, name, None) == GetConfig(s, name, None)
  {
    hide MakeConfigKey, KeysOf;
  }

  /** While nothing of a name is removed, a lookup without a version finds the
      last create that was accepted. */
  lemma {:induction false} LatestIsLastCreated(s: State, log: seq<Request>, name: string)
    requires forall k :: 0 <= k < |log| && log[k].Remove? ==> log[k].name != name
    ensures GetConfig(Run(s, log).0, name, None) ==
            if LastCreated(s, log, name).Some? then LastCreated(s, log, name) else GetConfig(s, name, None)
    decreases |log|
  {
    if log != [] {
      var r := log[0];
      if r.Create? && r.config.name == name && Apply(s, r).1 == DONE {
        AcceptedIsLatest(s, r.config);
        assert Apply(s, r) == DoCreate(s, r.config, true);
      } else {
        OtherNameUntouched(s, r, name);
      }
      hide Apply, GetConfig;
      LatestIsLastCreated(Apply(s, r).0, log[1..], name);
    }
  }

  // ---- where memory and store part

  /** A create without a version keeps them together exactly if nothing is
      written: memory files it under 0.0.1 and a reload under 0.0.0. */
  lemma DefaultVersionParts(s: State, c: ConfigInfo, ok: bool)
    requires Inv(s) && !Confusable(c.name) && c.version.None?
    ensures Inv(DoCreate(s, c, ok).0) <==> DoCreate(s, c, ok).1 != DONE
    ensures DoCreate(s, c, ok).1 == DONE ==>
              var t := DoCreate(s, c, ok).0;
              && t.configs[c.name][DEFAULT_VERSION] == c
              && t.db[MakeConfigKey(c.name, DEFAULT_VERSION)] == c && VersionLoaded(c) == NO_VERSION
  {
    hide MakeConfigKey, Confusable;
    var t := DoCreate(s, c, ok).0;
    if DoCreate(s, c, ok).1 != DONE {
      RefusedKeeps(s, c, ok);
    } else {
      assert Get(t, c.name, DEFAULT_VERSION) == Some(c);
      assert !MemoryStored(t);
    }
  }

  /** Every confusable name has a version at which creating it overwrites the
      stored copy of another config, while memory goes on showing both. */
  lemma ConfusableOverwrites(n: string, x: string, y: string) returns (v: Version, m: string, w: Version)
    requires Confusable(n)
    ensures m != n
    ensures var c, d := ConfigInfo(m, Some(w), x), ConfigInfo(n, Some(v), y);
            var s := Run(INIT, [Create(c, true), Create(d, true)]).0;
            && GetConfig(s, m, Some(w)) == Some(c) && GetConfig(s, n, Some(v)) == Some(d)
            && s.db == map[MakeConfigKey(n, v) := d]
  {
    v, m, w := ConfusableCollides(n);
    hide Confusable, Run, GetConfig, Apply;
    KeyTaken(ConfigInfo(m, Some(w), x), ConfigInfo(n, Some(v), y));
  }

  /** Two creates under one key. */
  lemma KeyTaken(c: ConfigInfo, d: ConfigInfo)
    requires c.name != d.name && c.version.Some? && d.version.Some?
    requires MakeConfigKey(c.name, c.version.value) == MakeConfigKey(d.name, d.version.value)
    ensures var s := Run(INIT, [Create(c, true), Create(d, true)]).0;
            && GetConfig(s, c.name, c.version) == Some(c) && GetConfig(s, d.name, d.version) == Some(d)
            && s.db == map[MakeConfigKey(d.name, d.version.value) := d]
  {
    hide MakeConfigKey, Apply, Run;
    var s1 := Apply(INIT, Create(c, true)).0;
    FirstCreate(INIT, c);
    FirstCreate(s1, d);
    RunTwo(INIT, Create(c, true), Create(d, true));
    var s2 := Apply(s1, Create(d, true)).0;
    assert c.version.value in s2.configs[c.name].Keys && d.version.value in s2.configs[d.name].Keys;
  }

  lemma FirstCreate(s: State, c: ConfigInfo)
    requires c.name !in s.configs && c.version.Some?
    ensures var t := Apply(s, Create(c, true)).0;
            && t.db == s.db[MakeConfigKey(c.name, c.version.value) := c]
            && t.configs == s.configs[c.name := map[c.version.value := c]]
  {
    hide MakeConfigKey;
    var m: Versions := map[];
    assert m[c.version.value := c] == map[c.version.value := c];
  }

  lemma RunTwo(s: State, a: Request, b: Request)
    ensures Run(s, [a, b]).0 == Apply(Apply(s, a).0, b).0
  {
    hide Apply;
    assert [a, b][1..] == [b] && [b][1..] == [];
    assert Run(Apply(s, a).0, [b]).0 == Apply(Apply(s, a).0, b).0;
  }

  /** Removing a version that is not there reports success and, names being
      plain, changes nothing that can be looked up or reloaded. */
  lemma MissingRemoveSucceeds(s: State, name: string, v: Version)
    requires Inv(s) && name in s.configs && v !in s.configs[name]
    ensures DoRemove(s, name, Some(v), true).1 == DONE
    ensures Same(s, DoRemove(s, name, Some(v), true).0)
  {
    hide MakeConfigKey, Confusable;
    var t := DoRemove(s, name, Some(v), true).0;
    if MakeConfigKey(name, v) in s.db {
      var c := s.db[MakeConfigKey(name, v)];
      ConfigKeyInjective(name, v, c.name, VersionLoaded(c));
    }
    assert s.configs[name] - {v} == s.configs[name];
    assert t.db == s.db;
  }

  // ---- the manager as an object

  class ConfigManager {
    var configs: map<string, Versions>
    /** This manager's keys of the store. */
    var db: Db

    function View(): State
      reads this
    {
      State(configs, db)
    }

    constructor ()
      ensures View() == INIT
    {
      configs, db := map[], map[];
    }

    method CreateConfig(c: ConfigInfo, ok: bool) returns (reply: Reply)
      modifies this
      ensures (View(), reply) == DoCreate(old(View()), c, ok)
    {
      var version := DEFAULT_VERSION;
      if c.version.Some? {
        version := c.version.value;
      }
      if c.name !in configs {
        configs := configs[c.name := map[]];
      }
      assert configs == Touch(old(configs), c.name);
      var found := configs[c.name];
      if version in found {
        return Refuse("config already exist");
      }
      if found.Keys != {} && !Less(Last(found), version) {
        return Refuse("Version numbers must increase monotonically");
      }
      if !ok {
        return WRITE_FAIL;
      }
      db := db[MakeConfigKey(c.name, version) := c];
      configs := configs[c.name := found[version := c]];
      reply := DONE;
    }

    method RemoveConfig(name: string, version: Option<Version>, ok: bool) returns (reply: Reply)
      modifies this
      ensures (View(), reply) == DoRemove(old(View()), name, version, ok)
    {
      hide MakeConfigKey, KeysOf;
      if version.None? {
        reply := RemoveConfigAll(name, ok);
        return;
      }
      if name !in configs {
        return NOT_EXIST;
      }
      if version.value !in configs[name] {
        reply := Refuse("config not exist");
      }
      if !ok {
        return DELETE_FAIL;
      }
      db := db - {MakeConfigKey(name, version.value)};
      var left := configs[name] - {version.value};
      configs := configs[name := left];
      if left.Keys == {} {
        configs := configs - {name};
      }
      assert configs == Erase(old(configs), name, version.value);
      reply := DONE;
    }

    /** All keys are collected first and removed in one batch. */
    method RemoveConfigAll(name: string, ok: bool) returns (reply: Reply)
      modifies this
      ensures (View(), reply) == DoRemoveAll(old(View()), name, ok)
    {
      if name !in configs {
        return NOT_EXIST;
      }
      var delKeys := {};
      var left := configs[name].Keys;
      while left != {}
        invariant left <= configs[name].Keys
        invariant delKeys == set v | v in configs[name] && v !in left :: MakeConfigKey(name, v)
        decreases left
      {
        var v :| v in left;
        delKeys := delKeys + {MakeConfigKey(name, v)};
        left := left - {v};
      }
      assert delKeys == KeysOf(name, configs[name]);
      if !ok {
        return DELETE_FAIL;
      }
      db := db - delKeys;
      configs := configs - {name};
      reply := DONE;
    }

    method LookUp(name: string, version: Option<Version>) returns (found: Option<ConfigInfo>)
      ensures found == GetConfig(View(), name, version)
    {
      if name !in configs || configs[name].Keys == {} {
        return None;
      }
      if version.None? {
        return Some(configs[name][Last(configs[name])]);
      }
      if version.value !in configs[name] {
        return None;
      }
      found := Some(configs[name][version.value]);
    }

    method LoadConfigSnapshot(c: ConfigInfo)
      modifies this`configs
      ensures View() == Load(old(View()), c)
    {
      if c.name !in configs {
        configs := configs[c.name := map[]];
      }
      assert configs == Touch(old(configs), c.name);
      var version := Version(0, 0, 0);
      if c.version.Some? {
        version := c.version.value;
      }
      configs := configs[c.name := configs[c.name][version := c]];
    }

    /** load_snapshot: in whatever order any store is read, memory ends up holding
        the stored configs and no other; where the invariant held when the store
        was written, it is the memory that wrote it. */
    method LoadSnapshot(ghost source: State)
      modifies this`configs
      ensures Partial(View(), {}) && NoEmpty(View())
      ensures Inv(source) && db == source.db ==> Same(View(), source) && Inv(View())
    {
      hide MakeConfigKey, Confusable, Inv, Load, Partial;
      configs := map[];
      NothingLoaded(db);
      var left := db.Keys;
      while left != {}
        invariant left <= db.Keys && Partial(View(), left) && NoEmpty(View())
        decreases left
      {
        var k :| k in left;
        LoadOne(View(), left, k);
        LoadConfigSnapshot(db[k]);
        left := left - {k};
      }
      if Inv(source) && db == source.db {
        AllLoaded(View(), source);
        StoreDeterminesMemory(View(), source);
      }
    }
  }

  function Load(s: State, c: ConfigInfo): State {
    var configs := Touch(s.configs, c.name);
    s.(configs := configs[c.name := configs[c.name][VersionLoaded(c) := c]])
  }

  ghost predicate Taken(db: Db, left: set<string>, name: string, v: Version, c: ConfigInfo) {
    c.name == name && VersionLoaded(c) == v && exists k :: k in db && k !in left && db[k] == c
  }

  /** Memory holds the stored configs that are not left, and no other; of several
      of one name and version, one. */
  ghost predicate Partial(s: State, left: set<string>) {
    && (forall n, v :: Get(s, n, v).Some? ==> Taken(s.db, left, n, v, Get(s, n, v).value))
    && (forall k :: k in s.db && k !in left ==> Get(s, s.db[k].name, VersionLoaded(s.db[k])).Some?)
    && NamesStored(s)
  }

  ghost predicate NamesStored(s: State) {
    forall n :: n in s.configs ==> exists k :: k in s.db && s.db[k].name == n
  }

  lemma NothingLoaded(db: Db)
    ensures Partial(State(map[], db), db.Keys)
  {
  }

  lemma TakenOne(db: Db, left: set<string>, k: string)
    requires k in db
    ensures Taken(db, left - {k}, db[k].name, VersionLoaded(db[k]), db[k])
    ensures forall n, v, c :: Taken(db, left, n, v, c) ==> Taken(db, left - {k}, n, v, c)
  {
    forall n, v, c | Taken(db, left, n, v, c) ensures Taken(db, left - {k}, n, v, c) {
      var j :| j in db && j !in left && db[j] == c;
      assert j !in left - {k};
    }
  }

  lemma LoadOne(s: State, left: set<string>, k: string)
    requires Partial(s, left) && NoEmpty(s) && k in left && k in s.db
    ensures Partial(Load(s, s.db[k]), left - {k}) && NoEmpty(Load(s, s.db[k]))
  {
    LoadNames(s, k);
    TakenOne(s.db, left, k);
    LoadedMore(s, Load(s, s.db[k]), left, k);
  }

  lemma KeyOfStored(source: State, k: string)
    requires Inv(source) && k in source.db
    ensures k == MakeConfigKey(source.db[k].name, VersionLoaded(source.db[k]))
  {
  }

  lemma LoadedMore(s: State, t: State, left: set<string>, k: string)
    requires Partial(s, left) && k in left && k in s.db && t.db == s.db && NamesStored(t)
    requires var c := s.db[k];
             forall n, v :: Get(t, n, v) == if n == c.name && v == VersionLoaded(c) then Some(c) else Get(s, n, v)
    requires Taken(s.db, left - {k}, s.db[k].name, VersionLoaded(s.db[k]), s.db[k])
    requires forall n, v, c :: Taken(s.db, left, n, v, c) ==> Taken(s.db, left - {k}, n, v, c)
    ensures Partial(t, left - {k})
  {
    hide MakeConfigKey, Confusable, Load, Get, VersionLoaded, Taken, NamesStored;
  }

  lemma LoadNames(s: State, k: string)
    requires k in s.db && NoEmpty(s)
    requires NamesStored(s)
    ensures var c := s.db[k];
            var t := Load(s, c);
            && NoEmpty(t) && t.db == s.db
            && NamesStored(t)
            && (forall n, v :: Get(t, n, v) == if n == c.name && v == VersionLoaded(c) then Some(c) else Get(s, n, v))
  {
    var t := Load(s, s.db[k]);
    assert VersionLoaded(s.db[k]) in t.configs[s.db[k].name].Keys;
    forall n | n in t.configs ensures exists j :: j in t.db && t.db[j].name == n {
      if n == s.db[k].name {
        assert t.db[k].name == n;
      }
    }
  }

  lemma NamesPlain(s: State, source: State)
    requires Inv(source) && s.db == source.db && NamesStored(s)
    ensures forall n :: n in s.configs ==> !Confusable(n)
  {
    hide MakeConfigKey, Confusable, Get, VersionLoaded;
    forall n | n in s.configs ensures !Confusable(n) {
      var k :| k in s.db && s.db[k].name == n;
      KnownName(source, n, VersionLoaded(source.db[k]));
    }
  }

  lemma LoadedIsStored(s: State, source: State)
    requires Inv(source) && s.db == source.db && Partial(s, {})
    ensures MemoryStored(s)
  {
    hide MakeConfigKey, Confusable, Get, VersionLoaded, Inv;
    forall n, v | Get(s, n, v).Some?
      ensures MakeConfigKey(n, v) in s.db && s.db[MakeConfigKey(n, v)] == Get(s, n, v).value
      ensures Get(s, n, v).value.name == n && VersionLoaded(Get(s, n, v).value) == v
    {
      assert Taken(s.db, {}, n, v, Get(s, n, v).value);
      var k :| k in s.db && s.db[k] == Get(s, n, v).value;
      KeyOfStored(source, k);
    }
  }

  lemma StoredIsLoaded(s: State, source: State)
    requires Inv(source) && s.db == source.db && Partial(s, {})
    ensures StoreInMemory(s)
  {
    hide MakeConfigKey, Confusable, Get, VersionLoaded, Inv;
    forall k | k in s.db ensures k == MakeConfigKey(s.db[k].name, VersionLoaded(s.db[k])) {
      KeyOfStored(source, k);
    }
  }

  lemma AllLoaded(s: State, source: State)
    requires Inv(source) && s.db == source.db && Partial(s, {})
    ensures Inv(s)
  {
    LoadedIsStored(s, source);
    StoredIsLoaded(s, source);
    NamesPlain(s, source);
    hide MemoryStored, StoreInMemory, Confusable;
  }
}

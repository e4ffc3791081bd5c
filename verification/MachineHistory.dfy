/** The machine is its four managers side by side: each sees exactly its own
    entries, and only the schema is seen by the others. */
module MachineHistory {
  import opened Replies
  import opened Machine
  import Schema
  import SchemaRuns
  import Config
  import Instance
  import Privilege

  function SchemaLog(log: seq<Entry>): seq<Schema.Request>
    decreases |log|
  {
    if log == [] then []
    else (if log[0].ForSchema? then [log[0].schemaRequest] else []) + SchemaLog(log[1..])
  }

  function ConfigLog(log: seq<Entry>): seq<Config.Request>
    decreases |log|
  {
    if log == [] then []
    else (if log[0].ForConfig? then [log[0].configRequest] else []) + ConfigLog(log[1..])
  }

  /** The schema that the rest of the log finds. */
  function SchemaAfter(schema: Schema.State, e: Entry): Schema.State {
    if e.ForSchema? then Schema.Apply(Schema.Intended, schema, e.schemaRequest).0 else schema
  }

  /** Each request with what the schema says of its names when it is applied. */
  function InstanceLog(schema: Schema.State, log: seq<Entry>): seq<Instance.Request>
    decreases |log|
  {
    if log == [] then []
    else
      (match log[0]
       case ForInstance(AddInstance, i, now, ok) =>
         [Instance.Request(Instance.Add(Instance.CheckAndGet(schema, i)), i, now, ok)]
       case ForInstance(DropInstance, i, now, ok) => [Instance.Request(Instance.Drop, i, now, ok)]
       case ForInstance(UpdateInstance, i, now, ok) => [Instance.Request(Instance.Update, i, now, ok)]
       case _ => [])
      + InstanceLog(SchemaAfter(schema, log[0]), log[1..])
  }

  function UserLog(schema: Schema.State, log: seq<Entry>): seq<Privilege.Request>
    decreases |log|
  {
    if log == [] then []
    else
      (match log[0]
       case ForUser(op, user, ok) => [Privilege.Request(op, user, schema, ok)]
       case _ => [])
      + UserLog(SchemaAfter(schema, log[0]), log[1..])
  }

  datatype Manager = OfSchema | OfConfig | OfInstance | OfUser

  function ManagerOf(e: Entry): Manager {
    match e
    case ForSchema(_) => OfSchema
    case ForConfig(_) => OfConfig
    case ForInstance(_, _, _, _) => OfInstance
    case ForUser(_, _, _) => OfUser
  }

  /** The answers to the entries of one manager. */
  function RepliesOf(m: Manager, log: seq<Entry>, replies: seq<Reply>): seq<Reply>
    requires |replies| == |log|
    decreases |log|
  {
    if log == [] then []
    else (if ManagerOf(log[0]) == m then [replies[0]] else []) + RepliesOf(m, log[1..], replies[1..])
  }

  lemma {:induction false} RunLength(s: State, log: seq<Entry>)
    ensures |Run(s, log).1| == |log|
    decreases |log|
  {
    if log != [] {
      hide Apply;
      RunLength(Apply(s, log[0]).0, log[1..]);
    }
  }

  /** An entry reaches its manager and no other. */
  lemma StepDispatches(s: State, e: Entry)
    ensures var (t, reply) := Apply(s, e);
            && t.schema == SchemaAfter(s.schema, e)
            && (!e.ForConfig? ==> t.config == s.config)
            && (!e.ForInstance? ==> t.instance == s.instance)
            && (!e.ForUser? ==> t.privilege == s.privilege)
            && (e.ForSchema? ==> reply == Schema.Apply(Schema.Intended, s.schema, e.schemaRequest).1)
            && (e.ForConfig? ==> (t.config, reply) == Config.Apply(s.config, e.configRequest))
            && (e.ForInstance? ==>
                  (t.instance, reply) == Instance.Apply(Instance.Intended, s.instance, InstanceLog(s.schema, [e])[0]))
            && (e.ForUser? ==> (t.privilege, reply) == Privilege.Apply(s.privilege, UserLog(s.schema, [e])[0]))
  {
    hide Schema.Apply, Config.Apply, Instance.Apply, Privilege.Apply;
    assert [e][1..] == [];
  }

  lemma {:induction false} SchemaPart(s: State, log: seq<Entry>)
    ensures |Run(s, log).1| == |log|
    ensures var (t, replies) := Run(s, log);
            (t.schema, RepliesOf(OfSchema, log, replies)) == SchemaRuns.Run(Schema.Intended, s.schema, SchemaLog(log))
    decreases |log|
  {
    RunLength(s, log);
    if log != [] {
      var (t, reply) := Apply(s, log[0]);
      StepDispatches(s, log[0]);
      hide Apply, Schema.Apply;
      SchemaPart(t, log[1..]);
      var (u, replies) := Run(t, log[1..]);
      assert Run(s, log).1 == [reply] + replies && ([reply] + replies)[1..] == replies;
      var rest := SchemaLog(log[1..]);
      if log[0].ForSchema? {
        assert ([log[0].schemaRequest] + rest)[1..] == rest;
      } else {
        assert [] + rest == rest && [] + RepliesOf(OfSchema, log[1..], replies) == RepliesOf(OfSchema, log[1..], replies);
      }
    }
  }

  lemma {:induction false} ConfigPart(s: State, log: seq<Entry>)
    ensures |Run(s, log).1| == |log|
    ensures var (t, replies) := Run(s, log);
            (t.config, RepliesOf(OfConfig, log, replies)) == Config.Run(s.config, ConfigLog(log))
    decreases |log|
  {
    RunLength(s, log);
    if log != [] {
      var (t, reply) := Apply(s, log[0]);
      StepDispatches(s, log[0]);
      hide Apply, Config.Apply;
      ConfigPart(t, log[1..]);
      var (u, replies) := Run(t, log[1..]);
      assert Run(s, log).1 == [reply] + replies && ([reply] + replies)[1..] == replies;
      var rest := ConfigLog(log[1..]);
      if log[0].ForConfig? {
        assert ([log[0].configRequest] + rest)[1..] == rest;
      } else {
        assert [] + rest == rest && [] + RepliesOf(OfConfig, log[1..], replies) == RepliesOf(OfConfig, log[1..], replies);
      }
    }
  }

  lemma FirstInstance(schema: Schema.State, log: seq<Entry>)
    requires log != []
    ensures var rest := InstanceLog(SchemaAfter(schema, log[0]), log[1..]);
            InstanceLog(schema, log) == if log[0].ForInstance? then [InstanceLog(schema, [log[0]])[0]] + rest else rest
  {
    hide SchemaAfter;
    assert [log[0]][1..] == [];
    assert InstanceLog(SchemaAfter(schema, log[0]), []) == [];
    if !log[0].ForInstance? {
      var rest := InstanceLog(SchemaAfter(schema, log[0]), log[1..]);
      assert [] + rest == rest;
    }
  }

  lemma {:induction false} InstancePart(s: State, log: seq<Entry>)
    ensures |Run(s, log).1| == |log|
    ensures var (t, replies) := Run(s, log);
            (t.instance, RepliesOf(OfInstance, log, replies))
            == Instance.Run(Instance.Intended, s.instance, InstanceLog(s.schema, log))
    decreases |log|
  {
    RunLength(s, log);
    if log != [] {
      var (t, reply) := Apply(s, log[0]);
      StepDispatches(s, log[0]);
      FirstInstance(s.schema, log);
      hide Apply, Instance.Apply, SchemaAfter, InstanceLog;
      InstancePart(t, log[1..]);
      var (u, replies) := Run(t, log[1..]);
      assert Run(s, log).1 == [reply] + replies && ([reply] + replies)[1..] == replies;
      var rest := InstanceLog(t.schema, log[1..]);
      if log[0].ForInstance? {
        var r := InstanceLog(s.schema, [log[0]])[0];
        assert ([r] + rest)[1..] == rest;
      } else {
        assert [] + RepliesOf(OfInstance, log[1..], replies) == RepliesOf(OfInstance, log[1..], replies);
      }
    }
  }

  lemma FirstUser(schema: Schema.State, log: seq<Entry>)
    requires log != []
    ensures var rest := UserLog(SchemaAfter(schema, log[0]), log[1..]);
            UserLog(schema, log) == if log[0].ForUser? then [UserLog(schema, [log[0]])[0]] + rest else rest
  {
    hide SchemaAfter;
    assert [log[0]][1..] == [];
    assert UserLog(SchemaAfter(schema, log[0]), []) == [];
    if !log[0].ForUser? {
      var rest := UserLog(SchemaAfter(schema, log[0]), log[1..]);
      assert [] + rest == rest;
    }
  }

  lemma {:induction false} UserPart(s: State, log: seq<Entry>)
    ensures |Run(s, log).1| == |log|
    ensures var (t, replies) := Run(s, log);
            (t.privilege, RepliesOf(OfUser, log, replies)) == Privilege.Run(s.privilege, UserLog(s.schema, log))
    decreases |log|
  {
    RunLength(s, log);
    if log != [] {
      var (t, reply) := Apply(s, log[0]);
      StepDispatches(s, log[0]);
      FirstUser(s.schema, log);
      hide Apply, Privilege.Apply, SchemaAfter, UserLog;
      UserPart(t, log[1..]);
      var (u, replies) := Run(t, log[1..]);
      assert Run(s, log).1 == [reply] + replies && ([reply] + replies)[1..] == replies;
      var rest := UserLog(t.schema, log[1..]);
      if log[0].ForUser? {
        var r := UserLog(s.schema, [log[0]])[0];
        assert ([r] + rest)[1..] == rest;
      } else {
        assert [] + RepliesOf(OfUser, log[1..], replies) == RepliesOf(OfUser, log[1..], replies);
      }
    }
  }

  /** Over any run of the machine, every manager ends and answers as if it alone had
      run its own entries, instances and users with the names looked up in the schema
      as it stood. */
  lemma ManagersRunAlone(log: seq<Entry>)
    ensures |Run(INIT, log).1| == |log|
    ensures var (s, replies) := Run(INIT, log);
            && (s.schema, RepliesOf(OfSchema, log, replies)) == SchemaRuns.Run(Schema.Intended, Schema.INIT, SchemaLog(log))
            && (s.config, RepliesOf(OfConfig, log, replies)) == Config.Run(Config.INIT, ConfigLog(log))
            && (s.instance, RepliesOf(OfInstance, log, replies))
               == Instance.Run(Instance.Intended, Instance.INIT, InstanceLog(Schema.INIT, log))
            && (s.privilege, RepliesOf(OfUser, log, replies)) == Privilege.Run(Privilege.INIT, UserLog(Schema.INIT, log))
  {
    hide Run;
    SchemaPart(INIT, log);
    ConfigPart(INIT, log);
    InstancePart(INIT, log);
    UserPart(INIT, log);
  }
}

/** The whole discovery state machine: discovery_state_machine.cc over the
    schema, config, instance and privilege managers. Instances and users look
    names up in the schema as it stands when their entry is applied. */
module Machine {
  import opened Replies
  import opened Wrappers
  import Schema
  import SchemaRuns
  import SchemaManagers
  import Config
  import Instance
  import Privilege

  /** The instance operations without the ids, which the machine looks up itself. */
  datatype InstanceOp = AddInstance | DropInstance | UpdateInstance

  datatype Entry =
    | ForSchema(schemaRequest: Schema.Request)
    | ForConfig(configRequest: Config.Request)
    | ForInstance(op: InstanceOp, info: Instance.Info, now: int, ok: bool)
    | ForUser(userOp: Privilege.Op, user: Privilege.User, ok: bool)

  datatype State = State(schema: Schema.State, config: Config.State, instance: Instance.State, privilege: Privilege.State)

  const INIT := State(Schema.INIT, Config.INIT, Instance.INIT, Privilege.INIT)

  function InstanceRequest(schema: Schema.State, e: Entry): Instance.Request
    requires e.ForInstance?
  {
    var op := match e.op
              case AddInstance => Instance.Add(Instance.CheckAndGet(schema, e.info))
              case DropInstance => Instance.Drop
              case UpdateInstance => Instance.Update;
    Instance.Request(op, e.info, e.now, e.ok)
  }

  function UserRequest(schema: Schema.State, e: Entry): Privilege.Request
    requires e.ForUser?
  {
    Privilege.Request(e.userOp, e.user, schema, e.ok)
  }

  /** on_apply with the intended servlet operations and the intended drop of an instance. */
  function Apply(s: State, e: Entry): (State, Reply) {
    match e
    case ForSchema(r) =>
      var (t, reply) := Schema.Apply(Schema.Intended, s.schema, r);
      (s.(schema := t), reply)
    case ForConfig(r) =>
      var (t, reply) := Config.Apply(s.config, r);
      (s.(config := t), reply)
    case ForInstance(_, _, _, _) =>
      var (t, reply) := Instance.Apply(Instance.Intended, s.instance, InstanceRequest(s.schema, e));
      (s.(instance := t), reply)
    case ForUser(_, _, _) =>
      var (t, reply) := Privilege.Apply(s.privilege, UserRequest(s.schema, e));
      (s.(privilege := t), reply)
  }

  function Run(s: State, log: seq<Entry>): (State, seq<Reply>)
    decreases |log|
  {
    if log == [] then (s, [])
    else
      var (t, reply) := Apply(s, log[0]);
      var (u, replies) := Run(t, log[1..]);
      (u, [reply] + replies)
  }

  // ---- the invariant of all managers

  ghost predicate Inv(s: State) {
    && Schema.Inv(s.schema)
    && Config.Inv(s.config) && Config.NoEmpty(s.config)
    && Instance.Sound(s.instance) && Instance.Complete(s.instance)
    && Privilege.Stored(s.privilege)
  }

  /** Schema entries that drop nothing from under another parent; configs that keys cannot confuse and that
      leave no empty name behind. */
  predicate Sane(s: State, e: Entry) {
    match e
    case ForSchema(r) => Schema.InPlace(s.schema, r)
    case ForConfig(r) => Config.Plain(s.config, r) && !Config.Lingers(s.config, r)
    case ForInstance(_, _, _, _) => true
    case ForUser(_, _, _) => true
  }

  predicate SaneLog(s: State, log: seq<Entry>)
    decreases |log|
  {
    log == [] || (Sane(s, log[0]) && SaneLog(Apply(s, log[0]).0, log[1..]))
  }

  lemma StepKeeps(s: State, e: Entry)
    requires Inv(s) && Sane(s, e)
    ensures Inv(Apply(s, e).0)
  {
    hide Schema.Inv, Schema.Apply, Config.Inv, Config.NoEmpty, Config.Apply, Config.Plain;
    hide Config.Lingers, Instance.Sound, Instance.Complete, Instance.Apply, Privilege.Stored, Privilege.Apply;
    match e
    case ForSchema(r) => Schema.ApplyInv(s.schema, r);
    case ForConfig(r) =>
      Config.StepKeeps(s.config, r);
      Config.NoEmptyIff(s.config, r);
    case ForInstance(_, _, _, _) => Instance.StepKeeps(Instance.Intended, s.instance, InstanceRequest(s.schema, e));
    case ForUser(_, _, _) => Privilege.StepStored(s.privilege, UserRequest(s.schema, e));
  }

  lemma {:induction false} RunKeeps(s: State, log: seq<Entry>)
    requires Inv(s) && SaneLog(s, log)
    ensures Inv(Run(s, log).0)
    decreases |log|
  {
    if log != [] {
      StepKeeps(s, log[0]);
      hide Inv, Sane, Apply;
      RunKeeps(Apply(s, log[0]).0, log[1..]);
    }
  }

  lemma InitInv()
    ensures Inv(INIT)
  {
    Config.InitInv();
  }

  // ---- dump, load, replay

  /** Everything that a snapshot carries. */
  predicate SameStore(s: State, t: State) {
    && s.schema.db == t.schema.db && s.config.db == t.config.db
    && s.instance.db == t.instance.db && s.privilege.db == t.privilege.db
  }

  /** Equal but for the tombstones of dropped instances. */
  predicate Same(s: State, t: State) {
    s.schema == t.schema && s.config == t.config && Instance.Same(s.instance, t.instance) && s.privilege == t.privilege
  }

  /** The four stores determine the memory of all managers. */
  lemma StoreDeterminesMemory(s: State, t: State)
    requires Inv(s) && Inv(t) && SameStore(s, t)
    ensures Same(s, t)
  {
    SchemaRuns.StoreDeterminesMemory(s.schema, t.schema);
    Config.StoreDeterminesMemory(s.config, t.config);
    Config.SameIsEqual(s.config, t.config);
    Instance.StoreDeterminesMemory(s.instance, t.instance);
    hide Schema.Inv, Config.Inv, Config.NoEmpty, Config.Same, Instance.Sound, Instance.Complete, Instance.Same;
    assert s.privilege == t.privilege;
  }

  /** No instance comes back within an hour of its drop. */
  predicate NotBuried(s: State, e: Entry) {
    e.ForInstance? && e.op.AddInstance? ==> !Instance.Buried(s.instance, e.info.address, e.now)
  }

  predicate NoneBuried(s: State, log: seq<Entry>)
    decreases |log|
  {
    log == [] || (NotBuried(s, log[0]) && NoneBuried(Apply(s, log[0]).0, log[1..]))
  }

  lemma StepSame(s: State, t: State, e: Entry)
    requires Same(s, t) && NotBuried(s, e) && NotBuried(t, e)
    ensures Apply(s, e).1 == Apply(t, e).1 && Same(Apply(s, e).0, Apply(t, e).0)
  {
    hide Schema.Apply, Config.Apply, Instance.Apply, Instance.Same, Instance.Buried, Privilege.Apply;
    if e.ForInstance? {
      Instance.StepTombstonesAside(Instance.Intended, s.instance, t.instance, InstanceRequest(s.schema, e));
    }
  }

  lemma {:induction false} RunSame(s: State, t: State, log: seq<Entry>)
    requires Same(s, t) && NoneBuried(s, log) && NoneBuried(t, log)
    ensures Run(s, log).1 == Run(t, log).1 && Same(Run(s, log).0, Run(t, log).0)
    decreases |log|
  {
    if log != [] {
      StepSame(s, t, log[0]);
      hide Apply, Same, NotBuried;
      RunSame(Apply(s, log[0]).0, Apply(t, log[0]).0, log[1..]);
    }
  }

  lemma {:induction false} RunConcat(s: State, log: seq<Entry>, more: seq<Entry>)
    ensures Run(s, log + more).0 == Run(Run(s, log).0, more).0
    ensures Run(s, log + more).1 == Run(s, log).1 + Run(Run(s, log).0, more).1
    decreases |log|
  {
    if log == [] {
      assert log + more == more;
    } else {
      hide Apply;
      assert (log + more)[1..] == log[1..] + more && (log + more)[0] == log[0];
      RunConcat(Apply(s, log[0]).0, log[1..], more);
    }
  }

  /** Snapshot and replay commute for the machine as a whole: apply a prefix, dump
      the store, load it on a fresh node, apply the rest. Every manager ends as if
      the whole log had been applied, and every reply is the same. */
  lemma SnapshotCommutes(prefix: seq<Entry>, suffix: seq<Entry>, loaded: State)
    requires SaneLog(INIT, prefix)
    requires Inv(loaded) && SameStore(Run(INIT, prefix).0, loaded)
    requires NoneBuried(Run(INIT, prefix).0, suffix) && NoneBuried(loaded, suffix)
    ensures var whole, rest := Run(INIT, prefix + suffix), Run(loaded, suffix);
            Same(whole.0, rest.0) && whole.1 == Run(INIT, prefix).1 + rest.1
  {
    hide Inv, Same, SameStore, Apply;
    InitInv();
    RunKeeps(INIT, prefix);
    StoreDeterminesMemory(Run(INIT, prefix).0, loaded);
    RunSame(Run(INIT, prefix).0, loaded, suffix);
    RunConcat(INIT, prefix, suffix);
  }

  // ---- the managers together, as objects

  class DiscoveryServer {
    const schema: SchemaManagers.DiscoveryStateMachine
    const config: Config.ConfigManager
    const instance: Instance.InstanceManager
    const privilege: Privilege.PrivilegeManager

    function View(): State
      reads schema.namespaces, schema.zones, schema.servlets, schema.store, config, instance, privilege
    {
      State(schema.View(), config.View(), instance.View(), privilege.View())
    }

    constructor ()
      ensures schema.Shape() && View() == INIT
      ensures fresh(schema.namespaces) && fresh(schema.zones) && fresh(schema.servlets) && fresh(schema.store)
      ensures fresh(config) && fresh(instance) && fresh(privilege)
    {
      schema := new SchemaManagers.DiscoveryStateMachine();
      config := new Config.ConfigManager();
      instance := new Instance.InstanceManager();
      privilege := new Privilege.PrivilegeManager();
    }

    method ApplyInstance(e: Entry) returns (reply: Reply)
      requires e.ForInstance?
      modifies instance
      ensures (instance.View(), reply) ==
              Instance.Apply(Instance.Intended, old(instance.View()), InstanceRequest(schema.View(), e))
    {
      match e.op {
        case AddInstance => reply := instance.AddInstance(e.info, schema.View(), e.now, e.ok);
        case DropInstance => reply := instance.DropInstance(Instance.Intended, e.info, e.now, e.ok);
        case UpdateInstance => reply := instance.UpdateInstance(e.info, e.ok);
      }
    }

    method ApplyUser(e: Entry) returns (reply: Reply)
      requires e.ForUser?
      modifies privilege
      ensures (privilege.View(), reply) == Privilege.Apply(old(privilege.View()), UserRequest(schema.View(), e))
    {
      match e.userOp {
        case CreateUser => reply := privilege.Create(e.user, schema.View(), e.ok);
        case DropUser => reply := privilege.Drop(e.user, schema.View(), e.ok);
        case AddPrivilege => reply := privilege.Add(e.user, schema.View(), e.ok);
        case DropPrivilege => reply := privilege.DropRights(e.user, schema.View(), e.ok);
      }
    }

    method ApplyConfig(r: Config.Request) returns (reply: Reply)
      modifies config
      ensures (config.View(), reply) == Config.Apply(old(config.View()), r)
    {
      match r {
        case Create(c, ok) => reply := config.CreateConfig(c, ok);
        case Remove(name, version, ok) => reply := config.RemoveConfig(name, version, ok);
      }
    }

    /** One turn of the on_apply loop. */
    method ApplyOne(e: Entry) returns (reply: Reply)
      requires schema.Shape()
      modifies schema.namespaces, schema.zones, schema.servlets, schema.store, config, instance, privilege
      ensures (View(), reply) == Apply(old(View()), e)
    {
      hide Schema.Apply, Config.Apply, Instance.Apply, Privilege.Apply;
      match e {
        case ForSchema(r) =>
          reply := schema.ApplyOne(Schema.Intended, r);
        case ForConfig(r) =>
          reply := ApplyConfig(r);
        case ForInstance(_, _, _, _) =>
          reply := ApplyInstance(e);
        case ForUser(_, _, _) =>
          reply := ApplyUser(e);
      }
    }

    method OnApply(log: seq<Entry>) returns (replies: seq<Reply>)
      requires schema.Shape()
      modifies schema.namespaces, schema.zones, schema.servlets, schema.store, config, instance, privilege
      ensures (View(), replies) == Run(old(View()), log)
    {
      hide Apply;
      replies := [];
      for k := 0 to |log|
        invariant Run(View(), log[k..]).0 == Run(old(View()), log).0
        invariant replies + Run(View(), log[k..]).1 == Run(old(View()), log).1
      {
        var reply := ApplyOne(log[k]);
        assert log[k..][1..] == log[k + 1..];
        replies := replies + [reply];
      }
      assert log[|log|..] == [] && replies + [] == replies;
    }

    method LoadUsersAndSchema(ghost source: Schema.State)
      requires schema.Shape() && Schema.Inv(source) && schema.store.db == source.db
      modifies schema.namespaces, schema.zones, schema.servlets, privilege
      ensures schema.View() == SchemaManagers.LoadedState(source, old(schema.View()))
      ensures privilege.userPrivilege == privilege.db == old(privilege.db)
    {
      hide Schema.Inv, SchemaManagers.LoadedState;
      privilege.LoadSnapshot();
      schema.LoadSnapshot(source);
    }

    method LoadConfigsAndInstances(ghost source: Config.State)
      requires Config.Inv(source) && config.db == source.db
      requires forall a :: a in instance.db ==> instance.db[a].address == a
      modifies config, instance
      ensures config.db == old(config.db) && Config.Inv(config.View()) && Config.NoEmpty(config.View())
      ensures instance.View().infos == instance.db == old(instance.db)
      ensures Instance.Sound(instance.View()) && Instance.Complete(instance.View())
    {
      hide Config.Inv, Config.NoEmpty, Config.Same, Instance.Sound, Instance.Complete;
      config.LoadSnapshot(source);
      instance.LoadSnapshot();
    }

    /** on_snapshot_load, once the store holds the dumped entries: users, schema,
        configs and instances, in the order of the code. All memory becomes that of
        the source, but for id counters that the store does not have; on a node
        without such counters of its own nothing is left of the difference. */
    method OnSnapshotLoad(ghost source: State)
      requires schema.Shape() && Inv(source) && SameStore(View(), source)
      modifies schema.namespaces, schema.zones, schema.servlets, config, instance, privilege
      ensures Same(View(), source.(schema := SchemaManagers.LoadedState(source.schema, old(schema.View()))))
      ensures SchemaManagers.FreshCounters(source.schema, old(schema.View())) ==> Same(View(), source) && Inv(View())
    {
      ghost var was := schema.View();
      LoadParts(View(), source);
      SchemaManagers.LoadedIsSource(source.schema, was);
      hide Inv, Same, SameStore, Schema.Inv, Config.Inv, Config.NoEmpty;
      hide SchemaManagers.LoadedState, SchemaManagers.FreshCounters;
      hide Instance.Sound, Instance.Complete, Privilege.Stored;
      LoadUsersAndSchema(source.schema);
      LoadConfigsAndInstances(source.config);
      LoadedIsSource(View(), source);
    }
  }

  lemma LoadParts(s: State, source: State)
    requires Inv(source) && SameStore(s, source)
    ensures Schema.Inv(source.schema) && s.schema.db == source.schema.db
    ensures Config.Inv(source.config) && s.config.db == source.config.db
    ensures s.instance.db == source.instance.db && forall a :: a in s.instance.db ==> s.instance.db[a].address == a
    ensures s.privilege.db == source.privilege.db
  {
    hide Schema.Inv, Config.Inv, Config.NoEmpty, Privilege.Stored;
  }

  lemma LoadedIsSource(s: State, source: State)
    requires Inv(source) && s.config.db == source.config.db && s.instance.db == source.instance.db
    requires s.privilege.users == s.privilege.db == source.privilege.db
    requires Config.Inv(s.config) && Config.NoEmpty(s.config)
    requires s.instance.infos == s.instance.db && Instance.Sound(s.instance) && Instance.Complete(s.instance)
    ensures Same(s, source.(schema := s.schema))
    ensures s.schema == source.schema ==> Same(s, source) && Inv(s)
  {
    hide Schema.Inv, Config.Inv, Config.NoEmpty, Instance.Sound, Instance.Complete, Instance.Same;
    assert s.privilege == source.privilege;
    StoreDeterminesMemory(s.(schema := source.schema), source);
  }
}

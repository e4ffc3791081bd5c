/** Every replica of the timestamp oracle together: the committed log, leader
    changes, the save-ahead window, snapshots, restarts, and the ranges handed
    to clients. Raft is taken as a totally ordered committed log with at most
    one proposal outstanding. A leader that raft has already replaced may still
    answer gen_tso, because gen_tso never goes through raft, and may still apply
    what it proposed itself. A call of gen_tso is let in by a leader and then
    makes its attempts whatever its replica has become. */
module TsoSystem {
  import opened Wrappers
  import opened Words
  import opened Tso

  datatype Entry = Entry(update: Update, epoch: nat)

  /** epoch 0: not leader. Otherwise the number of the leadership it serves. */
  datatype Replica = Replica(obj: TsoObj, healthy: bool, epoch: nat, applied: nat)

  datatype Snapshot = Snapshot(index: nat, save: int)

  /** A range of timestamps answered by gen_tso, and the leadership it counts to. */
  datatype Grant = Grant(epoch: nat, start: Timestamp, count: Int64)

  /** A call of gen_tso that the leadership epoch let in, with so many attempts left. */
  datatype Call = Call(r: nat, count: Int64, epoch: nat, left: nat)

  datatype System = System(
    log: seq<Entry>,
    pending: Option<Entry>,
    replicas: seq<Replica>,
    epoch: nat,
    snapshots: seq<Snapshot>,
    issued: seq<Grant>,
    calls: seq<Call>)

  datatype Event =
    | LeaderStart(r: nat, now: int, committed: bool)
    | LeaderStop(r: nat)
    | Timer(r: nat, now: int)
    | Commit
    | Lose
    | Apply(r: nat)
    | Ask(r: nat, count: Int64)
    | Attempt(k: nat)
    | SaveSnapshot(r: nat)
    | Restart(r: nat, snap: nat)
    | InstallSnapshot(r: nat, snap: nat)

  const FRESH := Replica(INIT_OBJ, true, 0, 0)

  function Init(n: nat): System {
    System([], None, seq(n, _ => FRESH), 0, [Snapshot(0, 0)], [], [])
  }

  /** What process and gen_tso ask before the first attempt, and never again. */
  predicate Leads(x: Replica) {
    x.epoch > 0 && x.healthy
  }

  /** The next entry of a leader, unless a later leader put it in the log. */
  predicate Outstanding(log: seq<Entry>, x: Replica) {
    x.applied < |log| && log[x.applied].epoch <= x.epoch
  }

  predicate Enabled(s: System, ev: Event) {
    match ev
    case LeaderStart(r, _, _) =>
      r < |s.replicas| && s.replicas[r].epoch == 0 && s.pending.None? && s.replicas[r].applied == |s.log|
    case LeaderStop(r) => r < |s.replicas|
    case Timer(r, _) =>
      r < |s.replicas| && s.replicas[r].epoch == s.epoch > 0 && s.pending.None? && s.replicas[r].applied == |s.log|
    case Commit => s.pending.Some?
    case Lose => s.pending.Some?
    case Apply(r) =>
      r < |s.replicas| && s.replicas[r].applied < |s.log|
      && (s.replicas[r].epoch == 0 || Outstanding(s.log, s.replicas[r]))
    case Ask(r, count) => r < |s.replicas| && Leads(s.replicas[r]) && count != 0
    case Attempt(k) => k < |s.calls| && s.calls[k].left > 0 && s.calls[k].r < |s.replicas|
    case SaveSnapshot(r) => r < |s.replicas|
    case Restart(r, i) => r < |s.replicas| && i < |s.snapshots|
    case InstallSnapshot(r, i) =>
      r < |s.replicas| && i < |s.snapshots| && s.replicas[r].epoch == 0
      && s.replicas[r].applied < s.snapshots[i].index
  }

  function Put(s: System, r: nat, x: Replica): System
    requires r < |s.replicas|
  {
    s.(replicas := s.replicas[r := x])
  }

  /** on_leader_start: the proposal either commits, and decides the health of the
      new leader, or fails, in which case it may still be committed later. */
  function DoLeaderStart(s: System, r: nat, now: int, committed: bool): System
    requires r < |s.replicas|
  {
    var x := s.replicas[r];
    var e := Entry(StartProposal(x.obj.lastSave, now), s.epoch + 1);
    if committed then
      Put(s, r, Replica(ApplyUpdate(x.obj, e.update), x.healthy && Accepts(x.obj, e.update), s.epoch + 1, |s.log| + 1))
      .(log := s.log + [e], epoch := s.epoch + 1)
    else
      Put(s, r, x.(healthy := false, epoch := s.epoch + 1)).(pending := Some(e), epoch := s.epoch + 1)
  }

  function DoTimer(s: System, r: nat, now: int): System
    requires r < |s.replicas|
  {
    match TimerProposal(s.replicas[r].obj, now)
    case None => s
    case Some(u) => s.(pending := Some(Entry(u, s.epoch)))
  }

  function DoApply(s: System, r: nat): System
    requires r < |s.replicas| && s.replicas[r].applied < |s.log|
  {
    var x := s.replicas[r];
    Put(s, r, x.(obj := ApplyUpdate(x.obj, s.log[x.applied].update), applied := x.applied + 1))
  }

  /** The range a call takes. It counts to the leadership that its replica serves,
      or, when it serves none, to the one that let the call in. */
  function GrantOf(s: System, c: Call): Grant
    requires c.r < |s.replicas|
  {
    var x := s.replicas[c.r];
    Grant(if Leads(x) then x.epoch else c.epoch, x.obj.current, c.count)
  }

  /** One locked attempt: a call that gets its range makes no other. */
  function DoAttempt(s: System, k: nat): System
    requires k < |s.calls| && s.calls[k].left > 0 && s.calls[k].r < |s.replicas|
  {
    var c := s.calls[k];
    var x := s.replicas[c.r];
    if CanTake(x.obj, c.count) then
      Put(s, c.r, x.(obj := Take(x.obj, c.count)))
      .(issued := s.issued + [GrantOf(s, c)], calls := s.calls[k := c.(left := 0)])
    else
      s.(calls := s.calls[k := c.(left := c.left - 1)])
  }

  /** A process that goes down answers none of its calls. */
  function Dropped(calls: seq<Call>, r: nat): seq<Call> {
    seq(|calls|, k requires 0 <= k < |calls| => if calls[k].r == r then calls[k].(left := 0) else calls[k])
  }

  /** One step. An event that cannot happen in this state changes nothing. */
  function Next(s: System, ev: Event): System {
    if !Enabled(s, ev) then s else
    match ev
    case LeaderStart(r, now, committed) => DoLeaderStart(s, r, now, committed)
    case LeaderStop(r) => Put(s, r, s.replicas[r].(epoch := 0))
    case Timer(r, now) => DoTimer(s, r, now)
    case Commit => s.(log := s.log + [s.pending.value], pending := None)
    case Lose => s.(pending := None)
    case Apply(r) => DoApply(s, r)
    case Ask(r, count) => s.(calls := s.calls + [Call(r, count, s.replicas[r].epoch, GEN_RETRIES)])
    case Attempt(k) => DoAttempt(s, k)
    case SaveSnapshot(r) =>
      s.(snapshots := s.snapshots + [Snapshot(s.replicas[r].applied, s.replicas[r].obj.lastSave)])
    case Restart(r, i) =>
      Put(s, r, Replica(TsoObj(Timestamp(0, 0), s.snapshots[i].save), true, 0, s.snapshots[i].index))
      .(calls := Dropped(s.calls, r))
    case InstallSnapshot(r, i) =>
      var x := s.replicas[r];
      Put(s, r, x.(obj := x.obj.(lastSave := s.snapshots[i].save), applied := s.snapshots[i].index))
  }

  function Run(s: System, events: seq<Event>): System
    decreases |events|
  {
    if events == [] then s else Run(Next(s, events[0]), events[1..])
  }
}

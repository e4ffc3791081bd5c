/** Memory accounting: MemTracker and its pool in ea/base/memory_profile.h and
    memory_profile.cc. Every count is kept twice, in a query's tracker and in the
    root; the two updates of one call are separate atomic operations. */
module MemTracker {
  import opened Wrappers

  /** consume and release ignore what is not positive. */
  function Counted(bytes: int): int {
    if bytes <= 0 then 0 else bytes
  }

  class MemTracker {
    const logId: int
    const parent: MemTracker?
    var bytesConsumed: int
    var lastActiveTime: int

    constructor (logId: int, parent: MemTracker?, now: int)
      ensures bytesConsumed == 0 && this.logId == logId && this.parent == parent
      ensures lastActiveTime == now
    {
      this.logId, this.parent := logId, parent;
      bytesConsumed, lastActiveTime := 0, now;
    }

    method Consume(bytes: int, now: int)
      requires parent != this
      modifies this, parent
      ensures bytesConsumed == old(bytesConsumed) + Counted(bytes) && lastActiveTime == now
      ensures bytes > 0 ==> bytesConsumed == old(bytesConsumed) + bytes
      ensures parent != null ==>
                parent.bytesConsumed == old(parent.bytesConsumed) + Counted(bytes)
                && parent.lastActiveTime == old(parent.lastActiveTime)
    {
      lastActiveTime := now;
      if bytes <= 0 {
        return;
      }
      bytesConsumed := bytesConsumed + bytes;
      if parent != null {
        parent.bytesConsumed := parent.bytesConsumed + bytes;
      }
    }

    method Release(bytes: int, now: int)
      requires parent != this
      modifies this, parent
      ensures bytesConsumed == old(bytesConsumed) - Counted(bytes) && lastActiveTime == now
      ensures bytes > 0 ==> bytesConsumed == old(bytesConsumed) - bytes
      ensures parent != null ==>
                parent.bytesConsumed == old(parent.bytesConsumed) - Counted(bytes)
                && parent.lastActiveTime == old(parent.lastActiveTime)
    {
      lastActiveTime := now;
      if bytes <= 0 {
        return;
      }
      bytesConsumed := bytesConsumed - bytes;
      if parent != null {
        parent.bytesConsumed := parent.bytesConsumed - bytes;
      }
    }

    /** The destructor: what is still counted leaves the parent, too. */
    method Destroy(now: int)
      requires parent != null ==> parent != this && parent.parent == null
      modifies parent
      ensures parent != null ==>
                parent.bytesConsumed == old(parent.bytesConsumed) - Counted(bytesConsumed)
                && parent.lastActiveTime == if bytesConsumed > 0 then now else old(parent.lastActiveTime)
    {
      var bytes := bytesConsumed;
      if bytes > 0 && parent != null {
        parent.Release(bytes, now);
      }
    }
  }

  // ---- the pool under any interleaving of queries and garbage collection

  /** holders: shared pointers to the tracker outside the pool. */
  datatype Tracker = Tracker(log: int, bytes: int, holders: nat, alive: bool)

  /** An update that has reached the tracker and not yet the root. */
  datatype Pending = Pending(id: nat, delta: int)

  /** over: what destroyed trackers had released beyond what they consumed. */
  datatype State = State(root: int, trackers: seq<Tracker>, pool: map<int, nat>, pending: seq<Pending>, over: nat)

  const INIT := State(0, [], map[], [], 0)

  datatype Event =
    | Get(log: int)
    | Consume(id: nat, bytes: int)
    | Release(id: nat, bytes: int)
    | Arrive(k: nat)
    | Drop(id: nat)
    | Gc(log: int)

  predicate Busy(s: State, id: nat) {
    exists k :: 0 <= k < |s.pending| && s.pending[k].id == id
  }

  predicate Usable(s: State, id: nat) {
    id < |s.trackers| && s.trackers[id].alive && s.trackers[id].holders > 0
  }

  predicate Pooled(s: State, id: nat)
    requires id < |s.trackers|
  {
    s.trackers[id].log in s.pool && s.pool[s.trackers[id].log] == id
  }

  predicate Enabled(s: State, e: Event)
    requires forall log :: log in s.pool ==> s.pool[log] < |s.trackers|
  {
    match e
    case Get(_) => true
    case Consume(id, _) => Usable(s, id)
    case Release(id, _) => Usable(s, id)
    case Arrive(k) => k < |s.pending|
    case Drop(id) => Usable(s, id) && (Busy(s, id) ==> s.trackers[id].holders > 1)
    case Gc(log) => log in s.pool
  }

  function Set(s: State, id: nat, t: Tracker): State
    requires id < |s.trackers|
  {
    s.(trackers := s.trackers[id := t])
  }

  /** A tracker dies with the last pointer to it. */
  function Reap(s: State, id: nat): State
    requires id < |s.trackers|
  {
    var t := s.trackers[id];
    if t.holders > 0 || !t.alive || Pooled(s, id) then s
    else
      Set(s, id, t.(alive := false))
      .(root := if t.bytes > 0 then s.root - t.bytes else s.root, over := if t.bytes < 0 then s.over - t.bytes else s.over)
  }

  function Begin(s: State, id: nat, delta: int): State
    requires id < |s.trackers|
  {
    if delta == 0 then s
    else Set(s, id, s.trackers[id].(bytes := s.trackers[id].bytes + delta)).(pending := s.pending + [Pending(id, delta)])
  }

  ghost predicate PoolOk(s: State) {
    forall log :: log in s.pool ==>
      s.pool[log] < |s.trackers| && s.trackers[s.pool[log]].alive && s.trackers[s.pool[log]].log == log
  }

  function DoGet(s: State, log: int): State
    requires forall l :: l in s.pool ==> s.pool[l] < |s.trackers|
  {
    if log in s.pool then
      var id := s.pool[log];
      Set(s, id, s.trackers[id].(holders := s.trackers[id].holders + 1))
    else
      s.(trackers := s.trackers + [Tracker(log, 0, 1, true)], pool := s.pool[log := |s.trackers|])
  }

  ghost function Next(s: State, e: Event): State
    requires PoolOk(s)
  {
    if !Enabled(s, e) then s else
    match e
    case Get(log) => DoGet(s, log)
    case Consume(id, bytes) => Begin(s, id, Counted(bytes))
    case Release(id, bytes) => Begin(s, id, -Counted(bytes))
    case Arrive(k) =>
      s.(root := s.root + s.pending[k].delta, pending := s.pending[..k] + s.pending[k + 1..])
    case Drop(id) => Reap(Set(s, id, s.trackers[id].(holders := s.trackers[id].holders - 1)), id)
    case Gc(log) => Reap(s.(pool := s.pool - {log}), s.pool[log])
  }

  // ---- sums

  function Sum(ts: seq<Tracker>): int
    decreases |ts|
  {
    if ts == [] then 0 else (if ts[0].alive then ts[0].bytes else 0) + Sum(ts[1..])
  }

  function InFlight(ps: seq<Pending>): int
    decreases |ps|
  {
    if ps == [] then 0 else ps[0].delta + InFlight(ps[1..])
  }

  function Share(t: Tracker): int {
    if t.alive then t.bytes else 0
  }

  lemma {:induction false} SumSet(ts: seq<Tracker>, id: nat, t: Tracker)
    requires id < |ts|
    ensures Sum(ts[id := t]) == Sum(ts) - Share(ts[id]) + Share(t)
    decreases |ts|
  {
    if id == 0 {
      assert ts[0 := t][1..] == ts[1..];
    } else {
      assert ts[id := t][1..] == ts[1..][id - 1 := t];
      SumSet(ts[1..], id - 1, t);
    }
  }

  lemma {:induction false} SumPush(ts: seq<Tracker>, t: Tracker)
    ensures Sum(ts + [t]) == Sum(ts) + Share(t)
    decreases |ts|
  {
    if ts != [] {
      assert (ts + [t])[1..] == ts[1..] + [t];
      SumPush(ts[1..], t);
    }
  }

  lemma {:induction false} InFlightConcat(ps: seq<Pending>, qs: seq<Pending>)
    ensures InFlight(ps + qs) == InFlight(ps) + InFlight(qs)
    decreases |ps|
  {
    if ps == [] {
      assert ps + qs == qs;
    } else {
      assert (ps + qs)[1..] == ps[1..] + qs;
      InFlightConcat(ps[1..], qs);
    }
  }

  lemma InFlightRemove(ps: seq<Pending>, k: nat)
    requires k < |ps|
    ensures InFlight(ps[..k] + ps[k + 1..]) == InFlight(ps) - ps[k].delta
  {
    assert ps == ps[..k] + ([ps[k]] + ps[k + 1..]);
    InFlightConcat(ps[..k], [ps[k]] + ps[k + 1..]);
    InFlightConcat([ps[k]], ps[k + 1..]);
    InFlightConcat(ps[..k], ps[k + 1..]);
    assert [ps[k]][1..] == [];
  }

  // ---- conservation

  /** The root counts what the live trackers count, but for updates under way and
      for what dead trackers gave back too much. */
  ghost predicate Balanced(s: State) {
    s.root + InFlight(s.pending) == Sum(s.trackers) - s.over
  }

  ghost predicate Inv(s: State) {
    && PoolOk(s) && Balanced(s)
    && (forall k :: 0 <= k < |s.pending| ==> Usable(s, s.pending[k].id))
    && (forall id :: 0 <= id < |s.trackers| && s.trackers[id].alive && s.trackers[id].holders == 0 ==> Pooled(s, id))
  }

  lemma ReapBalanced(s: State, id: nat)
    requires Balanced(s) && id < |s.trackers|
    ensures Balanced(Reap(s, id))
  {
    SumSet(s.trackers, id, s.trackers[id].(alive := false));
  }

  lemma GetKeeps(s: State, log: int)
    requires Inv(s)
    ensures Inv(DoGet(s, log))
  {
    if log in s.pool {
      var id := s.pool[log];
      SumSet(s.trackers, id, s.trackers[id].(holders := s.trackers[id].holders + 1));
    } else {
      SumPush(s.trackers, Tracker(log, 0, 1, true));
    }
  }

  lemma BeginKeeps(s: State, id: nat, delta: int)
    requires Inv(s) && Usable(s, id)
    ensures Inv(Begin(s, id, delta))
  {
    SumSet(s.trackers, id, s.trackers[id].(bytes := s.trackers[id].bytes + delta));
    InFlightConcat(s.pending, [Pending(id, delta)]);
    assert [Pending(id, delta)][1..] == [];
  }

  lemma ArriveKeeps(s: State, k: nat)
    requires Inv(s) && k < |s.pending|
    ensures Inv(Next(s, Arrive(k)))
  {
    InFlightRemove(s.pending, k);
    var left := s.pending[..k] + s.pending[k + 1..];
    assert forall i :: 0 <= i < |left| ==> left[i] == s.pending[if i < k then i else i + 1];
  }

  lemma DropKeeps(s: State, id: nat)
    requires Inv(s) && Enabled(s, Drop(id))
    ensures Inv(Next(s, Drop(id)))
  {
    var t := s.trackers[id].(holders := s.trackers[id].holders - 1);
    SumSet(s.trackers, id, t);
    ReapBalanced(Set(s, id, t), id);
    var n := Next(s, Drop(id));
    forall k | 0 <= k < |n.pending| ensures Usable(n, n.pending[k].id) {
      assert Usable(s, s.pending[k].id);
    }
  }

  lemma GcKeeps(s: State, log: int)
    requires Inv(s) && log in s.pool
    ensures Inv(Next(s, Gc(log)))
  {
    var mid := s.(pool := s.pool - {log});
    ReapBalanced(mid, s.pool[log]);
    var n := Next(s, Gc(log));
    forall k | 0 <= k < |n.pending| ensures Usable(n, n.pending[k].id) {
      assert Usable(s, s.pending[k].id);
    }
  }

  lemma StepKeeps(s: State, e: Event)
    requires Inv(s)
    ensures Inv(Next(s, e))
  {
    if Enabled(s, e) {
      match e
      case Get(log) => GetKeeps(s, log);
      case Consume(id, bytes) => BeginKeeps(s, id, Counted(bytes));
      case Release(id, bytes) => BeginKeeps(s, id, -Counted(bytes));
      case Arrive(k) => ArriveKeeps(s, k);
      case Drop(id) => DropKeeps(s, id);
      case Gc(log) => GcKeeps(s, log);
    }
  }

  ghost function Run(s: State, events: seq<Event>): State
    requires Inv(s)
    decreases |events|
  {
    if events == [] then s
    else
      StepKeeps(s, events[0]);
      Run(Next(s, events[0]), events[1..])
  }

  lemma {:induction false} RunKeeps(s: State, events: seq<Event>)
    requires Inv(s)
    ensures Inv(Run(s, events))
    decreases |events|
  {
    if events != [] {
      StepKeeps(s, events[0]);
      RunKeeps(Next(s, events[0]), events[1..]);
    }
  }

  /** No update takes a tracker below zero. */
  ghost predicate NeverOver(s: State, events: seq<Event>)
    requires Inv(s)
    decreases |events|
  {
    events == []
    || ((events[0].Release? && Usable(s, events[0].id) ==> Counted(events[0].bytes) <= s.trackers[events[0].id].bytes)
        && (StepKeeps(s, events[0]); NeverOver(Next(s, events[0]), events[1..])))
  }

  ghost predicate AllOwe(s: State) {
    s.over == 0 && forall id :: 0 <= id < |s.trackers| ==> s.trackers[id].bytes >= 0
  }

  lemma NeverOverStep(s: State, e: Event)
    requires Inv(s) && AllOwe(s) && NeverOver(s, [e])
    ensures AllOwe(Next(s, e))
  {
  }

  lemma {:induction false} NeverOverStays(s: State, events: seq<Event>)
    requires Inv(s) && AllOwe(s) && NeverOver(s, events)
    ensures AllOwe(Run(s, events))
    decreases |events|
  {
    if events != [] {
      hide Inv, AllOwe, Next;
      StepKeeps(s, events[0]);
      assert [events[0]][1..] == [] && NeverOver(s, [events[0]]);
      NeverOverStep(s, events[0]);
      NeverOverStays(Next(s, events[0]), events[1..]);
    }
  }

  /** In every interleaving of queries, garbage collection and destruction, the
      root is the sum of the live trackers once updates under way have arrived,
      unless trackers died having released more than they consumed; then it is too
      low by exactly what they released too much. */
  lemma RootIsSum(events: seq<Event>)
    ensures var s := Run(INIT, events);
            && s.root + InFlight(s.pending) == Sum(s.trackers) - s.over
            && (s.pending == [] ==> (s.root == Sum(s.trackers) <==> s.over == 0))
            && (NeverOver(INIT, events) ==> s.root + InFlight(s.pending) == Sum(s.trackers))
  {
    RunKeeps(INIT, events);
    if NeverOver(INIT, events) {
      NeverOverStays(INIT, events);
    }
  }

  // ---- what a tracker counts

  /** What the updates of one tracker add up to; only those of its holders count,
      and only positive amounts. */
  ghost function Taken(s: State, events: seq<Event>, id: nat): int
    requires Inv(s)
    decreases |events|
  {
    if events == [] then 0
    else
      StepKeeps(s, events[0]);
      (match events[0]
       case Consume(i, bytes) => if i == id && Usable(s, id) && bytes > 0 then bytes else 0
       case Release(i, bytes) => if i == id && Usable(s, id) && bytes > 0 then -bytes else 0
       case _ => 0)
      + Taken(Next(s, events[0]), events[1..], id)
  }

  function BytesOf(s: State, id: nat): int {
    if id < |s.trackers| then s.trackers[id].bytes else 0
  }

  lemma StepCounts(s: State, e: Event, id: nat)
    requires Inv(s)
    ensures BytesOf(Next(s, e), id) == BytesOf(s, id) +
            match e
            case Consume(i, bytes) => if i == id && Usable(s, id) && bytes > 0 then bytes else 0
            case Release(i, bytes) => if i == id && Usable(s, id) && bytes > 0 then -bytes else 0
            case _ => 0
  {
  }

  lemma {:induction false} RunCounts(s: State, events: seq<Event>, id: nat)
    requires Inv(s)
    ensures BytesOf(Run(s, events), id) == BytesOf(s, id) + Taken(s, events, id)
    decreases |events|
  {
    if events != [] {
      StepKeeps(s, events[0]);
      StepCounts(s, events[0], id);
      hide Inv, Next, BytesOf, Usable;
      RunCounts(Next(s, events[0]), events[1..], id);
    }
  }

  /** Over any run a tracker holds what was consumed on it less what was released. */
  lemma BytesAreTaken(events: seq<Event>, id: nat)
    ensures BytesOf(Run(INIT, events), id) == Taken(INIT, events, id)
  {
    RunCounts(INIT, events, id);
  }

  /** Whoever queries gets one more hold, and dropping it gives it back. */
  ghost function Held(s: State, events: seq<Event>, id: nat): int
    requires Inv(s)
    decreases |events|
  {
    if events == [] then 0
    else
      StepKeeps(s, events[0]);
      (match events[0]
       case Get(log) => if (if log in s.pool then s.pool[log] == id else |s.trackers| == id) then 1 else 0
       case Drop(i) => if i == id && Enabled(s, Drop(i)) then -1 else 0
       case _ => 0)
      + Held(Next(s, events[0]), events[1..], id)
  }

  function HoldersOf(s: State, id: nat): int {
    if id < |s.trackers| then s.trackers[id].holders else 0
  }

  lemma StepHolds(s: State, e: Event, id: nat)
    requires Inv(s)
    ensures HoldersOf(Next(s, e), id) == HoldersOf(s, id) +
            match e
            case Get(log) => if (if log in s.pool then s.pool[log] == id else |s.trackers| == id) then 1 else 0
            case Drop(i) => if i == id && Enabled(s, Drop(i)) then -1 else 0
            case _ => 0
  {
    hide Balanced;
  }

  lemma {:induction false} RunHolds(s: State, events: seq<Event>, id: nat)
    requires Inv(s)
    ensures HoldersOf(Run(s, events), id) == HoldersOf(s, id) + Held(s, events, id)
    decreases |events|
  {
    if events != [] {
      StepKeeps(s, events[0]);
      StepHolds(s, events[0], id);
      hide Inv, Next, HoldersOf, Enabled;
      RunHolds(Next(s, events[0]), events[1..], id);
    }
  }

  /** Over any run a tracker is held as often as it was handed out and not dropped. */
  lemma HoldersAreHeld(events: seq<Event>, id: nat)
    ensures HoldersOf(Run(INIT, events), id) == Held(INIT, events, id)
  {
    RunHolds(INIT, events, id);
  }

  /** Updates under way arrive, one by one, and then the root is the sum. */
  lemma {:induction false} UpdatesArrive(s: State) returns (events: seq<Event>)
    requires Inv(s)
    ensures var t := Run(s, events);
            t.pending == [] && t.trackers == s.trackers && t.over == s.over && t.root == Sum(s.trackers) - s.over
    decreases |s.pending|
  {
    if s.pending == [] {
      events := [];
    } else {
      StepKeeps(s, Arrive(0));
      var t := Next(s, Arrive(0));
      assert |t.pending| < |s.pending|;
      var rest := UpdatesArrive(t);
      events := [Arrive(0)] + rest;
      assert events[1..] == rest;
    }
  }

  // ---- how long a tracker lives

  ghost predicate LivesAsHeld(s: State) {
    forall id :: 0 <= id < |s.trackers| ==>
      (s.trackers[id].alive <==> s.trackers[id].holders > 0 || Pooled(s, id))
  }

  lemma StepLives(s: State, e: Event)
    requires Inv(s) && LivesAsHeld(s)
    ensures LivesAsHeld(Next(s, e))
  {
    hide Balanced;
  }

  lemma {:induction false} RunLives(s: State, events: seq<Event>)
    requires Inv(s) && LivesAsHeld(s)
    ensures LivesAsHeld(Run(s, events))
    decreases |events|
  {
    if events != [] {
      StepKeeps(s, events[0]);
      StepLives(s, events[0]);
      hide Inv, LivesAsHeld, Next;
      RunLives(Next(s, events[0]), events[1..]);
    }
  }

  /** In every run a tracker lives exactly as long as someone holds it or the pool
      has it, and a query of a log is given the tracker of the pool, or a new one. */
  lemma TrackersLiveAsHeld(events: seq<Event>, log: int)
    ensures var s := Run(INIT, events);
            && LivesAsHeld(s)
            && (forall l :: l in s.pool ==> s.pool[l] < |s.trackers| && s.trackers[s.pool[l]].log == l)
            && var t := Next(s, Get(log));
            && log in t.pool && t.pool == s.pool[log := t.pool[log]]
            && t.pool[log] == (if log in s.pool then s.pool[log] else |s.trackers|)
            && t.trackers[t.pool[log]].alive
            && t.trackers[t.pool[log]].holders == 1 + (if log in s.pool then s.trackers[s.pool[log]].holders else 0)
  {
    RunKeeps(INIT, events);
    RunLives(INIT, events);
    hide Run, LivesAsHeld;
  }

  /** Two live trackers of one log: a query that outlives the collection of its
      tracker, and the next query of the same log. */
  lemma TwoTrackersOneLog(log: int, bytes: int)
    requires bytes > 0
    ensures var s := Run(INIT, [Get(log), Consume(0, bytes), Gc(log), Get(log)]);
            && |s.trackers| == 2 && s.trackers[0].alive && s.trackers[1].alive
            && s.trackers[0].log == s.trackers[1].log == log && s.pool == map[log := 1]
            && Sum(s.trackers) == bytes
  {
    var a, b, c := Get(log), Consume(0, bytes), Gc(log);
    assert [a, b, c, a][1..] == [b, c, a] && [b, c, a][1..] == [c, a] && [c, a][1..] == [a] && [a][1..] == [];
    var s1 := Next(INIT, a);
    assert s1.trackers == [Tracker(log, 0, 1, true)] && s1.pool == map[log := 0];
    StepKeeps(INIT, a);
    var s2 := Next(s1, b);
    assert s2.trackers == [Tracker(log, bytes, 1, true)] && s2.pool == s1.pool;
    StepKeeps(s1, b);
    var s3 := Next(s2, c);
    assert s3.trackers == s2.trackers && s3.pool == map[];
    StepKeeps(s2, c);
    var s4 := Next(s3, a);
    assert s4.trackers == [Tracker(log, bytes, 1, true), Tracker(log, 0, 1, true)];
    StepKeeps(s3, a);
    assert Run(s3, [a]) == s4;
    assert Run(s2, [c, a]) == s4;
    assert Run(s1, [b, c, a]) == s4;
    SumPush([], s4.trackers[0]);
    SumPush([s4.trackers[0]], s4.trackers[1]);
  }
}

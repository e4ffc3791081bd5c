/** A bounded number of concurrent tasks: BthreadCond and ConcurrencyBthread of
    ea/base/bthread.h. Everything done under the mutex is one step; waiting
    threads wake on a signal or for no reason at all. */
module Bthread {
  import opened Wrappers

  function Count<T>(s: seq<T>, p: T -> bool): nat
    decreases |s|
  {
    if s == [] then 0 else (if p(s[0]) then 1 else 0) + Count(s[1..], p)
  }

  lemma {:induction false} CountUpdate<T>(s: seq<T>, p: T -> bool, i: nat, x: T)
    requires i < |s|
    ensures Count(s[i := x], p) == Count(s, p) - (if p(s[i]) then 1 else 0) + (if p(x) then 1 else 0)
    decreases |s|
  {
    if i == 0 {
      assert s[0 := x][1..] == s[1..];
    } else {
      assert s[i := x][1..] == s[1..][i - 1 := x];
      CountUpdate(s[1..], p, i - 1, x);
    }
  }

  lemma {:induction false} CountPush<T>(s: seq<T>, p: T -> bool, x: T)
    ensures Count(s + [x], p) == Count(s, p) + (if p(x) then 1 else 0)
    decreases |s|
  {
    if s != [] {
      assert (s + [x])[1..] == s[1..] + [x];
      CountPush(s[1..], p, x);
    }
  }

  lemma {:induction false} CountNone<T>(s: seq<T>, p: T -> bool)
    ensures Count(s, p) == 0 <==> forall i :: 0 <= i < |s| ==> !p(s[i])
    decreases |s|
  {
    if s != [] {
      CountNone(s[1..], p);
      assert forall i :: 1 <= i < |s| ==> s[i] == s[1..][i - 1];
      assert forall i :: 0 <= i < |s[1..]| ==> s[1..][i] == s[i + 1];
    }
  }

  // ---- the wait loops

  /** One return of bthread_cond_wait: its result, and the count it finds. */
  datatype Wake = Wake(ret: int, count: int)

  class BthreadCond {
    var count: int

    constructor (count: int)
      ensures this.count == count
    {
      this.count := count;
    }

    method Increase()
      modifies this
      ensures count == old(count) + 1
    {
      count := count + 1;
    }

    /** decrease_signal and decrease_broadcast, but for whom they wake. */
    method Decrease()
      modifies this
      ensures count == old(count) - 1
    {
      count := count - 1;
    }

    /** wait: None while it is still waiting after all the given wake-ups. A
        return of 0 means the count found last was no larger than cond. */
    method Wait(cond: int, wakes: seq<Wake>) returns (ret: Option<int>)
      modifies this
      ensures ret == Some(0) ==> count <= cond
      ensures ret.Some? && ret.value != 0 ==> exists k :: 0 <= k < |wakes| && wakes[k] == Wake(ret.value, count)
      ensures ret.None? ==> count > cond && forall k :: 0 <= k < |wakes| ==> wakes[k].ret == 0 && wakes[k].count > cond
    {
      for k := 0 to |wakes|
        invariant forall j :: 0 <= j < k ==> wakes[j].ret == 0
        invariant forall j :: 0 <= j < k - 1 ==> wakes[j].count > cond
        invariant k > 0 ==> count == wakes[k - 1].count
      {
        if count <= cond {
          return Some(0);
        }
        count := wakes[k].count;
        if wakes[k].ret != 0 {
          return Some(wakes[k].ret);
        }
      }
      ret := if count <= cond then Some(0) else None;
    }

    /** increase_wait: as wait, and then one more. */
    method IncreaseWait(cond: int, wakes: seq<Wake>) returns (ret: Option<int>)
      modifies this
      ensures ret == Some(0) ==> count <= cond
      ensures ret.Some? && ret.value != 0 ==> exists k :: 0 <= k < |wakes| && wakes[k] == Wake(ret.value, count - 1)
      ensures ret.None? ==> count + 1 > cond && forall k :: 0 <= k < |wakes| ==> wakes[k].ret == 0 && wakes[k].count + 1 > cond
    {
      ret := Wait(cond - 1, wakes);
      if ret.Some? {
        count := count + 1;
      }
    }
  }

  // ---- run and join as steps of many threads

  datatype Phase =
    | Idle
    | Checking(join: bool)
    | Waiting(join: bool)
    | Starting(task: nat)

  /** Lost: counted, but its bthread could not be started. */
  datatype Task = Admitted | Running | Called | Finished | Lost

  /** forced: run calls let in by a wait that failed; joins: how many tasks were
      unfinished each time join came back from a wait that did not fail. */
  datatype State = State(count: int, threads: seq<Phase>, tasks: seq<Task>, forced: nat, joins: seq<nat>)

  datatype Event =
    | Call(t: nat, join: bool)
    | Check(t: nat)
    | BreakWait(t: nat)
    | Start(t: nat, ok: bool)
    | Work(k: nat)
    | Decrease(k: nat, woken: nat)
    | Spurious(t: nat)

  const UNFINISHED := (k: Task) => !k.Finished? && !k.Lost?
  const LOST := (k: Task) => k.Lost?
  const RUN_CHECKING := (p: Phase) => p.Checking? && !p.join

  function Init(threads: nat): State {
    State(0, seq(threads, _ => Idle), [], 0, [])
  }

  function At(s: State, t: nat): Phase {
    if t < |s.threads| then s.threads[t] else Idle
  }

  predicate AnyWaiting(s: State) {
    exists t :: 0 <= t < |s.threads| && s.threads[t].Waiting?
  }

  /** A signal wakes a waiting thread, whichever, if there is one. */
  predicate Enabled(s: State, e: Event) {
    match e
    case Call(t, _) => t < |s.threads| && s.threads[t].Idle?
    case Check(t) => t < |s.threads| && s.threads[t].Checking?
    case BreakWait(t) => t < |s.threads| && s.threads[t].Waiting?
    case Start(t, _) =>
      && t < |s.threads| && s.threads[t].Starting?
      && s.threads[t].task < |s.tasks| && s.tasks[s.threads[t].task].Admitted?
    case Work(k) => k < |s.tasks| && s.tasks[k].Running?
    case Decrease(k, woken) => k < |s.tasks| && s.tasks[k].Called? && (AnyWaiting(s) ==> At(s, woken).Waiting?)
    case Spurious(t) => t < |s.threads| && s.threads[t].Waiting?
  }

  function Admit(s: State, t: nat): State
    requires t < |s.threads|
  {
    s.(count := s.count + 1, tasks := s.tasks + [Admitted], threads := s.threads[t := Starting(|s.tasks|)])
  }

  function DoCheck(s: State, t: nat, limit: int): State
    requires t < |s.threads| && s.threads[t].Checking?
  {
    if s.threads[t].join then
      if s.count > 0 then s.(threads := s.threads[t := Waiting(true)])
      else s.(threads := s.threads[t := Idle], joins := s.joins + [Count(s.tasks, UNFINISHED)])
    else
      if s.count + 1 > limit then s.(threads := s.threads[t := Waiting(false)])
      else Admit(s, t)
  }

  function Next(s: State, e: Event, limit: int): State {
    if !Enabled(s, e) then s else
    match e
    case Call(t, join) => s.(threads := s.threads[t := Checking(join)])
    case Check(t) => DoCheck(s, t, limit)
    case BreakWait(t) =>
      if s.threads[t].join then s.(threads := s.threads[t := Idle])
      else Admit(s, t).(forced := s.forced + 1)
    case Start(t, ok) =>
      s.(threads := s.threads[t := Idle], tasks := s.tasks[s.threads[t].task := if ok then Running else Lost])
    case Work(k) => s.(tasks := s.tasks[k := Called])
    case Decrease(k, woken) =>
      s.(count := s.count - 1, tasks := s.tasks[k := Finished],
         threads := if AnyWaiting(s) then s.threads[woken := Checking(At(s, woken).join)] else s.threads)
    case Spurious(t) => s.(threads := s.threads[t := Checking(s.threads[t].join)])
  }

  function Run(s: State, events: seq<Event>, limit: int): State
    decreases |events|
  {
    if events == [] then s else Run(Next(s, events[0], limit), events[1..], limit)
  }

  /** What each step does to the thread, the task and the count it is about. A wait
      that fails lets a run call in all the same and ends a join; a spurious wake-up
      sends the thread back to check; a signal wakes a waiting thread if there is one. */
  lemma StepDoes(s: State, e: Event, limit: int)
    requires Enabled(s, e)
    ensures var t := Next(s, e, limit);
            match e
            case Call(i, join) => t == s.(threads := s.threads[i := Checking(join)])
            case Check(i) =>
              if s.threads[i].join then
                if s.count > 0 then t == s.(threads := s.threads[i := Waiting(true)])
                else t.threads == s.threads[i := Idle] && |t.joins| == |s.joins| + 1 && t.tasks == s.tasks && t.count == s.count
              else if s.count < limit then
                t.count == s.count + 1 && t.tasks == s.tasks + [Admitted] && t.threads == s.threads[i := Starting(|s.tasks|)]
              else t == s.(threads := s.threads[i := Waiting(false)])
            case BreakWait(i) =>
              if s.threads[i].join then t == s.(threads := s.threads[i := Idle])
              else t == State(s.count + 1, s.threads[i := Starting(|s.tasks|)], s.tasks + [Admitted], s.forced + 1, s.joins)
            case Start(i, ok) =>
              t == s.(threads := s.threads[i := Idle], tasks := s.tasks[s.threads[i].task := if ok then Running else Lost])
            case Work(k) => t == s.(tasks := s.tasks[k := Called])
            case Decrease(k, woken) =>
              && t.count == s.count - 1 && t.tasks == s.tasks[k := Finished]
              && ((exists i :: 0 <= i < |s.threads| && s.threads[i].Waiting?) ==>
                    woken < |s.threads| && s.threads[woken].Waiting?
                    && t.threads == s.threads[woken := Checking(s.threads[woken].join)])
              && ((forall i :: 0 <= i < |s.threads| ==> !s.threads[i].Waiting?) ==> t.threads == s.threads)
            case Spurious(i) => t == s.(threads := s.threads[i := Checking(s.threads[i].join)])
  {
  }

  // ---- the count is the number of unfinished tasks

  ghost predicate Inv(s: State, limit: int) {
    && s.count == Count(s.tasks, UNFINISHED) + Count(s.tasks, LOST)
    && s.count <= (if limit > 0 then limit else 0) + s.forced
    && (forall i :: 0 <= i < |s.joins| ==> s.joins[i] == 0)
  }

  lemma StepInv(s: State, e: Event, limit: int)
    requires Inv(s, limit)
    ensures Inv(Next(s, e, limit), limit)
  {
    if Enabled(s, e) {
      CountPush(s.tasks, UNFINISHED, Admitted);
      CountPush(s.tasks, LOST, Admitted);
      match e
      case Start(t, ok) =>
        var k := s.threads[t].task;
        CountUpdate(s.tasks, UNFINISHED, k, if ok then Running else Lost);
        CountUpdate(s.tasks, LOST, k, if ok then Running else Lost);
      case Work(k) =>
        CountUpdate(s.tasks, UNFINISHED, k, Called);
        CountUpdate(s.tasks, LOST, k, Called);
      case Decrease(k, _) =>
        CountUpdate(s.tasks, UNFINISHED, k, Finished);
        CountUpdate(s.tasks, LOST, k, Finished);
      case _ =>
    }
  }

  lemma {:induction false} RunInv(s: State, events: seq<Event>, limit: int)
    requires Inv(s, limit)
    ensures Inv(Run(s, events, limit), limit)
    decreases |events|
  {
    if events != [] {
      StepInv(s, events[0], limit);
      RunInv(Next(s, events[0], limit), events[1..], limit);
    }
  }

  /** In every interleaving: the count is the number of tasks let in and not
      finished, failed thread starts included; it exceeds the limit only by failed
      waits; and join only ever comes back when no task is unfinished. */
  lemma CountIsUnfinished(threads: nat, events: seq<Event>, limit: int)
    ensures var s := Run(Init(threads), events, limit);
            && s.count == Count(s.tasks, UNFINISHED) + Count(s.tasks, LOST)
            && s.count <= (if limit > 0 then limit else 0) + s.forced
            && (forall i :: 0 <= i < |s.joins| ==> s.joins[i] == 0)
  {
    RunInv(Init(threads), events, limit);
  }

  predicate NothingFails(e: Event) {
    !e.BreakWait? && (e.Start? ==> e.ok)
  }

  lemma {:induction false} NothingLost(s: State, events: seq<Event>, limit: int)
    requires s.forced == 0 && Count(s.tasks, LOST) == 0
    requires forall k :: 0 <= k < |events| ==> NothingFails(events[k])
    ensures Run(s, events, limit).forced == 0 && Count(Run(s, events, limit).tasks, LOST) == 0
    decreases |events|
  {
    if events != [] {
      var e := events[0];
      if Enabled(s, e) {
        CountPush(s.tasks, LOST, Admitted);
        match e
        case Start(t, ok) => CountUpdate(s.tasks, LOST, s.threads[t].task, Running);
        case Work(k) => CountUpdate(s.tasks, LOST, k, Called);
        case Decrease(k, _) => CountUpdate(s.tasks, LOST, k, Finished);
        case _ =>
      }
      NothingLost(Next(s, e, limit), events[1..], limit);
    }
  }

  /** While no wait and no thread start fails, at most limit tasks are unfinished. */
  lemma NeverAboveLimit(threads: nat, events: seq<Event>, limit: int)
    requires limit >= 0 && forall k :: 0 <= k < |events| ==> NothingFails(events[k])
    ensures var s := Run(Init(threads), events, limit);
            s.count == Count(s.tasks, UNFINISHED) <= limit
  {
    RunInv(Init(threads), events, limit);
    NothingLost(Init(threads), events, limit);
  }

  // ---- signals that reach nobody who can use them

  /** Some run call waits. */
  predicate RunWaits(s: State) {
    exists t :: 0 <= t < |s.threads| && s.threads[t] == Waiting(false)
  }

  /** Every slot that waiting run calls could have is in use or on its way to one. */
  predicate SlotsTaken(s: State, limit: int) {
    RunWaits(s) ==> s.count + Count(s.threads, RUN_CHECKING) >= limit
  }

  /** The signal goes to a join although a run call waits, and the run calls on
      their way to check do not make up for the slot that becomes free. */
  predicate StealsSlot(s: State, e: Event, limit: int) {
    && e.Decrease? && Enabled(s, e) && At(s, e.woken) == Waiting(true)
    && RunWaits(s) && s.count - 1 + Count(s.threads, RUN_CHECKING) < limit
  }

  lemma RunWaitsAt(s: State, t: nat)
    requires t < |s.threads| && s.threads[t] == Waiting(false)
    ensures RunWaits(s)
  {
  }

  /** A run call that waits after a step waited before it, or just found all slots taken. */
  lemma OthersKeepWaiting(s: State, e: Event, limit: int)
    requires Enabled(s, e)
    ensures RunWaits(Next(s, e, limit)) ==>
              RunWaits(s) || (e.Check? && !s.threads[e.t].join && s.count + 1 > limit)
  {
    var t := Next(s, e, limit);
    if RunWaits(t) {
      var i :| 0 <= i < |t.threads| && t.threads[i] == Waiting(false);
      if s.threads[i] == Waiting(false) {
        RunWaitsAt(s, i);
      }
    }
  }

  /** Who waits and is not woken goes on waiting. */
  lemma StaysWaiting(s: State, k: nat, woken: nat, limit: int)
    requires Enabled(s, Event.Decrease(k, woken)) && RunWaits(s) && At(s, woken) != Waiting(false)
    ensures RunWaits(Next(s, Event.Decrease(k, woken), limit))
  {
    var i :| 0 <= i < |s.threads| && s.threads[i] == Waiting(false);
    RunWaitsAt(Next(s, Event.Decrease(k, woken), limit), i);
  }

  /** A step loses a slot for the run calls that wait exactly if it steals it. */
  lemma StepSlots(s: State, e: Event, limit: int)
    requires SlotsTaken(s, limit)
    ensures SlotsTaken(Next(s, e, limit), limit) <==> !StealsSlot(s, e, limit)
  {
    if Enabled(s, e) {
      var t := Next(s, e, limit);
      OthersKeepWaiting(s, e, limit);
      match e
      case Call(i, j) => CountUpdate(s.threads, RUN_CHECKING, i, Checking(j));
      case Check(i) => CountUpdate(s.threads, RUN_CHECKING, i, t.threads[i]);
      case BreakWait(i) => CountUpdate(s.threads, RUN_CHECKING, i, t.threads[i]);
      case Start(i, _) => CountUpdate(s.threads, RUN_CHECKING, i, Idle);
      case Work(_) =>
      case Decrease(k, woken) =>
        if AnyWaiting(s) {
          CountUpdate(s.threads, RUN_CHECKING, woken, Checking(At(s, woken).join));
          if RunWaits(s) && At(s, woken).join {
            StaysWaiting(s, k, woken, limit);
          }
        } else if RunWaits(s) {
          WaitsIsWaiting(s);
        }
      case Spurious(i) => CountUpdate(s.threads, RUN_CHECKING, i, Checking(s.threads[i].join));
    }
  }

  lemma WaitsIsWaiting(s: State)
    requires RunWaits(s)
    ensures AnyWaiting(s)
  {
    var i :| 0 <= i < |s.threads| && s.threads[i] == Waiting(false);
    assert s.threads[i].Waiting?;
  }

  /** A thread inside increase_wait, or inside the wait of a join. */
  predicate Inside(p: Phase, join: bool) {
    (p.Checking? || p.Waiting?) && p.join == join
  }

  predicate AnyInside(s: State, join: bool) {
    exists t :: 0 <= t < |s.threads| && Inside(s.threads[t], join)
  }

  /** No join is called while a run call is inside increase_wait, and no run while
      a join waits. */
  predicate Disciplined(s: State, e: Event) {
    e.Call? ==> !AnyInside(s, !e.join)
  }

  predicate DisciplinedRun(s: State, events: seq<Event>, limit: int)
    decreases |events|
  {
    events == [] || (Disciplined(s, events[0]) && DisciplinedRun(Next(s, events[0], limit), events[1..], limit))
  }

  /** Run calls and joins are never inside together. */
  predicate Exclusive(s: State) {
    !(AnyInside(s, true) && AnyInside(s, false))
  }

  lemma InsideBefore(s: State, e: Event, limit: int, join: bool)
    requires AnyInside(Next(s, e, limit), join)
    ensures AnyInside(s, join) || (e.Call? && e.join == join)
  {
    if Enabled(s, e) {
      var t := Next(s, e, limit);
      var i :| 0 <= i < |t.threads| && Inside(t.threads[i], join);
      assert Inside(s.threads[i], join) || e.Call?;
    }
  }

  lemma StepExclusive(s: State, e: Event, limit: int)
    requires Exclusive(s) && Disciplined(s, e)
    ensures Exclusive(Next(s, e, limit))
  {
    var t := Next(s, e, limit);
    if AnyInside(t, true) && AnyInside(t, false) {
      InsideBefore(s, e, limit, true);
      InsideBefore(s, e, limit, false);
    }
  }

  lemma ExclusiveDoesNotSteal(s: State, e: Event, limit: int)
    requires Exclusive(s)
    ensures !StealsSlot(s, e, limit)
  {
    if StealsSlot(s, e, limit) {
      assert Inside(s.threads[e.woken], true);
      RunWaitsInside(s);
    }
  }

  lemma RunWaitsInside(s: State)
    requires RunWaits(s)
    ensures AnyInside(s, false)
  {
    var i :| 0 <= i < |s.threads| && s.threads[i] == Waiting(false);
    assert Inside(s.threads[i], false);
  }

  lemma {:induction false} RunSlots(s: State, events: seq<Event>, limit: int)
    requires Exclusive(s) && SlotsTaken(s, limit) && DisciplinedRun(s, events, limit)
    ensures Exclusive(Run(s, events, limit)) && SlotsTaken(Run(s, events, limit), limit)
    decreases |events|
  {
    if events != [] {
      ExclusiveDoesNotSteal(s, events[0], limit);
      StepSlots(s, events[0], limit);
      StepExclusive(s, events[0], limit);
      hide Next, Exclusive, SlotsTaken, Disciplined;
      RunSlots(Next(s, events[0], limit), events[1..], limit);
    }
  }

  /** When run calls and joins keep out of each other's way, as in run, ..., run,
      join, no wake-up of a run call is lost: if one waits and none is on its way
      to check, all slots are in use. */
  lemma NoLostWakeup(threads: nat, events: seq<Event>, limit: int)
    requires DisciplinedRun(Init(threads), events, limit)
    ensures var s := Run(Init(threads), events, limit);
            && SlotsTaken(s, limit)
            && (RunWaits(s) && (forall t :: 0 <= t < |s.threads| ==> s.threads[t] != Checking(false)) ==> s.count >= limit)
  {
    RunSlots(Init(threads), events, limit);
    var s := Run(Init(threads), events, limit);
    CountNone(s.threads, RUN_CHECKING);
  }

  // ---- joins that wait

  predicate JoinWaits(s: State) {
    exists t :: 0 <= t < |s.threads| && s.threads[t] == Waiting(true)
  }

  predicate JoinChecks(s: State) {
    exists t :: 0 <= t < |s.threads| && s.threads[t] == Checking(true)
  }

  /** A join waits only while a task is counted or a join is about to look. */
  predicate JoinInTime(s: State) {
    JoinWaits(s) ==> s.count > 0 || JoinChecks(s)
  }

  /** At most one thread at a time is inside a join. */
  predicate OneJoin(s: State) {
    forall t, u :: 0 <= t < |s.threads| && 0 <= u < |s.threads| && Inside(s.threads[t], true) && Inside(s.threads[u], true)
      ==> t == u
  }

  predicate OneJoinRun(s: State, events: seq<Event>, limit: int)
    decreases |events|
  {
    events == []
    || (Disciplined(s, events[0]) && (events[0].Call? && events[0].join ==> !AnyInside(s, true))
        && OneJoinRun(Next(s, events[0], limit), events[1..], limit))
  }

  /** Alone at the condition, a join gets every signal. */
  lemma StepJoin(s: State, e: Event, limit: int)
    requires Exclusive(s) && OneJoin(s) && JoinInTime(s)
    requires Disciplined(s, e) && (e.Call? && e.join ==> !AnyInside(s, true))
    ensures OneJoin(Next(s, e, limit)) && JoinInTime(Next(s, e, limit))
  {
    var n := Next(s, e, limit);
    forall t, u | 0 <= t < |n.threads| && 0 <= u < |n.threads| && Inside(n.threads[t], true) && Inside(n.threads[u], true)
      ensures t == u
    {
      assert |n.threads| == |s.threads|;
      assert Inside(s.threads[t], true) || (e.Call? && e.t == t);
      assert Inside(s.threads[u], true) || (e.Call? && e.t == u);
    }
    if e.Decrease? && Enabled(s, e) {
      SignalGetsThere(s, e.k, e.woken, limit);
    } else if JoinWaits(n) && Enabled(s, e) {
      JoinStays(s, e, limit);
    }
  }

  lemma SignalGetsThere(s: State, k: nat, woken: nat, limit: int)
    requires Exclusive(s) && OneJoin(s) && Enabled(s, Event.Decrease(k, woken))
    ensures !JoinWaits(Next(s, Event.Decrease(k, woken), limit))
  {
    var n := Next(s, Event.Decrease(k, woken), limit);
    forall i | 0 <= i < |n.threads| ensures n.threads[i] != Waiting(true) {
      assert s.threads[i] == Waiting(true) ==> s.threads[i].Waiting? && Inside(s.threads[i], true);
      assert s.threads[i] == Waiting(true) ==> Inside(s.threads[woken], s.threads[woken].join);
    }
  }

  lemma JoinStays(s: State, e: Event, limit: int)
    requires OneJoin(s) && JoinInTime(s) && Enabled(s, e) && !e.Decrease? && JoinWaits(Next(s, e, limit))
    ensures Next(s, e, limit).count > 0 || JoinChecks(Next(s, e, limit))
  {
    var n := Next(s, e, limit);
    var i :| 0 <= i < |n.threads| && n.threads[i] == Waiting(true);
    if s.threads[i] == Waiting(true) {
      assert Inside(s.threads[i], true);
      if s.count <= 0 {
        var j :| 0 <= j < |s.threads| && s.threads[j] == Checking(true);
        assert Inside(s.threads[j], true);
      }
    }
  }

  lemma {:induction false} RunJoin(s: State, events: seq<Event>, limit: int)
    requires Exclusive(s) && OneJoin(s) && JoinInTime(s) && OneJoinRun(s, events, limit)
    ensures JoinInTime(Run(s, events, limit))
    decreases |events|
  {
    if events != [] {
      StepExclusive(s, events[0], limit);
      StepJoin(s, events[0], limit);
      hide Next, Exclusive, OneJoin, JoinInTime, Disciplined;
      RunJoin(Next(s, events[0], limit), events[1..], limit);
    }
  }

  /** And with one join at a time a join is never forgotten: it waits only while
      some task has still to signal. */
  lemma NoLostJoin(threads: nat, events: seq<Event>, limit: int)
    requires OneJoinRun(Init(threads), events, limit)
    ensures JoinInTime(Run(Init(threads), events, limit))
  {
    RunJoin(Init(threads), events, limit);
  }

  /** With limit 1, a running task, one waiting run call and one waiting join. */
  function Crowded(): State {
    State(1, [Waiting(false), Waiting(true), Idle], [Called], 0, [])
  }

  function OneCalled(): State {
    State(1, [Idle, Idle, Idle], [Called], 0, [])
  }

  lemma OneCalledIsReachable()
    ensures OneCalled() == Run(Init(3), [Call(2, false), Check(2), Start(2, true), Work(0)], 1)
  {
    var s0 := Init(3);
    assert s0.threads == [Idle, Idle, Idle];
    RunFour(s0, Call(2, false), Check(2), Start(2, true), Work(0), 1);
    var s1 := Next(s0, Call(2, false), 1);
    assert s1 == State(0, [Idle, Idle, Checking(false)], [], 0, []);
    var s2 := Next(s1, Check(2), 1);
    assert s2 == State(1, [Idle, Idle, Starting(0)], [Admitted], 0, []);
    var s3 := Next(s2, Start(2, true), 1);
    assert s3 == State(1, [Idle, Idle, Idle], [Running], 0, []);
  }

  lemma CrowdedIsReachable()
    ensures Crowded() == Run(Run(Init(3), [Call(2, false), Check(2), Start(2, true), Work(0)], 1),
                             [Call(0, false), Check(0), Call(1, true), Check(1)], 1)
  {
    OneCalledIsReachable();
    var s4 := OneCalled();
    RunFour(s4, Call(0, false), Check(0), Call(1, true), Check(1), 1);
    var s5 := Next(s4, Call(0, false), 1);
    assert s5 == State(1, [Checking(false), Idle, Idle], [Called], 0, []);
    var s6 := Next(s5, Check(0), 1);
    assert s6 == State(1, [Waiting(false), Idle, Idle], [Called], 0, []);
    var s7 := Next(s6, Call(1, true), 1);
    assert s7 == State(1, [Waiting(false), Checking(true), Idle], [Called], 0, []);
  }

  /** From there the one signal may go to the join, which returns; the run call
      then waits with the slot free, no task left, and no signal to come. */
  lemma JoinTakesTheSignal()
    ensures StealsSlot(Crowded(), Event.Decrease(0, 1), 1)
    ensures var s := Run(Crowded(), [Event.Decrease(0, 1), Check(1)], 1);
            && s.threads == [Waiting(false), Idle, Idle] && s.count == 0 && s.tasks == [Finished] && s.joins == [0]
  {
    var c := Crowded();
    assert c.threads[0].Waiting?;
    RunPair(c, Event.Decrease(0, 1), Check(1), 1);
    var d := Next(c, Event.Decrease(0, 1), 1);
    assert d == State(0, [Waiting(false), Checking(true), Idle], [Finished], 0, []);
    CountNone(d.tasks, UNFINISHED);
    assert Next(d, Check(1), 1) == State(0, [Waiting(false), Idle, Idle], [Finished], 0, [0]);
  }

  function TwoJoins(): State {
    State(1, [Waiting(true), Waiting(true), Idle], [Called], 0, [])
  }

  /** Two joins at a time: decrease_signal wakes one of them, and the other waits on
      with nothing left to signal it. */
  lemma SecondJoinIsForgotten()
    ensures TwoJoins() == Run(Run(Init(3), [Call(2, false), Check(2), Start(2, true), Work(0)], 1),
                              [Call(0, true), Check(0), Call(1, true), Check(1)], 1)
    ensures var s := Run(TwoJoins(), [Event.Decrease(0, 1), Check(1)], 1);
            s.threads == [Waiting(true), Idle, Idle] && s.count == 0 && s.tasks == [Finished] && !JoinInTime(s)
  {
    OneCalledIsReachable();
    RunFour(OneCalled(), Call(0, true), Check(0), Call(1, true), Check(1), 1);
    var s1 := Next(OneCalled(), Call(0, true), 1);
    assert s1 == State(1, [Checking(true), Idle, Idle], [Called], 0, []);
    var s2 := Next(s1, Check(0), 1);
    assert s2 == State(1, [Waiting(true), Idle, Idle], [Called], 0, []);
    var s3 := Next(s2, Call(1, true), 1);
    assert s3 == State(1, [Waiting(true), Checking(true), Idle], [Called], 0, []);
    var c := TwoJoins();
    assert c.threads[0].Waiting?;
    RunPair(c, Event.Decrease(0, 1), Check(1), 1);
    var d := Next(c, Event.Decrease(0, 1), 1);
    assert d == State(0, [Waiting(true), Checking(true), Idle], [Finished], 0, []);
    var e := Next(d, Check(1), 1);
    assert e.threads == [Waiting(true), Idle, Idle] && e.threads[0] == Waiting(true);
  }

  lemma RunPair(s: State, a: Event, b: Event, limit: int)
    ensures Run(s, [a, b], limit) == Next(Next(s, a, limit), b, limit)
  {
    hide Next;
    assert [a, b][1..] == [b] && [b][1..] == [];
    assert Run(Next(s, a, limit), [b], limit) == Next(Next(s, a, limit), b, limit);
  }

  lemma RunCons(s: State, a: Event, rest: seq<Event>, limit: int)
    ensures Run(s, [a] + rest, limit) == Run(Next(s, a, limit), rest, limit)
  {
    assert ([a] + rest)[1..] == rest;
  }

  lemma RunFour(s: State, a: Event, b: Event, c: Event, d: Event, limit: int)
    ensures Run(s, [a, b, c, d], limit) == Next(Next(Next(Next(s, a, limit), b, limit), c, limit), d, limit)
  {
    hide Next;
    assert [a, b, c, d] == [a] + ([b] + [c, d]);
    RunCons(s, a, [b] + [c, d], limit);
    RunCons(Next(s, a, limit), b, [c, d], limit);
    RunPair(Next(Next(s, a, limit), b, limit), c, d, limit);
  }

  /** And there it stays: until somebody calls run or join anew, or the wait ends
      without a signal, no step whatsoever changes anything. */
  lemma NothingMoves(s: State, e: Event, limit: int)
    requires s.threads == [Waiting(false), Idle, Idle] && s.tasks == [Finished]
    requires !e.Call? && !e.Spurious? && !e.BreakWait?
    ensures Next(s, e, limit) == s
  {
  }
}

/** The ranges that the timestamp oracle hands out never overlap: the hypotheses
    on clocks, counts and late calls, the invariant, and the theorems over runs. */
module TsoOrder {
  import opened Wrappers
  import opened Words
  import opened Tso
  import opened TsoSystem
  import opened TsoAgreement

  /** b was issued after a: in one leadership it starts where a ended or later;
      across leaderships the physical parts keep the order of the leaderships. */
  predicate InOrder(a: Grant, b: Grant) {
    if a.epoch == b.epoch then
      a.start.physical < b.start.physical
      || (a.start.physical == b.start.physical && a.start.logical + a.count <= b.start.logical)
    else if a.epoch < b.epoch then a.start.physical < b.start.physical
    else b.start.physical < a.start.physical
  }

  predicate Ordered(issued: seq<Grant>) {
    forall i, j :: 0 <= i < j < |issued| ==> InOrder(issued[i], issued[j])
  }

  /** What a leader can first issue from. At physical part 0 it issues nothing,
      and the timer moves it to 2 or later. */
  function First(physical: int): int {
    if physical == 0 then 2 else physical
  }

  /** The leader is below p and stays there, whatever it may still apply. */
  predicate BoundedBy(log: seq<Entry>, x: Replica, p: int) {
    x.obj.current.physical < p && (Outstanding(log, x) ==> log[x.applied].update.current.physical < p)
  }

  /** The timer moves away from the current physical part. It fails to exactly
      when it reads a clock one millisecond behind while more than half of the
      logical part is used up: the update then repeats the physical part. */
  predicate TimerClockOk(x: Replica, now: int) {
    Leads(x) ==> !(now == x.obj.current.physical - 1 && x.obj.current.logical > MAX_LOGICAL / 2)
  }

  /** A start that trusts its clock reads one above everything issued, above
      every leader that may still issue, and above what such a leader proposed
      and has not applied. A clock at 0 counts as 2; one below 0 is refused. */
  predicate StartClockOk(s: System, r: nat, now: int)
    requires r < |s.replicas|
  {
    var x := s.replicas[r];
    || PastWindow(x.obj.lastSave, now)
    || !x.healthy
    || !Accepts(x.obj, StartProposal(x.obj.lastSave, now))
    || ((forall k :: 0 <= k < |s.issued| ==> s.issued[k].start.physical < First(now))
        && (forall q :: 0 <= q < |s.replicas| && Leads(s.replicas[q]) ==>
              BoundedBy(s.log, s.replicas[q], First(now))))
  }

  /** The least physical part from which x can still issue, if it ever can: its own,
      or, at 0, that of its entry, or that of the first proposal of its timer. */
  function Least(s: System, x: Replica): Option<int> {
    if x.obj.current.physical != 0 then Some(x.obj.current.physical)
    else if Outstanding(s.log, x) then Some(s.log[x.applied].update.current.physical)
    else if x.epoch == s.epoch && x.applied == |s.log| then Some(2)
    else None
  }

  /** What leader x issues next comes after g, or before it if g is of a later leadership. */
  predicate Apart(s: System, x: Replica, g: Grant) {
    if g.epoch > x.epoch then
      x.obj.current.physical < g.start.physical
    else
      Least(s, x).Some? ==> InOrder(g, Grant(x.epoch, Timestamp(Least(s, x).value, x.obj.current.logical), 1))
  }

  /** x keeps its distance from g, whatever it may still apply. */
  predicate Clear(s: System, x: Replica, g: Grant) {
    Apart(s, x, g) && (g.epoch > x.epoch ==> BoundedBy(s.log, x, g.start.physical))
  }

  /** A call that has outlived its leadership can take what its replica now holds:
      nothing issued and no leader is in the way. */
  predicate Harmless(s: System, g: Grant) {
    && (forall k :: 0 <= k < |s.issued| ==> InOrder(s.issued[k], g))
    && (forall q :: 0 <= q < |s.replicas| && Leads(s.replicas[q]) ==> Clear(s, s.replicas[q], g))
  }

  /** An attempt that takes its range is for a positive count, does not overflow,
      and either its replica still leads or it is in nobody's way. */
  predicate AttemptOk(s: System, c: Call)
    requires c.r < |s.replicas|
  {
    var x := s.replicas[c.r];
    CanTake(x.obj, c.count) ==>
      && c.count > 0
      && x.obj.current.logical + c.count < INT64_END
      && (Leads(x) || Harmless(s, GrantOf(s, c)))
  }

  predicate Good(s: System, ev: Event) {
    Enabled(s, ev) ==>
      match ev
      case LeaderStart(r, now, committed) => committed ==> StartClockOk(s, r, now)
      case Timer(r, now) => TimerClockOk(s.replicas[r], now)
      case Attempt(k) => AttemptOk(s, s.calls[k])
      case _ => true
  }

  predicate GoodRun(s: System, events: seq<Event>)
    decreases |events|
  {
    events == [] || (Good(s, events[0]) && GoodRun(Next(s, events[0]), events[1..]))
  }

  /** A range holds timestamps, and all of them belong to its millisecond. */
  predicate Fits(g: Grant) {
    g.count > 0 && 0 <= g.start.logical && g.start.logical + g.count < MAX_LOGICAL
  }

  predicate GrantOk(g: Grant, epoch: nat) {
    0 < g.epoch <= epoch && g.start.physical > 0 && Fits(g)
  }

  /** The entry moves x to another physical part, the first time to 2 or later. */
  predicate Moves(x: Replica, u: Update) {
    u.current.physical != x.obj.current.physical
    && (x.obj.current.physical == 0 ==> u.current.physical >= 2)
  }

  /** A leader has at most one entry left to apply, which moves it and keeps it
      below the ranges of later leaderships. */
  ghost predicate EntriesOk(s: System, x: Replica) {
    && (forall i :: x.applied < i < |s.log| ==> s.log[i].epoch > x.epoch)
    && (Outstanding(s.log, x) ==>
          && Moves(x, s.log[x.applied].update)
          && forall k :: 0 <= k < |s.issued| && s.issued[k].epoch > x.epoch ==>
               s.log[x.applied].update.current.physical < s.issued[k].start.physical)
  }

  /** The leader in office has at most one entry on its way. */
  predicate InFlight(s: System, x: Replica) {
    && |s.log| <= x.applied + (if s.pending.Some? then 0 else 1)
    && (s.pending.Some? ==> Moves(x, s.pending.value.update))
  }

  predicate Issued(issued: seq<Grant>, physical: int) {
    exists k :: 0 <= k < |issued| && issued[k].start.physical == physical
  }

  ghost predicate LeaderOk(s: System, x: Replica) {
    && (forall k :: 0 <= k < |s.issued| ==> Apart(s, x, s.issued[k]))
    && EntriesOk(s, x)
    && (x.epoch == s.epoch ==> InFlight(s, x))
    && (x.obj.current.logical > 0 ==> Issued(s.issued, x.obj.current.physical))
  }

  ghost predicate RangesOk(issued: seq<Grant>, epoch: nat) {
    && (forall k :: 0 <= k < |issued| ==> GrantOk(issued[k], epoch))
    && Ordered(issued)
  }

  /** No leadership is held twice. */
  predicate EpochsOk(replicas: seq<Replica>, epoch: nat) {
    && (forall r :: 0 <= r < |replicas| ==> replicas[r].epoch <= epoch && LogicalOk(replicas[r].obj.current))
    && (forall a, b :: 0 <= a < |replicas| && 0 <= b < |replicas| && a != b && replicas[a].epoch > 0
          ==> replicas[a].epoch != replicas[b].epoch)
  }

  /** A call that may still be answered was let in by a leadership of its own replica. */
  predicate CallsOk(calls: seq<Call>, replicas: seq<Replica>, epoch: nat) {
    forall k :: 0 <= k < |calls| && calls[k].left > 0 ==>
      && calls[k].r < |replicas|
      && 0 < calls[k].epoch <= epoch
      && forall q :: 0 <= q < |replicas| && q != calls[k].r ==> replicas[q].epoch != calls[k].epoch
  }

  /** Later leaderships are further on. */
  predicate Ranked(log: seq<Entry>, replicas: seq<Replica>) {
    forall a, b :: 0 <= a < |replicas| && 0 <= b < |replicas|
        && Leads(replicas[a]) && Leads(replicas[b]) && replicas[a].epoch < replicas[b].epoch
      ==> BoundedBy(log, replicas[a], First(replicas[b].obj.current.physical))
  }

  ghost predicate LeadersOk(s: System) {
    forall r :: 0 <= r < |s.replicas| && Leads(s.replicas[r]) ==> LeaderOk(s, s.replicas[r])
  }

  ghost predicate Order(s: System) {
    && RangesOk(s.issued, s.epoch)
    && EpochsOk(s.replicas, s.epoch)
    && CallsOk(s.calls, s.replicas, s.epoch)
    && (s.pending.Some? ==> s.pending.value.epoch == s.epoch)
    && Ranked(s.log, s.replicas)
    && LeadersOk(s)
  }

  /** The window keeps every range issued, every leader and every entry below its end. */
  lemma WindowAboveAll(s: System)
    requires Agreement(s)
    ensures forall k :: 0 <= k < |s.issued| ==>
              s.issued[k].start.physical + 2 <= FullLog(s.log, |s.log|).lastSave
    ensures forall q :: 0 <= q < |s.replicas| && s.replicas[q].obj.current.physical != 0 ==>
              s.replicas[q].obj.current.physical + 2 <= FullLog(s.log, |s.log|).lastSave
    ensures forall i :: 0 <= i < |s.log| ==>
              s.log[i].update.current.physical + 2 <= FullLog(s.log, |s.log|).lastSave
  {
    forall q | 0 <= q < |s.replicas| && s.replicas[q].obj.current.physical != 0
      ensures s.replicas[q].obj.current.physical + 2 <= FullLog(s.log, |s.log|).lastSave
    {
      FullLogGrows(s.log, s.replicas[q].applied, |s.log|);
    }
    forall i | 0 <= i < |s.log|
      ensures s.log[i].update.current.physical + 2 <= FullLog(s.log, |s.log|).lastSave
    {
      EntryWithinWindow(s.log, i);
    }
  }

  lemma EntryWithinWindow(log: seq<Entry>, i: nat)
    requires LogGood(log) && i < |log|
    ensures log[i].update.current.physical + 2 <= FullLog(log, |log|).lastSave
  {
    FullLogWindowed(log, i);
    assert GoodAt(log, i);
    GoodUpdateAgrees(FullLog(log, i), FullLog(log, i), log[i].update);
    FullLogGrows(log, i + 1, |log|);
  }

  /** A start that is accepted begins above everything that was or may be issued. */
  lemma StartsAbove(s: System, r: nat, now: int)
    requires Agreement(s) && Enabled(s, LeaderStart(r, now, true)) && StartClockOk(s, r, now)
    requires s.replicas[r].healthy && Accepts(s.replicas[r].obj, StartProposal(s.replicas[r].obj.lastSave, now))
    ensures var first := First(StartProposal(s.replicas[r].obj.lastSave, now).current.physical);
            && (forall k :: 0 <= k < |s.issued| ==> s.issued[k].start.physical < first)
            && (forall q :: 0 <= q < |s.replicas| && Leads(s.replicas[q]) ==> BoundedBy(s.log, s.replicas[q], first))
  {
    FullLogWindowed(s.log, |s.log|);
    WindowAboveAll(s);
    assert ReplicaAgrees(s.log, s.replicas[r]);
    hide FullLog, LogGood, ReplicaAgrees, FromLog;
  }

  /** The other leaders do not notice that one more has started. */
  lemma OthersAfterStart(s: System, t: System, r: nat, q: nat)
    requires Order(s) && q < |s.replicas| && q != r && Leads(s.replicas[q])
    requires |t.replicas| == |s.replicas| && t.replicas[q] == s.replicas[q]
    requires t.issued == s.issued && t.epoch == s.epoch + 1 && t.calls == s.calls
    requires t.log == s.log || exists e: Entry :: e.epoch == t.epoch && t.log == s.log + [e]
    ensures LeaderOk(t, t.replicas[q])
    ensures forall p :: BoundedBy(s.log, s.replicas[q], p) ==> BoundedBy(t.log, t.replicas[q], p)
  {
    assert LeaderOk(s, s.replicas[q]);
    hide Ordered, InOrder, Ranked, InFlight, GrantOk, CallsOk;
  }

  /** The new leadership is nobody else's. */
  lemma StartCounts(s: System, r: nat, now: int, committed: bool)
    requires Agreement(s) && EpochsOk(s.replicas, s.epoch) && CallsOk(s.calls, s.replicas, s.epoch)
    requires Enabled(s, LeaderStart(r, now, committed))
    ensures var t := DoLeaderStart(s, r, now, committed);
            EpochsOk(t.replicas, t.epoch) && CallsOk(t.calls, t.replicas, t.epoch)
  {
    hide Agreement, StartProposal;
    assert StartProposal(s.replicas[r].obj.lastSave, now).current.logical == 0 by {
      StartAtZero(s.replicas[r].obj.lastSave, now);
    }
  }

  lemma StartAtZero(lastSave: int, now: int)
    ensures StartProposal(lastSave, now).current.logical == 0
  {
  }

  /** And its leader starts above all others. */
  lemma StartRanks(s: System, r: nat, now: int, committed: bool)
    requires Agreement(s) && Ranked(s.log, s.replicas) && EpochsOk(s.replicas, s.epoch)
    requires Enabled(s, LeaderStart(r, now, committed)) && (committed ==> StartClockOk(s, r, now))
    requires var t := DoLeaderStart(s, r, now, committed);
             forall q, p :: 0 <= q < |s.replicas| && q != r && Leads(s.replicas[q]) && BoundedBy(s.log, s.replicas[q], p) ==>
               BoundedBy(t.log, t.replicas[q], p)
    ensures Ranked(DoLeaderStart(s, r, now, committed).log, DoLeaderStart(s, r, now, committed).replicas)
  {
    var t := DoLeaderStart(s, r, now, committed);
    if committed && Leads(t.replicas[r]) {
      StartsAbove(s, r, now);
    }
    hide Agreement, StartClockOk, BoundedBy, StartProposal;
  }

  /** The new leader itself. */
  lemma StarterIsOk(s: System, r: nat, now: int)
    requires Agreement(s) && RangesOk(s.issued, s.epoch) && s.pending.None?
    requires Enabled(s, LeaderStart(r, now, true)) && StartClockOk(s, r, now)
    requires Leads(DoLeaderStart(s, r, now, true).replicas[r])
    ensures LeaderOk(DoLeaderStart(s, r, now, true), DoLeaderStart(s, r, now, true).replicas[r])
  {
    var x := s.replicas[r];
    assert ReplicaAgrees(s.log, x);
    StartsAbove(s, r, now);
    StartAtZero(x.obj.lastSave, now);
    hide Agreement, Ordered, StartClockOk, BoundedBy, ReplicaAgrees, StartProposal;
  }

  lemma LeaderStartOrders(s: System, r: nat, now: int, committed: bool)
    requires Agreement(s) && Order(s) && Enabled(s, LeaderStart(r, now, committed))
    requires committed ==> StartClockOk(s, r, now)
    ensures Order(DoLeaderStart(s, r, now, committed))
  {
    var t := DoLeaderStart(s, r, now, committed);
    StartCounts(s, r, now, committed);
    if committed && Leads(t.replicas[r]) {
      StarterIsOk(s, r, now);
    }
    hide Agreement, Ordered, StartClockOk, BoundedBy, EpochsOk, CallsOk, LeaderOk, StartProposal, Accepts;
    forall q | 0 <= q < |s.replicas| && q != r && Leads(s.replicas[q])
      ensures LeaderOk(t, t.replicas[q])
      ensures forall p :: BoundedBy(s.log, s.replicas[q], p) ==> BoundedBy(t.log, t.replicas[q], p)
    {
      OthersAfterStart(s, t, r, q);
    }
    StartRanks(s, r, now, committed);
    hide Ranked;
  }

  lemma TimerMoves(x: Replica, now: int)
    requires Windowed(x.obj) && (x.obj.current.logical > 0 ==> x.obj.current.physical > 0)
    requires Leads(x) && TimerClockOk(x, now) && TimerProposal(x.obj, now).Some?
    ensures Moves(x, TimerProposal(x.obj, now).value)
  {
  }

  lemma TimerOrders(s: System, r: nat, now: int)
    requires Agreement(s) && Order(s) && Enabled(s, Timer(r, now))
    requires TimerClockOk(s.replicas[r], now)
    ensures Order(DoTimer(s, r, now))
  {
    var t := DoTimer(s, r, now);
    assert ReplicaAgrees(s.log, s.replicas[r]);
    if Leads(s.replicas[r]) && TimerProposal(s.replicas[r].obj, now).Some? {
      TimerMoves(s.replicas[r], now);
    }
    hide Agreement, Ordered, ReplicaAgrees, Apart, Moves, TimerProposal, Ranked;
    forall q | 0 <= q < |t.replicas| && Leads(t.replicas[q]) ensures LeaderOk(t, t.replicas[q]) {
      assert LeaderOk(s, s.replicas[q]);
    }
  }

  /** What a leader is after applying its entry: below what it was bounded by, and further on. */
  lemma LeaderAfterApply(s: System, r: nat)
    requires Agreement(s) && Order(s) && Enabled(s, Apply(r)) && Leads(s.replicas[r])
    ensures LeaderOk(DoApply(s, r), DoApply(s, r).replicas[r])
    ensures First(s.replicas[r].obj.current.physical) <= First(DoApply(s, r).replicas[r].obj.current.physical)
    ensures forall p :: BoundedBy(s.log, s.replicas[r], p) ==> BoundedBy(s.log, DoApply(s, r).replicas[r], p)
  {
    var x := s.replicas[r];
    assert GoodAt(s.log, x.applied) && LeaderOk(s, x);
    assert Windowed(x.obj) by { assert ReplicaAgrees(s.log, x); }
    var t := DoApply(s, r);
    hide Agreement, Ordered, Ranked, EpochsOk, FullLog;
    forall k | 0 <= k < |s.issued| ensures Apart(t, t.replicas[r], s.issued[k]) {
      assert Apart(s, x, s.issued[k]) && GrantOk(s.issued[k], s.epoch);
    }
  }

  lemma RankedAfterApply(s: System, r: nat, x: Replica)
    requires Ranked(s.log, s.replicas) && r < |s.replicas| && Leads(x) == Leads(s.replicas[r])
    requires x.epoch == s.replicas[r].epoch
    requires Leads(x) ==>
               && First(s.replicas[r].obj.current.physical) <= First(x.obj.current.physical)
               && forall p :: BoundedBy(s.log, s.replicas[r], p) ==> BoundedBy(s.log, x, p)
    ensures Ranked(s.log, s.replicas[r := x])
  {
  }

  lemma LogicalAfterApply(s: System, r: nat)
    requires Agreement(s) && EpochsOk(s.replicas, s.epoch) && Enabled(s, Apply(r))
    ensures EpochsOk(DoApply(s, r).replicas, s.epoch)
  {
    assert GoodAt(s.log, s.replicas[r].applied);
    hide Agreement, FullLog;
  }

  /** What a leader has to keep does not depend on the other replicas. */
  lemma LeaderElsewhere(s: System, t: System, x: Replica)
    requires LeaderOk(s, x)
    requires t.log == s.log && t.issued == s.issued && t.pending == s.pending && t.epoch == s.epoch
    ensures LeaderOk(t, x)
  {
    hide InOrder, Moves;
  }

  lemma ApplyOrders(s: System, r: nat)
    requires Agreement(s) && Order(s) && Enabled(s, Apply(r))
    ensures Order(DoApply(s, r))
  {
    var t := DoApply(s, r);
    if Leads(s.replicas[r]) {
      LeaderAfterApply(s, r);
    }
    LogicalAfterApply(s, r);
    RankedAfterApply(s, r, t.replicas[r]);
    hide Agreement, Ranked, EpochsOk, RangesOk, First, BoundedBy, ApplyUpdate, LeaderOk;
    forall q | 0 <= q < |t.replicas| && Leads(t.replicas[q]) ensures LeaderOk(t, t.replicas[q]) {
      if q != r {
        LeaderElsewhere(s, t, s.replicas[q]);
      }
    }
  }

  lemma ApartAfterCommit(s: System, q: nat, k: nat)
    requires Order(s) && s.pending.Some?
    requires forall r :: 0 <= r < |s.replicas| ==> s.replicas[r].applied <= |s.log|
    requires q < |s.replicas| && Leads(s.replicas[q]) && k < |s.issued|
    ensures Apart(Next(s, Commit), s.replicas[q], s.issued[k])
  {
    assert LeaderOk(s, s.replicas[q]) && Apart(s, s.replicas[q], s.issued[k]);
    assert GrantOk(s.issued[k], s.epoch);
    hide LeadersOk, Ordered, Ranked, CallsOk, Issued;
  }

  /** The committed entry is of the leadership in office. */
  lemma CommitOrders(s: System)
    requires Agreement(s) && Order(s) && s.pending.Some?
    ensures Order(Next(s, Commit))
  {
    forall r | 0 <= r < |s.replicas| ensures s.replicas[r].applied <= |s.log| {
      assert ReplicaAgrees(s.log, s.replicas[r]);
    }
    hide Agreement;
    var t := Next(s, Commit);
    hide Ordered, Apart;
    forall q | 0 <= q < |t.replicas| && Leads(t.replicas[q])
      ensures LeaderOk(t, t.replicas[q])
      ensures forall p :: s.replicas[q].epoch < s.epoch && BoundedBy(s.log, s.replicas[q], p) ==>
                BoundedBy(t.log, t.replicas[q], p)
    {
      assert LeaderOk(s, s.replicas[q]);
      forall k | 0 <= k < |t.issued| ensures Apart(t, t.replicas[q], t.issued[k]) {
        ApartAfterCommit(s, q, k);
      }
    }
    hide LeaderOk, BoundedBy, CallsOk, RangesOk;
  }

  lemma RangesGrow(issued: seq<Grant>, epoch: nat, g: Grant)
    requires RangesOk(issued, epoch) && GrantOk(g, epoch)
    requires forall k :: 0 <= k < |issued| ==> InOrder(issued[k], g)
    ensures RangesOk(issued + [g], epoch)
  {
  }

  /** The state after an attempt that took its range. */
  predicate Took(s: System, c: Call, t: System)
    requires c.r < |s.replicas|
  {
    var x := s.replicas[c.r];
    && t.replicas == s.replicas[c.r := x.(obj := Take(x.obj, c.count))]
    && t.issued == s.issued + [GrantOf(s, c)]
    && t.log == s.log && t.pending == s.pending && t.epoch == s.epoch
  }

  /** The range of a leader is in nobody's way. */
  lemma LeaderIsHarmless(s: System, c: Call)
    requires Order(s) && c.r < |s.replicas| && Leads(s.replicas[c.r])
    requires s.replicas[c.r].obj.current.physical > 0 && c.count > 0
    ensures forall k :: 0 <= k < |s.issued| ==> InOrder(s.issued[k], GrantOf(s, c))
    ensures forall q :: 0 <= q < |s.replicas| && Leads(s.replicas[q]) && q != c.r ==>
              Clear(s, s.replicas[q], GrantOf(s, c))
  {
    var x, g := s.replicas[c.r], GrantOf(s, c);
    assert LeaderOk(s, x);
    forall k | 0 <= k < |s.issued| ensures InOrder(s.issued[k], g) {
      assert Apart(s, x, s.issued[k]);
    }
    forall q | 0 <= q < |s.replicas| && Leads(s.replicas[q]) && q != c.r ensures Clear(s, s.replicas[q], g) {
      assert LeaderOk(s, s.replicas[q]);
      LeaderIsClear(s, c.r, q, g);
    }
  }

  lemma LeaderIsClear(s: System, r: nat, q: nat, g: Grant)
    requires EpochsOk(s.replicas, s.epoch) && Ranked(s.log, s.replicas)
    requires r < |s.replicas| && q < |s.replicas| && q != r && Leads(s.replicas[q]) && Leads(s.replicas[r])
    requires EntriesOk(s, s.replicas[q])
    requires g.epoch == s.replicas[r].epoch && g.start == s.replicas[r].obj.current && g.start.physical > 0
    ensures Clear(s, s.replicas[q], g)
  {
  }

  /** The leader that just answered continues after its answer; any other keeps
      its distance from it. */
  lemma ApartAfterGrant(s: System, c: Call, t: System, q: nat, k: nat)
    requires Order(s) && c.r < |s.replicas| && Took(s, c, t)
    requires c.count > 0 && CanTake(s.replicas[c.r].obj, c.count)
    requires s.replicas[c.r].obj.current.logical + c.count < INT64_END
    requires q < |s.replicas| && Leads(s.replicas[q]) && k <= |s.issued|
    requires q != c.r ==> Clear(s, s.replicas[q], GrantOf(s, c))
    ensures Apart(t, t.replicas[q], t.issued[k])
  {
    assert LeaderOk(s, s.replicas[q]);
    assert k < |s.issued| ==> Apart(s, s.replicas[q], s.issued[k]);
    hide Ordered, LeaderOk, LeadersOk, RangesOk, CallsOk, Ranked;
  }

  lemma LeaderAfterGrant(s: System, c: Call, t: System, q: nat)
    requires Order(s) && c.r < |s.replicas| && Took(s, c, t)
    requires c.count > 0 && CanTake(s.replicas[c.r].obj, c.count)
    requires s.replicas[c.r].obj.current.logical + c.count < INT64_END
    requires q < |s.replicas| && Leads(s.replicas[q])
    requires q != c.r ==> Clear(s, s.replicas[q], GrantOf(s, c))
    ensures LeaderOk(t, t.replicas[q])
  {
    var y := t.replicas[q];
    assert LeaderOk(s, s.replicas[q]);
    IssuedGrows(s.issued, GrantOf(s, c), y.obj.current.physical);
    forall k | 0 <= k < |t.issued| ensures Apart(t, y, t.issued[k]) {
      ApartAfterGrant(s, c, t, q, k);
    }
    assert EntriesOk(t, y);
    hide Ordered, LeadersOk, EntriesOk, Apart, Ranked, EpochsOk, CallsOk;
  }

  lemma IssuedGrows(issued: seq<Grant>, g: Grant, physical: int)
    ensures Issued(issued, physical) ==> Issued(issued + [g], physical)
    ensures Issued(issued + [g], g.start.physical)
  {
    var issued' := issued + [g];
    if Issued(issued, physical) {
      var k :| 0 <= k < |issued| && issued[k].start.physical == physical;
      assert issued'[k] == issued[k];
    }
    assert issued'[|issued|] == g;
  }

  lemma TakeOrders(s: System, c: Call, t: System)
    requires Order(s) && c.r < |s.replicas| && Took(s, c, t) && CallsOk(t.calls, t.replicas, t.epoch)
    requires CanTake(s.replicas[c.r].obj, c.count) && AttemptOk(s, c)
    requires s.replicas[c.r].obj.current.physical > 0 && 0 < c.epoch <= s.epoch
    ensures Order(t)
  {
    if Leads(s.replicas[c.r]) {
      LeaderIsHarmless(s, c);
    }
    var g := GrantOf(s, c);
    assert GrantOk(g, s.epoch);
    RangesGrow(s.issued, s.epoch, g);
    forall q | 0 <= q < |t.replicas| && Leads(t.replicas[q]) ensures LeaderOk(t, t.replicas[q]) {
      LeaderAfterGrant(s, c, t, q);
    }
    hide RangesOk, LeaderOk, CallsOk;
  }

  /** Calls come and go without the leaders noticing. */
  lemma CallsChange(s: System, t: System)
    requires Order(s) && t == s.(calls := t.calls) && CallsOk(t.calls, t.replicas, t.epoch)
    ensures Order(t)
  {
    hide CallsOk, LeaderOk;
    forall q | 0 <= q < |t.replicas| && Leads(t.replicas[q]) ensures LeaderOk(t, t.replicas[q]) {
      LeaderElsewhere(s, t, s.replicas[q]);
    }
  }

  lemma AskOrders(s: System, r: nat, count: Int64)
    requires Order(s) && Enabled(s, Ask(r, count))
    ensures Order(Next(s, Ask(r, count)))
  {
    CallsChange(s, Next(s, Ask(r, count)));
  }

  lemma AttemptOrders(s: System, k: nat)
    requires Agreement(s) && Order(s) && Enabled(s, Attempt(k)) && AttemptOk(s, s.calls[k])
    ensures Order(DoAttempt(s, k))
  {
    var c := s.calls[k];
    var t := DoAttempt(s, k);
    if CanTake(s.replicas[c.r].obj, c.count) {
      assert ReplicaAgrees(s.log, s.replicas[c.r]);
      TakeOrders(s, c, t);
    } else {
      CallsChange(s, t);
    }
    hide Agreement, LeadersOk, Ranked, RangesOk;
  }

  /** A replica that leaves office, or is not in it, takes nothing from the others. */
  lemma PutFollowerOrders(s: System, r: nat, x: Replica)
    requires Order(s) && r < |s.replicas| && x.epoch == 0 && LogicalOk(x.obj.current)
    ensures Order(Put(s, r, x))
  {
    var t := Put(s, r, x);
    forall q | 0 <= q < |t.replicas| && Leads(t.replicas[q]) ensures LeaderOk(t, t.replicas[q]) {
      assert LeaderOk(s, s.replicas[q]);
    }
  }

  lemma RestartOrders(s: System, r: nat, snap: nat)
    requires Order(s) && Enabled(s, Restart(r, snap))
    ensures Order(Next(s, Restart(r, snap)))
  {
    var t := Next(s, Restart(r, snap));
    var u := Put(s, r, t.replicas[r]);
    PutFollowerOrders(s, r, t.replicas[r]);
    hide RangesOk, Ranked, LeadersOk, EpochsOk;
    CallsChange(u, t);
  }

  lemma QueueOrders(s: System, t: System)
    requires Order(s)
    requires t == s.(pending := None) || t == s.(snapshots := t.snapshots)
    ensures Order(t)
  {
    forall q | 0 <= q < |t.replicas| && Leads(t.replicas[q]) ensures LeaderOk(t, t.replicas[q]) {
      assert LeaderOk(s, s.replicas[q]);
    }
  }

  lemma StepOrders(s: System, ev: Event)
    requires Agreement(s) && Order(s) && Good(s, ev)
    ensures Order(Next(s, ev))
  {
    hide Agreement, RangesOk, Ranked, LeadersOk, CallsOk, StartClockOk, AttemptOk;
    hide DoLeaderStart, DoTimer, DoApply, DoAttempt;
    if Enabled(s, ev) {
      match ev
      case LeaderStart(r, now, committed) => LeaderStartOrders(s, r, now, committed);
      case LeaderStop(r) => PutFollowerOrders(s, r, s.replicas[r].(epoch := 0));
      case Timer(r, now) => TimerOrders(s, r, now);
      case Commit => CommitOrders(s);
      case Lose => QueueOrders(s, Next(s, Lose));
      case Apply(r) => ApplyOrders(s, r);
      case Ask(r, count) => AskOrders(s, r, count);
      case Attempt(k) => AttemptOrders(s, k);
      case SaveSnapshot(_) => QueueOrders(s, Next(s, ev));
      case Restart(r, snap) => RestartOrders(s, r, snap);
      case InstallSnapshot(r, _) => PutFollowerOrders(s, r, Next(s, ev).replicas[r]);
    }
  }

  lemma {:induction false} RunOrders(s: System, events: seq<Event>)
    requires Agreement(s) && Order(s) && GoodRun(s, events)
    ensures Agreement(Run(s, events)) && Order(Run(s, events))
    decreases |events|
  {
    if events != [] {
      StepAgrees(s, events[0]);
      StepOrders(s, events[0]);
      RunOrders(Next(s, events[0]), events[1..]);
    }
  }

  /** An attempt, said of what it leaves: a replica with a physical part and room
      for the count below 2^18 hands the range out and moves past it; any other is
      left alone, and so is every other replica. The first fifty attempts count. */
  lemma AttemptTakes(s: System, k: nat)
    requires Enabled(s, Attempt(k)) && IsInt64(s.replicas[s.calls[k].r].obj.current.logical + s.calls[k].count)
    ensures var c := s.calls[k];
            var at, t := s.replicas[c.r].obj.current, Next(s, Attempt(k));
            var taken := at.physical != 0 && at.logical + c.count < 262144;
            && |t.replicas| == |s.replicas|
            && (taken ==> |t.issued| == |s.issued| + 1 && t.issued[..|s.issued|] == s.issued
                          && t.issued[|s.issued|].start == at && t.issued[|s.issued|].count == c.count
                          && t.replicas[c.r].obj.current == Timestamp(at.physical, at.logical + c.count)
                          && t.replicas[c.r].obj.lastSave == s.replicas[c.r].obj.lastSave
                          && !Enabled(t, Attempt(k)))
            && (!taken ==> t.issued == s.issued && t.replicas == s.replicas && t.calls[k].left == c.left - 1)
            && (forall q :: 0 <= q < |s.replicas| && q != c.r ==> t.replicas[q] == s.replicas[q])
  {
  }

  /** A call is let in exactly by a healthy leader and for a count other than 0,
      and it may make fifty attempts. */
  lemma AskLetsIn(s: System, r: nat, count: Int64)
    requires r < |s.replicas|
    ensures var t := Next(s, Ask(r, count));
            && (t != s <==> s.replicas[r].epoch > 0 && s.replicas[r].healthy && count != 0)
            && (t != s ==> t == s.(calls := s.calls + [Call(r, count, s.replicas[r].epoch, 50)]))
  {
    assert |s.calls + [Call(r, count, s.replicas[r].epoch, 50)]| > |s.calls|;
  }

  /** The 64-bit timestamps a client derives from a grant. */
  predicate Covers(g: Grant, ts: int) {
    Encode(g.start) <= ts < Encode(g.start) + g.count
  }

  lemma InOrderMeansDisjoint(a: Grant, b: Grant, epoch: nat, ts: int)
    requires GrantOk(a, epoch) && GrantOk(b, epoch) && InOrder(a, b)
    ensures !(Covers(a, ts) && Covers(b, ts))
    ensures a.epoch <= b.epoch ==> Encode(a.start) + a.count <= Encode(b.start)
  {
    if a.start.physical < b.start.physical {
      assert (a.start.physical + 1) * MAX_LOGICAL <= b.start.physical * MAX_LOGICAL;
    } else if b.start.physical < a.start.physical {
      assert (b.start.physical + 1) * MAX_LOGICAL <= a.start.physical * MAX_LOGICAL;
    }
  }

  /** No timestamp is ever handed out twice, whatever leader changes, deposed
      leaders, late entries, late calls, restarts and snapshot loads the run
      contains; and the ranges of one leadership lie wholly below those of any
      later leadership. */
  lemma TimestampsUnique(n: nat, events: seq<Event>)
    requires GoodRun(Init(n), events)
    ensures var issued := Run(Init(n), events).issued;
            && (forall i, j, ts :: 0 <= i < j < |issued| ==> !(Covers(issued[i], ts) && Covers(issued[j], ts)))
            && (forall i, j :: 0 <= i < j < |issued| && issued[i].epoch <= issued[j].epoch ==>
                  Encode(issued[i].start) + issued[i].count <= Encode(issued[j].start))
            && (forall i, j :: 0 <= i < |issued| && 0 <= j < |issued| && issued[i].epoch < issued[j].epoch ==>
                  Encode(issued[i].start) + issued[i].count <= Encode(issued[j].start))
  {
    RunOrders(Init(n), events);
    hide Agreement, Run, LeadersOk, EpochsOk, CallsOk, Ranked;
    RangesApart(Run(Init(n), events).issued, Run(Init(n), events).epoch);
  }

  lemma RangesApart(issued: seq<Grant>, epoch: nat)
    requires RangesOk(issued, epoch)
    ensures forall i, j, ts :: 0 <= i < j < |issued| ==> !(Covers(issued[i], ts) && Covers(issued[j], ts))
    ensures forall i, j :: 0 <= i < j < |issued| && issued[i].epoch <= issued[j].epoch ==>
              Encode(issued[i].start) + issued[i].count <= Encode(issued[j].start)
    ensures forall i, j :: 0 <= i < |issued| && 0 <= j < |issued| && issued[i].epoch < issued[j].epoch ==>
              Encode(issued[i].start) + issued[i].count <= Encode(issued[j].start)
  {
    forall i, j, ts | 0 <= i < j < |issued|
      ensures !(Covers(issued[i], ts) && Covers(issued[j], ts))
      ensures issued[i].epoch <= issued[j].epoch ==> Encode(issued[i].start) + issued[i].count <= Encode(issued[j].start)
      ensures issued[j].epoch < issued[i].epoch ==> Encode(issued[j].start) + issued[j].count <= Encode(issued[i].start)
    {
      InOrderMeansDisjoint(issued[i], issued[j], epoch, ts);
      if issued[j].epoch < issued[i].epoch {
        InOrderMeansDisjoint(issued[j], issued[i], epoch, ts);
      }
    }
  }

  /** The range is taken on a leader. */
  predicate TakenInOffice(s: System, ev: Event) {
    ev.Attempt? && Enabled(s, ev) ==>
      var c := s.calls[ev.k];
      CanTake(s.replicas[c.r].obj, c.count) ==> Leads(s.replicas[c.r])
  }

  /** When every leader stops before the next one starts, and no call outlives its
      leader, the order of the leaderships is the order of time, so ranges
      increase as they are issued. */
  predicate OneLeader(s: System, events: seq<Event>)
    decreases |events|
  {
    events == [] ||
    ((events[0].LeaderStart? ==> forall q :: 0 <= q < |s.replicas| ==> s.replicas[q].epoch == 0)
     && TakenInOffice(s, events[0])
     && OneLeader(Next(s, events[0]), events[1..]))
  }

  ghost predicate OneInOffice(s: System) {
    && (forall q :: 0 <= q < |s.replicas| ==> s.replicas[q].epoch == 0 || s.replicas[q].epoch == s.epoch)
    && (forall k :: 0 <= k < |s.issued| ==> s.issued[k].epoch <= s.epoch)
    && (forall i, j :: 0 <= i < j < |s.issued| ==> s.issued[i].epoch <= s.issued[j].epoch)
  }

  lemma OneInOfficeStep(s: System, ev: Event)
    requires OneInOffice(s) && TakenInOffice(s, ev)
    requires ev.LeaderStart? ==> forall q :: 0 <= q < |s.replicas| ==> s.replicas[q].epoch == 0
    ensures OneInOffice(Next(s, ev))
  {
  }

  lemma {:induction false} OneInOfficeHolds(s: System, events: seq<Event>)
    requires OneInOffice(s) && OneLeader(s, events)
    ensures OneInOffice(Run(s, events))
    decreases |events|
  {
    if events != [] {
      OneInOfficeStep(s, events[0]);
      hide OneInOffice, Next;
      OneInOfficeHolds(Next(s, events[0]), events[1..]);
    }
  }

  lemma TimestampsIncrease(n: nat, events: seq<Event>)
    requires GoodRun(Init(n), events) && OneLeader(Init(n), events)
    ensures var issued := Run(Init(n), events).issued;
            forall i, j :: 0 <= i < j < |issued| ==>
              Encode(issued[i].start) + issued[i].count <= Encode(issued[j].start)
  {
    TimestampsUnique(n, events);
    OneInOfficeHolds(Init(n), events);
  }
}

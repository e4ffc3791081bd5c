/** The hypotheses on clocks, counts and late calls are needed: where one fails,
    good events alone put the ranges out of order. Together with the theorems of
    TsoOrder this makes each an if and only if. */
module TsoExact {
  import opened Wrappers
  import opened Words
  import opened Tso
  import opened TsoSystem
  import opened TsoAgreement
  import opened TsoOrder

  // ---- simple readings that are enough

  /** A start clock above every physical part in the log satisfies StartClockOk. */
  lemma AboveLogIsEnough(s: System, r: nat, now: int)
    requires Agreement(s) && r < |s.replicas|
    requires forall i :: 0 <= i < |s.log| ==> s.log[i].update.current.physical < now
    ensures StartClockOk(s, r, now)
  {
    assert ReplicaAgrees(s.log, s.replicas[r]);
    hide LogGood, FullLog;
  }

  /** A timer clock at or above the current physical part satisfies TimerClockOk. */
  lemma AtOrAboveIsEnough(x: Replica, now: int)
    requires now >= x.obj.current.physical
    ensures TimerClockOk(x, now)
  {
  }

  /** A call of up to 2^63 - 2^18 timestamps whose replica leads satisfies AttemptOk, in every run. */
  lemma SmallCountIsEnough(n: nat, events: seq<Event>, c: Call)
    requires 0 < c.count <= INT64_END - MAX_LOGICAL
    requires c.r < |Run(Init(n), events).replicas| && Leads(Run(Init(n), events).replicas[c.r])
    ensures AttemptOk(Run(Init(n), events), c)
  {
    LogicalFits(n, events);
  }

  // ---- composing runs

  lemma {:induction false} GoodAppend(s: System, a: seq<Event>, b: seq<Event>)
    ensures Run(s, a + b) == Run(Run(s, a), b)
    ensures GoodRun(s, a) && GoodRun(Run(s, a), b) ==> GoodRun(s, a + b)
    decreases |a|
  {
    if a == [] {
      assert a + b == b;
    } else {
      assert (a + b)[1..] == a[1..] + b;
      GoodAppend(Next(s, a[0]), a[1..], b);
    }
  }

  lemma RunOne(s: System, e: Event)
    ensures Run(s, [e]) == Next(s, e)
    ensures Good(s, e) ==> GoodRun(s, [e])
  {
    assert [e][1..] == [] && GoodRun(Next(s, e), []);
  }

  lemma RunStep(s: System, events: seq<Event>, e: Event)
    ensures Run(s, events + [e]) == Next(Run(s, events), e)
    ensures GoodRun(s, events) && Good(Run(s, events), e) ==> GoodRun(s, events + [e])
  {
    GoodAppend(s, events, [e]);
    RunOne(Run(s, events), e);
  }

  lemma RunTwo(s: System, a: Event, b: Event)
    ensures Run(s, [a, b]) == Next(Next(s, a), b)
    ensures Good(s, a) && Good(Next(s, a), b) ==> GoodRun(s, [a, b])
  {
    assert [a] + [b] == [a, b];
    RunOne(s, a);
    RunStep(s, [a], b);
    hide Next, Good;
  }

  lemma RunThree(s: System, a: Event, b: Event, c: Event)
    ensures Run(s, [a, b, c]) == Next(Next(Next(s, a), b), c)
    ensures Good(s, a) && Good(Next(s, a), b) && Good(Next(Next(s, a), b), c) ==> GoodRun(s, [a, b, c])
  {
    assert [a, b] + [c] == [a, b, c];
    RunTwo(s, a, b);
    RunStep(s, [a, b], c);
    hide Next, Good;
  }

  /** A call that is answered at once. */
  function Serve(s: System, r: nat, count: Int64): seq<Event> {
    [Ask(r, count), Attempt(|s.calls|)]
  }

  function Served(s: System, r: nat, count: Int64): System
    requires r < |s.replicas|
  {
    var x := s.replicas[r];
    s.(replicas := s.replicas[r := x.(obj := Take(x.obj, count))],
       issued := s.issued + [Grant(x.epoch, x.obj.current, count)],
       calls := s.calls + [Call(r, count, x.epoch, 0)])
  }

  lemma ServeGrants(s: System, r: nat, count: Int64)
    requires r < |s.replicas| && Leads(s.replicas[r]) && count != 0 && CanTake(s.replicas[r].obj, count)
    ensures Run(s, Serve(s, r, count)) == Served(s, r, count)
    ensures count > 0 && s.replicas[r].obj.current.logical + count < INT64_END ==> GoodRun(s, Serve(s, r, count))
  {
    hide Run, GoodRun;
    var x := s.replicas[r];
    var t := Next(s, Ask(r, count));
    assert t == s.(calls := s.calls + [Call(r, count, x.epoch, GEN_RETRIES)]);
    assert t.calls[|s.calls| := Call(r, count, x.epoch, 0)] == s.calls + [Call(r, count, x.epoch, 0)];
    assert Next(t, Attempt(|s.calls|)) == Served(s, r, count);
    assert Good(s, Ask(r, count));
    hide Next;
    RunTwo(s, Ask(r, count), Attempt(|s.calls|));
  }

  // ---- getting a leader to answer from a given physical part

  /** Leader q answers next from logical 0 of physical part m. */
  predicate ReadyAt(s: System, q: nat, m: int) {
    q < |s.replicas| && Leads(s.replicas[q]) && s.replicas[q].obj.current == Timestamp(m, 0) && m > 0
  }

  lemma ReadyServes(s: System, q: nat, m: int)
    requires ReadyAt(s, q, m)
    ensures GoodRun(s, Serve(s, q, 1)) && Run(s, Serve(s, q, 1)) == Served(s, q, 1)
  {
    ServeGrants(s, q, 1);
    hide GoodRun, Run;
  }

  /** An answer that comes after one it does not agree with. */
  lemma ServeBreaks(s: System, q: nat, m: int, k: nat)
    requires ReadyAt(s, q, m) && k < |s.issued|
    requires !InOrder(s.issued[k], Grant(s.replicas[q].epoch, Timestamp(m, 0), 1))
    ensures GoodRun(s, Serve(s, q, 1)) && !Ordered(Run(s, Serve(s, q, 1)).issued)
  {
    ReadyServes(s, q, m);
    hide GoodRun, Run;
    var issued := Served(s, q, 1).issued;
    assert !InOrder(issued[k], issued[|s.issued|]);
  }

  /** Leader q is about to apply an entry of physical part m, and will accept it. */
  predicate EntryReady(s: System, q: nat, m: int) {
    && q < |s.replicas| && Leads(s.replicas[q])
    && Outstanding(s.log, s.replicas[q])
    && var u := s.log[s.replicas[q].applied].update;
       Accepts(s.replicas[q].obj, u) && u.current == Timestamp(m, 0) && m > 0
  }

  lemma EntryIsReady(s: System, q: nat)
    requires Agreement(s) && q < |s.replicas| && Leads(s.replicas[q]) && Outstanding(s.log, s.replicas[q])
    requires var m := s.log[s.replicas[q].applied].update.current.physical;
             s.replicas[q].obj.current.physical <= m && m > 0
    ensures EntryReady(s, q, s.log[s.replicas[q].applied].update.current.physical)
  {
    assert ReplicaAgrees(s.log, s.replicas[q]) && GoodAt(s.log, s.replicas[q].applied);
    hide LogGood;
  }

  lemma EntryLeads(s: System, q: nat, m: int)
    requires EntryReady(s, q, m)
    ensures GoodRun(s, [Apply(q)]) && ReadyAt(Run(s, [Apply(q)]), q, m)
    ensures var t := Run(s, [Apply(q)]);
            && t.issued == s.issued && |t.replicas| == |s.replicas| && t.replicas[q].epoch == s.replicas[q].epoch
            && forall p :: 0 <= p < |s.replicas| && p != q ==> t.replicas[p] == s.replicas[p]
  {
    RunOne(s, Apply(q));
    hide Run, GoodRun;
  }

  /** q answers from m now, or after applying one entry. */
  predicate Reaches(s: System, q: nat, m: int) {
    ReadyAt(s, q, m) || EntryReady(s, q, m)
  }

  function Reach(s: System, q: nat, m: int): seq<Event> {
    if ReadyAt(s, q, m) then [] else [Apply(q)]
  }

  lemma ReachLeads(s: System, q: nat, m: int)
    requires Reaches(s, q, m)
    ensures GoodRun(s, Reach(s, q, m)) && ReadyAt(Run(s, Reach(s, q, m)), q, m)
    ensures var t := Run(s, Reach(s, q, m));
            && t.issued == s.issued && |t.replicas| == |s.replicas| && t.replicas[q].epoch == s.replicas[q].epoch
            && forall p :: 0 <= p < |s.replicas| && p != q ==> t.replicas[p] == s.replicas[p]
  {
    if !ReadyAt(s, q, m) {
      EntryLeads(s, q, m);
    }
  }

  lemma ReachBreaks(s: System, q: nat, m: int, k: nat) returns (rest: seq<Event>)
    requires Reaches(s, q, m) && k < |s.issued|
    requires !InOrder(s.issued[k], Grant(s.replicas[q].epoch, Timestamp(m, 0), 1))
    ensures |rest| <= 3 && GoodRun(s, rest) && !Ordered(Run(s, rest).issued)
  {
    ReachLeads(s, q, m);
    hide Run, GoodRun, Reaches;
    var t := Run(s, Reach(s, q, m));
    ServeBreaks(t, q, m, k);
    rest := Reach(s, q, m) + Serve(t, q, 1);
    GoodAppend(s, Reach(s, q, m), Serve(t, q, 1));
  }

  // ---- the timer

  /** The timer breaks its hypothesis: the leader returns to logical 0. */
  lemma BadTimer(s: System, r: nat, now: int)
    requires Agreement(s) && Enabled(s, Timer(r, now)) && !TimerClockOk(s.replicas[r], now)
    ensures var x, t := s.replicas[r], Next(Next(Next(s, Timer(r, now)), Commit), Apply(r));
            && t.issued == s.issued && t.calls == s.calls && ReadyAt(t, r, x.obj.current.physical)
            && t.replicas[r].epoch == x.epoch
  {
    var x := s.replicas[r];
    assert ReplicaAgrees(s.log, x);
    TimerProposalGood(x.obj, now);
  }

  /** From any state of a good run in which the timer breaks its hypothesis,
      good events alone put the ranges out of order. */
  lemma TimerHypothesisNeeded(s: System, r: nat, now: int)
    requires Agreement(s) && Order(s) && Enabled(s, Timer(r, now)) && !TimerClockOk(s.replicas[r], now)
    ensures var t := Next(s, Timer(r, now));
            var rest := [Commit, Apply(r), Ask(r, 1), Attempt(|s.calls|)];
            GoodRun(t, rest) && !Ordered(Run(t, rest).issued)
  {
    var x := s.replicas[r];
    assert LeaderOk(s, x);
    var k :| 0 <= k < |s.issued| && s.issued[k].start.physical == x.obj.current.physical;
    assert Apart(s, x, s.issued[k]) && GrantOk(s.issued[k], s.epoch);
    BadTimer(s, r, now);
    hide Agreement, Order, Ordered, LeaderOk;
    var t := Next(s, Timer(r, now));
    RunTwo(t, Commit, Apply(r));
    var u := Next(Next(t, Commit), Apply(r));
    ServeBreaks(u, r, x.obj.current.physical, k);
    GoodAppend(t, [Commit, Apply(r)], Serve(u, r, 1));
    assert [Commit, Apply(r)] + Serve(u, r, 1) == [Commit, Apply(r), Ask(r, 1), Attempt(|s.calls|)];
  }

  /** A leader at 0 is moved to 2 by the next round of its timer. */
  function FirstTick(r: nat): seq<Event> {
    [Timer(r, 2), Commit, Apply(r)]
  }

  lemma FirstTickMoves(s: System, r: nat)
    requires r < |s.replicas| && Leads(s.replicas[r]) && s.replicas[r].epoch == s.epoch
    requires s.pending.None? && s.replicas[r].applied == |s.log|
    requires s.replicas[r].obj.current == Timestamp(0, 0)
    ensures GoodRun(s, FirstTick(r)) && ReadyAt(Run(s, FirstTick(r)), r, 2)
    ensures var t := Run(s, FirstTick(r));
            && |t.replicas| == |s.replicas| && t.replicas[r].epoch == s.replicas[r].epoch
            && (forall q :: 0 <= q < |s.replicas| && q != r ==> t.replicas[q] == s.replicas[q])
            && t.issued == s.issued && |t.log| == |s.log| + 1 && t.log[..|s.log|] == s.log
  {
    RunThree(s, Timer(r, 2), Commit, Apply(r));
    hide Run, GoodRun;
  }

  // ---- the start

  /** What follows a start before its leader can answer. */
  function Settle(r: nat, now: int): seq<Event> {
    if now == 0 then FirstTick(r) else []
  }

  lemma Settles(s: System, r: nat, now: nat)
    requires r < |s.replicas| && Leads(s.replicas[r]) && s.replicas[r].epoch == s.epoch
    requires s.pending.None? && s.replicas[r].applied == |s.log|
    requires s.replicas[r].obj.current == Timestamp(now, 0)
    ensures GoodRun(s, Settle(r, now)) && ReadyAt(Run(s, Settle(r, now)), r, First(now))
    ensures var t := Run(s, Settle(r, now));
            && |t.replicas| == |s.replicas| && t.replicas[r].epoch == s.replicas[r].epoch
            && (forall q :: 0 <= q < |s.replicas| && q != r ==> t.replicas[q] == s.replicas[q])
            && t.issued == s.issued && |t.log| >= |s.log| && t.log[..|s.log|] == s.log
  {
    if now == 0 {
      FirstTickMoves(s, r);
      hide Run, GoodRun;
    }
  }

  predicate BadStarted(s: System, r: nat, now: int, t: System) {
    && t.issued == s.issued && |t.replicas| == |s.replicas| && ReadyAt(t, r, First(now))
    && t.replicas[r].epoch == s.epoch + 1
    && (forall q :: 0 <= q < |s.replicas| && q != r ==> t.replicas[q] == s.replicas[q])
    && |s.log| <= |t.log| && (forall i :: 0 <= i < |s.log| ==> t.log[i] == s.log[i])
  }

  lemma TrustsItsClock(s: System, r: nat, now: int)
    requires Agreement(s) && Enabled(s, LeaderStart(r, now, true)) && !StartClockOk(s, r, now)
    ensures now >= 0
    ensures var x, e := s.replicas[r], Entry(Update(Timestamp(now, 0), s.replicas[r].obj.lastSave), s.epoch + 1);
            Next(s, LeaderStart(r, now, true))
            == s.(replicas := s.replicas[r := Replica(Install(e.update), true, s.epoch + 1, |s.log| + 1)],
                  log := s.log + [e], epoch := s.epoch + 1)
  {
    assert ReplicaAgrees(s.log, s.replicas[r]);
    hide LogGood, FullLog, FromLog, Agreement;
  }

  /** What a start that breaks its hypothesis leads to. */
  lemma BadStart(s: System, r: nat, now: int)
    requires Agreement(s) && Enabled(s, LeaderStart(r, now, true)) && !StartClockOk(s, r, now)
    ensures var t := Next(s, LeaderStart(r, now, true));
            GoodRun(t, Settle(r, now)) && BadStarted(s, r, now, Run(t, Settle(r, now)))
  {
    var t := Next(s, LeaderStart(r, now, true));
    TrustsItsClock(s, r, now);
    assert s.pending.None?;
    hide Agreement, Next, StartClockOk, Run, GoodRun, Settle, FirstTick;
    Settles(t, r, now);
    assert forall i :: 0 <= i < |s.log| ==> Run(t, Settle(r, now)).log[..|t.log|][i] == t.log[i] == s.log[i];
  }

  predicate HighGrant(s: System, k: nat, p: int) {
    k < |s.issued| && s.issued[k].start.physical >= p && GrantOk(s.issued[k], s.epoch)
  }

  /** Some leader answers from p or above, now or after its entry. */
  predicate HighLeader(s: System, q: nat, m: int, p: int) {
    Reaches(s, q, m) && s.replicas[q].epoch <= s.epoch && m >= p
  }

  /** A leader that is not bounded by p answers from there or has answered from there. */
  lemma WhyUnbounded(s: System, q: nat, p: int) returns (k: nat, m: int)
    requires Agreement(s) && Order(s) && q < |s.replicas| && Leads(s.replicas[q]) && p > 0
    requires !BoundedBy(s.log, s.replicas[q], p)
    ensures HighGrant(s, k, p) || HighLeader(s, q, m, p)
  {
    var x := s.replicas[q];
    assert LeaderOk(s, x);
    k, m := 0, x.obj.current.physical;
    if x.obj.current.physical < p {
      m := s.log[x.applied].update.current.physical;
      hide Order;
      EntryIsReady(s, q);
    } else if x.obj.current.logical > 0 {
      hide Agreement, Ordered, Ranked, EntriesOk, InFlight;
      k :| 0 <= k < |s.issued| && s.issued[k].start.physical == x.obj.current.physical;
    }
  }

  /** Either something at or above now was issued, or some leader is there, or gets there. */
  lemma WhyBadStart(s: System, r: nat, now: int) returns (k: nat, q: nat, m: int)
    requires Agreement(s) && Order(s) && Enabled(s, LeaderStart(r, now, true)) && !StartClockOk(s, r, now)
    requires First(now) > 0
    ensures HighGrant(s, k, First(now)) || (q != r && HighLeader(s, q, m, First(now)))
  {
    hide Agreement, Ordered, Accepts, Ranked, LeadersOk, BoundedBy, CallsOk;
    var p := First(now);
    k, q, m := 0, 0, 0;
    if i :| 0 <= i < |s.issued| && s.issued[i].start.physical >= p {
      k := i;
    } else {
      q :| 0 <= q < |s.replicas| && Leads(s.replicas[q]) && !BoundedBy(s.log, s.replicas[q], p);
      k, m := WhyUnbounded(s, q, p);
    }
  }

  /** The old leader and then the new one, no further on. */
  lemma OldThenNew(s: System, r: nat, now: int, t: System, q: nat, m: int) returns (rest: seq<Event>)
    requires BadStarted(s, r, now, t) && q != r && HighLeader(s, q, m, First(now))
    ensures |rest| <= 5 && GoodRun(t, rest) && !Ordered(Run(t, rest).issued)
  {
    assert Reaches(t, q, m);
    hide Run, GoodRun;
    ReachLeads(t, q, m);
    var t1 := Run(t, Reach(t, q, m));
    ReadyServes(t1, q, m);
    var t2 := Served(t1, q, 1);
    var before := Reach(t, q, m) + Serve(t1, q, 1);
    GoodAppend(t, Reach(t, q, m), Serve(t1, q, 1));
    assert t2.issued[|s.issued|] == Grant(s.replicas[q].epoch, Timestamp(m, 0), 1);
    assert ReadyAt(t2, r, First(now));
    ServeBreaks(t2, r, First(now), |s.issued|);
    rest := before + Serve(t2, r, 1);
    GoodAppend(t, before, Serve(t2, r, 1));
  }

  /** Likewise for a leader start, at any clock: from any state of a good run in
      which a start breaks its hypothesis, good events alone put the ranges out
      of order. */
  lemma StartHypothesisNeeded(s: System, r: nat, now: int) returns (rest: seq<Event>)
    requires Agreement(s) && Order(s) && Enabled(s, LeaderStart(r, now, true))
    requires !StartClockOk(s, r, now)
    ensures var t := Next(s, LeaderStart(r, now, true));
            |rest| <= 8 && GoodRun(t, rest) && !Ordered(Run(t, rest).issued)
  {
    var t := Next(s, LeaderStart(r, now, true));
    BadStart(s, r, now);
    var u := Run(t, Settle(r, now));
    var k, q, m := WhyBadStart(s, r, now);
    hide Agreement, Order, Ordered, StartClockOk, Next, Enabled, Run, GoodRun;
    var more;
    if HighGrant(s, k, First(now)) {
      more := Serve(u, r, 1);
      ServeBreaks(u, r, First(now), k);
    } else {
      more := OldThenNew(s, r, now, u, q, m);
    }
    rest := Settle(r, now) + more;
    GoodAppend(t, Settle(r, now), more);
  }

  // ---- a call that has outlived its leadership

  /** A leader that has not issued past what g is in the way of still answers from logical 0. */
  lemma StillAtZero(s: System, q: nat, g: Grant)
    requires Order(s) && q < |s.replicas| && Leads(s.replicas[q]) && g.epoch != s.replicas[q].epoch
    requires forall k :: 0 <= k < |s.issued| ==> InOrder(s.issued[k], g)
    requires if g.epoch > s.replicas[q].epoch then s.replicas[q].obj.current.physical >= g.start.physical
             else s.replicas[q].obj.current.physical <= g.start.physical
    ensures s.replicas[q].obj.current.logical == 0
  {
    var x := s.replicas[q];
    assert LeaderOk(s, x);
    forall k | 0 <= k < |s.issued| ensures s.issued[k].start.physical != x.obj.current.physical {
      assert Apart(s, x, s.issued[k]) && GrantOk(s.issued[k], s.epoch);
    }
    hide Ordered, LeadersOk, Ranked, EntriesOk, InFlight;
  }

  /** An old leader that is in the way of g gets there. */
  lemma OldInTheWay(s: System, q: nat, g: Grant) returns (m: int)
    requires Agreement(s) && Order(s) && q < |s.replicas| && Leads(s.replicas[q])
    requires g.epoch > s.replicas[q].epoch && g.start.physical > 0
    requires forall k :: 0 <= k < |s.issued| ==> InOrder(s.issued[k], g)
    requires !Clear(s, s.replicas[q], g)
    ensures Reaches(s, q, m) && m >= g.start.physical
  {
    var x := s.replicas[q];
    m := x.obj.current.physical;
    if m >= g.start.physical {
      StillAtZero(s, q, g);
    } else {
      m := s.log[x.applied].update.current.physical;
      hide Order;
      EntryIsReady(s, q);
    }
  }

  /** A later leader that is in the way of g gets there, if it is not at 0 in office. */
  lemma NewInTheWay(s: System, q: nat, g: Grant) returns (m: int)
    requires Agreement(s) && Order(s) && q < |s.replicas| && Leads(s.replicas[q])
    requires g.epoch < s.replicas[q].epoch && g.start.physical > 0
    requires forall k :: 0 <= k < |s.issued| ==> InOrder(s.issued[k], g)
    requires !Clear(s, s.replicas[q], g)
    ensures m <= g.start.physical
    ensures Reaches(s, q, m)
            || (m == 2 && s.replicas[q].epoch == s.epoch && s.replicas[q].applied == |s.log|
                && s.replicas[q].obj.current == Timestamp(0, 0))
  {
    var x := s.replicas[q];
    assert ReplicaAgrees(s.log, x);
    assert LogicalOk(x.obj.current);
    m := Least(s, x).value;
    if x.obj.current.physical != 0 {
      StillAtZero(s, q, g);
    } else if Outstanding(s.log, x) {
      assert LeaderOk(s, x);
      hide Order, LeaderOk;
      EntryIsReady(s, q);
    }
  }

  /** What an attempt that takes its range leaves as it was. */
  predicate TookAt(s: System, r: nat, g: Grant, t: System) {
    && |t.replicas| == |s.replicas| && t.issued == s.issued + [g]
    && (forall q :: 0 <= q < |s.replicas| && q != r ==> t.replicas[q] == s.replicas[q])
    && t.log == s.log && t.pending == s.pending && t.epoch == s.epoch
  }

  lemma InTheWayBreaks(s: System, r: nat, g: Grant, t: System, q: nat, m: int) returns (rest: seq<Event>)
    requires TookAt(s, r, g, t) && q != r && Reaches(s, q, m) && g.epoch != s.replicas[q].epoch
    requires if g.epoch > s.replicas[q].epoch then m >= g.start.physical else m <= g.start.physical
    ensures GoodRun(t, rest) && !Ordered(Run(t, rest).issued)
  {
    assert t.issued[|s.issued|] == g;
    rest := ReachBreaks(t, q, m, |s.issued|);
  }

  /** A leader at 0 in office loses what is pending and is moved to 2. */
  lemma TickBreaks(s: System, r: nat, g: Grant, t: System, q: nat) returns (rest: seq<Event>)
    requires TookAt(s, r, g, t) && q != r && q < |s.replicas| && Leads(s.replicas[q])
    requires g.epoch < s.replicas[q].epoch && g.start.physical >= 2
    requires s.replicas[q].epoch == s.epoch && s.replicas[q].applied == |s.log|
    requires s.replicas[q].obj.current == Timestamp(0, 0)
    ensures GoodRun(t, rest) && !Ordered(Run(t, rest).issued)
  {
    var u := t.(pending := None);
    RunOne(t, Lose);
    FirstTickMoves(u, q);
    var v := Run(u, FirstTick(q));
    assert v.issued[|s.issued|] == g;
    ServeBreaks(v, q, 2, |s.issued|);
    hide Run, GoodRun;
    assert Next(t, Lose) == u;
    GoodAppend(u, FirstTick(q), Serve(v, q, 1));
    rest := [Lose] + (FirstTick(q) + Serve(v, q, 1));
    GoodAppend(t, [Lose], FirstTick(q) + Serve(v, q, 1));
  }

  /** From any state of a good run in which an attempt breaks its hypothesis, good
      events alone, if any are needed, put the ranges out of order. */
  lemma AttemptHypothesisNeeded(s: System, k: nat) returns (rest: seq<Event>)
    requires Agreement(s) && Order(s) && Enabled(s, Attempt(k)) && !AttemptOk(s, s.calls[k])
    ensures var t := Next(s, Attempt(k));
            GoodRun(t, rest) && !RangesInOrder(Run(t, rest).issued)
  {
    var c := s.calls[k];
    var g := GrantOf(s, c);
    var t := Next(s, Attempt(k));
    assert TookAt(s, c.r, g, t);
    assert t.issued[|s.issued|] == g;
    rest := [];
    if Fits(g) && forall j :: 0 <= j < |s.issued| ==> InOrder(s.issued[j], g) {
      assert ReplicaAgrees(s.log, s.replicas[c.r]);
      rest := LateBreaks(s, k, t);
    } else if j :| 0 <= j < |s.issued| && !InOrder(s.issued[j], g) {
      assert !InOrder(t.issued[j], t.issued[|s.issued|]);
    }
  }

  lemma LateBreaks(s: System, k: nat, t: System) returns (rest: seq<Event>)
    requires Agreement(s) && Order(s) && Enabled(s, Attempt(k)) && !AttemptOk(s, s.calls[k])
    requires var g := GrantOf(s, s.calls[k]);
             && Fits(g) && g.start.physical > 0
             && (forall j :: 0 <= j < |s.issued| ==> InOrder(s.issued[j], g))
             && TookAt(s, s.calls[k].r, g, t)
    ensures GoodRun(t, rest) && !Ordered(Run(t, rest).issued)
  {
    var c := s.calls[k];
    var g := GrantOf(s, c);
    hide Agreement, RangesOk, Ordered, Ranked, LeadersOk, Clear;
    var q :| 0 <= q < |s.replicas| && Leads(s.replicas[q]) && !Clear(s, s.replicas[q], g);
    assert q != c.r && g.epoch != s.replicas[q].epoch;
    hide Order;
    if g.epoch > s.replicas[q].epoch {
      var m := OldInTheWay(s, q, g);
      rest := InTheWayBreaks(s, c.r, g, t, q, m);
    } else {
      var m := NewInTheWay(s, q, g);
      if Reaches(s, q, m) {
        rest := InTheWayBreaks(s, c.r, g, t, q, m);
      } else {
        rest := TickBreaks(s, c.r, g, t, q);
      }
    }
  }

  // ---- if and only if

  /** Every range holds timestamps of one millisecond, and they are in order. */
  predicate RangesInOrder(issued: seq<Grant>) {
    (forall k :: 0 <= k < |issued| ==> Fits(issued[k])) && Ordered(issued)
  }

  /** Whatever good events follow, the ranges stay in order. */
  ghost predicate StaysOrdered(s: System) {
    forall rest :: GoodRun(s, rest) ==> RangesInOrder(Run(s, rest).issued)
  }

  lemma OrderedInOrder(s: System)
    requires Order(s)
    ensures RangesInOrder(s.issued)
  {
    hide Ordered, Ranked, LeadersOk, EpochsOk, CallsOk;
  }

  lemma OrderStays(s: System)
    requires Agreement(s) && Order(s)
    ensures StaysOrdered(s)
  {
    hide Agreement, Order, RangesInOrder, Run, GoodRun;
    forall rest | GoodRun(s, rest) ensures RangesInOrder(Run(s, rest).issued) {
      RunOrders(s, rest);
      OrderedInOrder(Run(s, rest));
    }
  }

  lemma InitOrders(n: nat)
    ensures Agreement(Init(n)) && Order(Init(n))
  {
  }

  lemma GoodStepStays(s: System, ev: Event)
    requires Agreement(s) && Order(s) && Good(s, ev)
    ensures StaysOrdered(Next(s, ev))
  {
    StepAgrees(s, ev);
    StepOrders(s, ev);
    hide Next, Agreement, Order, Good, StaysOrdered;
    OrderStays(Next(s, ev));
  }

  /** The hypothesis on a start is exact: at every state that a good run reaches,
      the ranges stay in order whatever follows if and only if it holds. */
  lemma StartClockExact(n: nat, before: seq<Event>, r: nat, now: int)
    requires GoodRun(Init(n), before) && Enabled(Run(Init(n), before), LeaderStart(r, now, true))
    ensures var s := Run(Init(n), before);
            StartClockOk(s, r, now) <==> StaysOrdered(Next(s, LeaderStart(r, now, true)))
  {
    var s := Run(Init(n), before);
    InitOrders(n);
    RunOrders(Init(n), before);
    hide Agreement, Order, Ordered, Run, GoodRun, Next, StartClockOk, Enabled;
    if StartClockOk(s, r, now) {
      GoodStepStays(s, LeaderStart(r, now, true));
    } else {
      var _ := StartHypothesisNeeded(s, r, now);
    }
  }

  /** Likewise for the timer. */
  lemma TimerClockExact(n: nat, before: seq<Event>, r: nat, now: int)
    requires GoodRun(Init(n), before) && Enabled(Run(Init(n), before), Timer(r, now))
    ensures var s := Run(Init(n), before);
            TimerClockOk(s.replicas[r], now) <==> StaysOrdered(Next(s, Timer(r, now)))
  {
    var s := Run(Init(n), before);
    InitOrders(n);
    RunOrders(Init(n), before);
    assert Enabled(s, Timer(r, now));
    hide Agreement, Order, Ordered, Run, GoodRun, Next, TimerClockOk;
    if TimerClockOk(s.replicas[r], now) {
      GoodStepStays(s, Timer(r, now));
    } else {
      TimerHypothesisNeeded(s, r, now);
    }
  }

  /** And for every attempt of every call, whatever its count and whatever has
      become of its replica since it was let in. */
  lemma AttemptExact(n: nat, before: seq<Event>, k: nat)
    requires GoodRun(Init(n), before) && Enabled(Run(Init(n), before), Attempt(k))
    ensures var s := Run(Init(n), before);
            AttemptOk(s, s.calls[k]) <==> StaysOrdered(Next(s, Attempt(k)))
  {
    var s := Run(Init(n), before);
    InitOrders(n);
    RunOrders(Init(n), before);
    assert Enabled(s, Attempt(k));
    hide Agreement, Order, Ordered, Run, GoodRun, Next, AttemptOk, RangesInOrder;
    if AttemptOk(s, s.calls[k]) {
      GoodStepStays(s, Attempt(k));
    } else {
      var _ := AttemptHypothesisNeeded(s, k);
    }
  }
}

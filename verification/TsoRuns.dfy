/** Runs of the timestamp oracle from the start, good up to their last steps, that
    hand out timestamps twice or out of order; and what a bad count does. */
module TsoRuns {
  import opened Wrappers
  import opened Words
  import opened Tso
  import opened TsoSystem
  import opened TsoOrder
  import opened TsoExact

  /** One replica in its first leadership. */
  function Solo(log: seq<Entry>, pending: Option<Entry>, obj: TsoObj, applied: nat,
                issued: seq<Grant>, calls: seq<Call>): System {
    System(log, pending, [Replica(obj, true, 1, applied)], 1, EMPTY, issued, calls)
  }

  const START := Entry(Update(Timestamp(1, 0), 4000), 1)
  const EMPTY := [Snapshot(0, 0)]

  function Moved(now: int): Entry {
    Entry(Update(Timestamp(now, 0), 4000), 1)
  }

  // ---- the timer

  /** A leader that started at clock 1000 and whose timer then read the given clock. */
  function SoloRun(now: int): seq<Event> {
    [LeaderStart(0, 1000, true), Timer(0, now), Commit, Apply(0)]
  }

  lemma SoloTo(now: int)
    requires 3 <= now <= 3998
    ensures GoodRun(Init(1), SoloRun(now))
    ensures Run(Init(1), SoloRun(now))
            == Solo([START, Moved(now)], None, TsoObj(Timestamp(now, 0), 4000), 2, [], [])
  {
    hide Run, GoodRun;
    var e := Moved(now);
    var s1 := Solo([START], None, TsoObj(Timestamp(1, 0), 4000), 1, [], []);
    var s2 := Solo([START], Some(e), TsoObj(Timestamp(1, 0), 4000), 1, [], []);
    var s3 := Solo([START, e], None, TsoObj(Timestamp(1, 0), 4000), 1, [], []);
    assert Next(Init(1), LeaderStart(0, 1000, true)) == s1;
    assert Next(s1, Timer(0, now)) == s2;
    assert Next(s2, Commit) == s3;
    RunThree(Init(1), LeaderStart(0, 1000, true), Timer(0, now), Commit);
    RunStep(Init(1), [LeaderStart(0, 1000, true), Timer(0, now), Commit], Apply(0));
    assert [LeaderStart(0, 1000, true), Timer(0, now), Commit] + [Apply(0)] == SoloRun(now);
  }

  /** A timer that reads 999 after one that read 1000, in a busy millisecond:
      the timestamp (1000, 0) is handed out twice. */
  lemma TimerGoesWrong()
    ensures var events := SoloRun(1000) + [Ask(0, 200000), Attempt(0)];
            var s := Run(Init(1), events);
            && GoodRun(Init(1), events)
            && Enabled(s, Timer(0, 999)) && !TimerClockOk(s.replicas[0], 999)
            && Run(Next(s, Timer(0, 999)), [Commit, Apply(0), Ask(0, 1), Attempt(1)]).issued
               == [Grant(1, Timestamp(1000, 0), 200000), Grant(1, Timestamp(1000, 0), 1)]
  {
    hide Run, GoodRun;
    SoloTo(1000);
    var s0 := Run(Init(1), SoloRun(1000));
    ServeGrants(s0, 0, 200000);
    GoodAppend(Init(1), SoloRun(1000), Serve(s0, 0, 200000));
    TimerRepeats(Served(s0, 0, 200000));
    hide TimerClockOk, Enabled, Next;
    assert Serve(s0, 0, 200000) == [Ask(0, 200000), Attempt(0)];
    assert Served(s0, 0, 200000)
        == Solo([START, Moved(1000)], None, TsoObj(Timestamp(1000, 200000), 4000), 2,
                [Grant(1, Timestamp(1000, 0), 200000)], [Call(0, 200000, 1, 0)]);
  }

  lemma TimerRepeats(s: System)
    requires s.log == [START, Moved(1000)] && s.pending.None? && s.epoch == 1
    requires s.replicas == [Replica(TsoObj(Timestamp(1000, 200000), 4000), true, 1, 2)] && |s.calls| == 1
    ensures Enabled(s, Timer(0, 999)) && !TimerClockOk(s.replicas[0], 999)
    ensures Run(Next(s, Timer(0, 999)), [Commit, Apply(0), Ask(0, 1), Attempt(1)]).issued
            == s.issued + [Grant(1, Timestamp(1000, 0), 1)]
  {
    hide Run, GoodRun;
    var s1 := Next(s, Timer(0, 999));
    assert s1 == s.(pending := Some(Moved(1000)));
    var s3 := Next(Next(s1, Commit), Apply(0));
    assert s3 == s.(log := [START, Moved(1000), Moved(1000)],
                    replicas := [Replica(TsoObj(Timestamp(1000, 0), 4000), true, 1, 3)]);
    RunTwo(s1, Commit, Apply(0));
    hide Next;
    ServeGrants(s3, 0, 1);
    GoodAppend(s1, [Commit, Apply(0)], Serve(s3, 0, 1));
    assert [Commit, Apply(0)] + Serve(s3, 0, 1) == [Commit, Apply(0), Ask(0, 1), Attempt(1)];
  }

  // ---- the start

  /** A replica that restarts from a snapshot forgets its current timestamp, and
      a clock that reads 1500 after 2000 was issued from is trusted. */
  lemma StartGoesWrong()
    ensures var events := SoloRun(2000) + [Ask(0, 1), Attempt(0)] + [SaveSnapshot(0), Restart(0, 1)];
            var s := Run(Init(1), events);
            && GoodRun(Init(1), events)
            && Enabled(s, LeaderStart(0, 1500, true)) && !StartClockOk(s, 0, 1500)
            && Run(Next(s, LeaderStart(0, 1500, true)), [Ask(0, 1), Attempt(1)]).issued
               == [Grant(1, Timestamp(2000, 0), 1), Grant(2, Timestamp(1500, 0), 1)]
  {
    hide Run, GoodRun;
    SoloTo(2000);
    var s0 := Run(Init(1), SoloRun(2000));
    ServeGrants(s0, 0, 1);
    GoodAppend(Init(1), SoloRun(2000), Serve(s0, 0, 1));
    var s1 := Served(s0, 0, 1);
    SoloRestarts(s1);
    RestartedRepeats(Run(s1, [SaveSnapshot(0), Restart(0, 1)]));
    hide StartClockOk, Enabled, Next;
    GoodAppend(Init(1), SoloRun(2000) + Serve(s0, 0, 1), [SaveSnapshot(0), Restart(0, 1)]);
    assert Serve(s0, 0, 1) == [Ask(0, 1), Attempt(0)];
  }

  lemma SoloRestarts(s: System)
    requires s == Solo([START, Moved(2000)], None, TsoObj(Timestamp(2000, 1), 4000), 2,
                       [Grant(1, Timestamp(2000, 0), 1)], [Call(0, 1, 1, 0)])
    ensures GoodRun(s, [SaveSnapshot(0), Restart(0, 1)])
    ensures Run(s, [SaveSnapshot(0), Restart(0, 1)])
            == s.(replicas := [Replica(TsoObj(Timestamp(0, 0), 4000), true, 0, 2)],
                  snapshots := [Snapshot(0, 0), Snapshot(2, 4000)])
  {
    hide Run, GoodRun;
    assert Next(s, SaveSnapshot(0)) == s.(snapshots := [Snapshot(0, 0), Snapshot(2, 4000)]);
    assert Dropped(s.calls, 0) == s.calls;
    RunTwo(s, SaveSnapshot(0), Restart(0, 1));
  }

  lemma RestartedRepeats(s: System)
    requires s.log == [START, Moved(2000)] && s.pending.None? && s.epoch == 1 && |s.calls| == 1
    requires s.replicas == [Replica(TsoObj(Timestamp(0, 0), 4000), true, 0, 2)]
    requires s.issued == [Grant(1, Timestamp(2000, 0), 1)]
    ensures Enabled(s, LeaderStart(0, 1500, true)) && !StartClockOk(s, 0, 1500)
    ensures Run(Next(s, LeaderStart(0, 1500, true)), [Ask(0, 1), Attempt(1)]).issued
            == [Grant(1, Timestamp(2000, 0), 1), Grant(2, Timestamp(1500, 0), 1)]
  {
    hide Run, GoodRun;
    assert s.issued[0].start.physical >= First(1500);
    var t := Next(s, LeaderStart(0, 1500, true));
    ServeGrants(t, 0, 1);
  }

  /** The entry a deposed leader has not applied: replica 1 takes over at clock
      2000 while replica 0 is still to apply its own proposal of 2000, and the
      timestamp (2000, 0) is handed out twice, although no clock went back. */
  lemma DeposedGoesWrong()
    ensures var events := [LeaderStart(0, 1000, true), Timer(0, 2000), Commit, Apply(1), Apply(1)];
            var s := Run(Init(2), events);
            && GoodRun(Init(2), events)
            && Enabled(s, LeaderStart(1, 2000, true)) && !StartClockOk(s, 1, 2000)
            && Run(Next(s, LeaderStart(1, 2000, true)), [Apply(0), Ask(0, 1), Attempt(0), Ask(1, 1), Attempt(1)]).issued
               == [Grant(1, Timestamp(2000, 0), 1), Grant(2, Timestamp(2000, 0), 1)]
  {
    hide Run, GoodRun;
    var leader := Replica(TsoObj(Timestamp(1, 0), 4000), true, 1, 1);
    var s1 := System([START], None, [leader, FRESH], 1, EMPTY, [], []);
    assert Next(Init(2), LeaderStart(0, 1000, true)) == s1;
    var s2 := Next(s1, Timer(0, 2000));
    assert s2 == s1.(pending := Some(Moved(2000)));
    var s3 := Next(s2, Commit);
    assert s3 == s1.(log := [START, Moved(2000)]);
    var s4 := Next(s3, Apply(1));
    assert s4 == s3.(replicas := [leader, Replica(TsoObj(Timestamp(1, 0), 4000), true, 0, 1)]);
    var s := Next(s4, Apply(1));
    assert s == s4.(replicas := [leader, Replica(TsoObj(Timestamp(2000, 0), 4000), true, 0, 2)]);
    DeposedRepeats(s);
    hide Next, Enabled, StartClockOk;
    RunThree(Init(2), LeaderStart(0, 1000, true), Timer(0, 2000), Commit);
    RunTwo(s3, Apply(1), Apply(1));
    GoodAppend(Init(2), [LeaderStart(0, 1000, true), Timer(0, 2000), Commit], [Apply(1), Apply(1)]);
    assert [LeaderStart(0, 1000, true), Timer(0, 2000), Commit] + [Apply(1), Apply(1)]
        == [LeaderStart(0, 1000, true), Timer(0, 2000), Commit, Apply(1), Apply(1)];
  }

  lemma DeposedRepeats(s: System)
    requires s == System([START, Moved(2000)], None,
                         [Replica(TsoObj(Timestamp(1, 0), 4000), true, 1, 1),
                          Replica(TsoObj(Timestamp(2000, 0), 4000), true, 0, 2)], 1, EMPTY, [], [])
    ensures Enabled(s, LeaderStart(1, 2000, true)) && !StartClockOk(s, 1, 2000)
    ensures Run(Next(s, LeaderStart(1, 2000, true)), [Apply(0), Ask(0, 1), Attempt(0), Ask(1, 1), Attempt(1)]).issued
            == [Grant(1, Timestamp(2000, 0), 1), Grant(2, Timestamp(2000, 0), 1)]
  {
    hide Run, GoodRun;
    assert !BoundedBy(s.log, s.replicas[0], First(2000)) && Leads(s.replicas[0]);
    var t := Next(s, LeaderStart(1, 2000, true));
    RunOne(t, Apply(0));
    var u := Next(t, Apply(0));
    assert u.replicas == [Replica(TsoObj(Timestamp(2000, 0), 4000), true, 1, 2),
                          Replica(TsoObj(Timestamp(2000, 0), 4000), true, 2, 3)];
    assert u.issued == [] && u.calls == [];
    hide Next;
    ServeBoth(u, 0, 1);
    GoodAppend(t, [Apply(0)], [Ask(0, 1), Attempt(0), Ask(1, 1), Attempt(1)]);
    assert [Apply(0)] + [Ask(0, 1), Attempt(0), Ask(1, 1), Attempt(1)]
        == [Apply(0), Ask(0, 1), Attempt(0), Ask(1, 1), Attempt(1)];
  }

  lemma ServeBoth(s: System, a: nat, b: nat)
    requires a < |s.replicas| && b < |s.replicas| && a != b && s.calls == []
    requires Leads(s.replicas[a]) && CanTake(s.replicas[a].obj, 1)
    requires Leads(s.replicas[b]) && CanTake(s.replicas[b].obj, 1)
    ensures Run(s, [Ask(a, 1), Attempt(0), Ask(b, 1), Attempt(1)]).issued
            == s.issued + [Grant(s.replicas[a].epoch, s.replicas[a].obj.current, 1),
                           Grant(s.replicas[b].epoch, s.replicas[b].obj.current, 1)]
  {
    hide Run, GoodRun;
    ServeGrants(s, a, 1);
    var t := Served(s, a, 1);
    ServeGrants(t, b, 1);
    GoodAppend(s, Serve(s, a, 1), Serve(t, b, 1));
    assert Serve(s, a, 1) + Serve(t, b, 1) == [Ask(a, 1), Attempt(0), Ask(b, 1), Attempt(1)];
  }

  // ---- a call that has outlived its leadership

  /** Replica 0 leads, uses up its millisecond, and lets a call in that has to wait. */
  function WaitRun(): seq<Event> {
    [LeaderStart(0, 1000, true), Apply(1)] + [Ask(0, 262143), Attempt(0)] + [Ask(0, 10), Attempt(1)]
  }

  /** It stops; replica 1 leads, and replica 0 applies what replica 1 proposed. */
  function HandOver(): seq<Event> {
    [LeaderStop(0), LeaderStart(1, 5000, true), Apply(0)]
  }

  lemma FirstOfTwo()
    ensures GoodRun(Init(2), [LeaderStart(0, 1000, true), Apply(1)])
    ensures Run(Init(2), [LeaderStart(0, 1000, true), Apply(1)])
            == System([START], None,
                      [Replica(TsoObj(Timestamp(1, 0), 4000), true, 1, 1),
                       Replica(TsoObj(Timestamp(1, 0), 4000), true, 0, 1)], 1, EMPTY, [], [])
  {
    hide Run, GoodRun;
    var s1 := Next(Init(2), LeaderStart(0, 1000, true));
    var leader := Replica(TsoObj(Timestamp(1, 0), 4000), true, 1, 1);
    assert s1 == System([START], None, [leader, FRESH], 1, EMPTY, [], []);
    var s2 := Next(s1, Apply(1));
    assert s2 == s1.(replicas := [leader, Replica(TsoObj(Timestamp(1, 0), 4000), true, 0, 1)]);
    RunTwo(Init(2), LeaderStart(0, 1000, true), Apply(1));
  }

  lemma Waits()
    ensures GoodRun(Init(2), WaitRun())
    ensures Run(Init(2), WaitRun())
            == System([START], None,
                      [Replica(TsoObj(Timestamp(1, 262143), 4000), true, 1, 1),
                       Replica(TsoObj(Timestamp(1, 0), 4000), true, 0, 1)], 1, EMPTY,
                      [Grant(1, Timestamp(1, 0), 262143)],
                      [Call(0, 262143, 1, 0), Call(0, 10, 1, GEN_RETRIES - 1)])
  {
    hide Run, GoodRun, Next;
    FirstOfTwo();
    var s2 := Run(Init(2), [LeaderStart(0, 1000, true), Apply(1)]);
    ServeGrants(s2, 0, 262143);
    var s3 := Served(s2, 0, 262143);
    FailsOnce(s3);
    assert Serve(s2, 0, 262143) == [Ask(0, 262143), Attempt(0)];
    GoodAppend(Init(2), [LeaderStart(0, 1000, true), Apply(1)], [Ask(0, 262143), Attempt(0)]);
    GoodAppend(Init(2), [LeaderStart(0, 1000, true), Apply(1)] + [Ask(0, 262143), Attempt(0)], [Ask(0, 10), Attempt(1)]);
  }

  lemma FailsOnce(s: System)
    requires |s.replicas| == 2 && |s.calls| == 1 && Leads(s.replicas[0]) && s.replicas[0].epoch == 1
    requires s.replicas[0].obj.current.logical == 262143
    ensures GoodRun(s, [Ask(0, 10), Attempt(1)])
    ensures Run(s, [Ask(0, 10), Attempt(1)]) == s.(calls := s.calls + [Call(0, 10, 1, GEN_RETRIES - 1)])
  {
    hide Run, GoodRun;
    var t := Next(s, Ask(0, 10));
    assert t == s.(calls := s.calls + [Call(0, 10, 1, GEN_RETRIES)]);
    assert !CanTake(s.replicas[0].obj, 10);
    assert t.calls[1 := Call(0, 10, 1, GEN_RETRIES - 1)] == s.calls + [Call(0, 10, 1, GEN_RETRIES - 1)];
    RunTwo(s, Ask(0, 10), Attempt(1));
  }

  lemma HandsOver(s: System)
    requires s.log == [START] && s.pending.None? && s.epoch == 1
    requires s.replicas == [Replica(TsoObj(Timestamp(1, 262143), 4000), true, 1, 1),
                            Replica(TsoObj(Timestamp(1, 0), 4000), true, 0, 1)]
    ensures GoodRun(s, HandOver())
    ensures var t := Run(s, HandOver());
            && t.replicas == [Replica(TsoObj(Timestamp(4001, 0), 8000), true, 0, 2),
                              Replica(TsoObj(Timestamp(4001, 0), 8000), true, 2, 2)]
            && t.issued == s.issued && t.calls == s.calls && t.epoch == 2
  {
    hide Run, GoodRun;
    var s1 := Next(s, LeaderStop(0));
    var s2 := Next(s1, LeaderStart(1, 5000, true));
    assert PastWindow(4000, 5000);
    RunThree(s, LeaderStop(0), LeaderStart(1, 5000, true), Apply(0));
  }

  /** A call that replica 0 let in as leader is still waiting when replica 0 has
      stopped and holds what the next leader proposed: (4001, 0) to (4001, 9),
      just issued by that leader, are handed out again. */
  lemma LateCallGoesWrong()
    ensures var events := WaitRun() + HandOver() + [Ask(1, 10), Attempt(2)];
            var s := Run(Init(2), events);
            && GoodRun(Init(2), events)
            && Enabled(s, Attempt(1)) && !AttemptOk(s, s.calls[1])
            && Next(s, Attempt(1)).issued
               == [Grant(1, Timestamp(1, 0), 262143), Grant(2, Timestamp(4001, 0), 10), Grant(1, Timestamp(4001, 0), 10)]
  {
    hide Run, GoodRun;
    Waits();
    var s0 := Run(Init(2), WaitRun());
    HandsOver(s0);
    var s1 := Run(s0, HandOver());
    ServeGrants(s1, 1, 10);
    LateRepeats(Served(s1, 1, 10));
    hide Next, AttemptOk, Enabled;
    GoodAppend(Init(2), WaitRun(), HandOver());
    assert Serve(s1, 1, 10) == [Ask(1, 10), Attempt(2)];
    GoodAppend(Init(2), WaitRun() + HandOver(), [Ask(1, 10), Attempt(2)]);
  }

  lemma LateRepeats(s: System)
    requires |s.replicas| == 2 && s.replicas[0] == Replica(TsoObj(Timestamp(4001, 0), 8000), true, 0, 2)
    requires s.issued == [Grant(1, Timestamp(1, 0), 262143), Grant(2, Timestamp(4001, 0), 10)]
    requires |s.calls| == 3 && s.calls[1] == Call(0, 10, 1, GEN_RETRIES - 1)
    ensures Enabled(s, Attempt(1)) && !AttemptOk(s, s.calls[1])
    ensures Next(s, Attempt(1)).issued == s.issued + [Grant(1, Timestamp(4001, 0), 10)]
  {
    assert !InOrder(s.issued[1], GrantOf(s, s.calls[1]));
  }

  /** Not every late call does harm: one that its replica answers after it stopped,
      while it still holds its own timestamp, may be in nobody's way. */
  lemma LateCallMayBeGood()
    ensures var events := [LeaderStart(0, 1000, true), Ask(0, 10)] + [LeaderStop(0), Attempt(0)];
            GoodRun(Init(1), events) && Run(Init(1), events).issued == [Grant(1, Timestamp(1, 0), 10)]
  {
    hide Run, GoodRun;
    var s1 := Next(Init(1), LeaderStart(0, 1000, true));
    assert s1 == Solo([START], None, TsoObj(Timestamp(1, 0), 4000), 1, [], []);
    var s2 := Next(s1, Ask(0, 10));
    assert s2 == s1.(calls := [Call(0, 10, 1, GEN_RETRIES)]);
    var s3 := Next(s2, LeaderStop(0));
    assert s3 == s2.(replicas := [Replica(TsoObj(Timestamp(1, 0), 4000), true, 0, 1)]);
    assert Good(s3, Attempt(0)) && Next(s3, Attempt(0)).issued == [Grant(1, Timestamp(1, 0), 10)];
    hide Next;
    RunTwo(Init(1), LeaderStart(0, 1000, true), Ask(0, 10));
    RunTwo(s2, LeaderStop(0), Attempt(0));
    GoodAppend(Init(1), [LeaderStart(0, 1000, true), Ask(0, 10)], [LeaderStop(0), Attempt(0)]);
  }

  // ---- counts

  /** A count whose sum overflows is granted, and the next range starts below 0. */
  lemma OverflowBreaks(s: System, r: nat, count: Int64)
    requires r < |s.replicas| && Leads(s.replicas[r]) && s.replicas[r].obj.current.physical != 0
    requires LogicalOk(s.replicas[r].obj.current) && s.replicas[r].obj.current.logical + count >= INT64_END
    ensures var x := s.replicas[r];
            var start := Timestamp(x.obj.current.physical, x.obj.current.logical + count - TWO_64);
            && start.logical < 0
            && Run(s, [Ask(r, count), Attempt(|s.calls|), Ask(r, 1), Attempt(|s.calls| + 1)]).issued
               == s.issued + [Grant(x.epoch, x.obj.current, count), Grant(x.epoch, start, 1)]
  {
    hide Run, GoodRun;
    var sum := s.replicas[r].obj.current.logical + count;
    assert IsInt64(count);
    WrapOver(sum);
    ServeGrants(s, r, count);
    var t := Served(s, r, count);
    assert WrapInt64(sum - TWO_64 + 1) == sum - TWO_64 + 1;
    ServeGrants(t, r, 1);
    GoodAppend(s, Serve(s, r, count), Serve(t, r, 1));
    assert Serve(s, r, count) + Serve(t, r, 1)
        == [Ask(r, count), Attempt(|s.calls|), Ask(r, 1), Attempt(|s.calls| + 1)];
  }

  /** gen_tso refuses only the count 0: a negative count lets a range come back. */
  lemma NegativeCountRepeats(s: System, r: nat)
    requires r < |s.replicas| && Leads(s.replicas[r]) && s.replicas[r].obj.current.physical != 0
    requires -INT64_END <= s.replicas[r].obj.current.logical < MAX_LOGICAL - 1
    ensures var n := |s.calls|;
            var issued := Run(s, [Ask(r, 1), Attempt(n), Ask(r, -1), Attempt(n + 1), Ask(r, 1), Attempt(n + 2)]).issued;
            |issued| == |s.issued| + 3 && issued[|s.issued|] == issued[|s.issued| + 2]
  {
    hide Run, GoodRun;
    var n := |s.calls|;
    ServeGrants(s, r, 1);
    var t := Served(s, r, 1);
    ServeGrants(t, r, -1);
    var u := Served(t, r, -1);
    assert u.replicas[r].obj == s.replicas[r].obj;
    ServeGrants(u, r, 1);
    GoodAppend(s, Serve(s, r, 1), Serve(t, r, -1));
    GoodAppend(s, Serve(s, r, 1) + Serve(t, r, -1), Serve(u, r, 1));
    assert Serve(s, r, 1) + Serve(t, r, -1) + Serve(u, r, 1)
        == [Ask(r, 1), Attempt(n), Ask(r, -1), Attempt(n + 1), Ask(r, 1), Attempt(n + 2)];
  }

  /** An unforced reset that is accepted can rewind the logical part. */
  lemma ResetRewinds(o: TsoObj, count: Int64)
    requires CanTake(o, count) && count > 0 && o.current.logical >= 0
    ensures var u := Update(o.current, o.lastSave);
            && Accepts(Take(o, count), u)
            && Install(u) == o
  {
  }
}

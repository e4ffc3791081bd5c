/** What all replicas of the timestamp oracle agree on, in every run and with no
    hypothesis on clocks, counts or late calls; and how a replica that loads a
    snapshot catches up. */
module TsoAgreement {
  import opened Wrappers
  import opened Words
  import opened Tso
  import opened TsoSystem

  /** The oracle of a replica that applied the first i entries and never restarted. */
  function FullLog(log: seq<Entry>, i: nat): TsoObj
    requires i <= |log|
  {
    if i == 0 then INIT_OBJ else ApplyUpdate(FullLog(log, i - 1), log[i - 1].update)
  }

  /** What makes an entry decide the same lastSave everywhere: it either repeats
      the window or moves it from beyond every timestamp in use. */
  predicate GoodUpdate(u: Update, save: int) {
    && u.current.logical == 0
    && u.current.physical + 2 <= u.savePhysical
    && (u.savePhysical == save
        || (u.savePhysical > save && u.current.physical >= save - 1 && u.current.physical >= 0))
  }

  /** current stays at least two milliseconds inside the saved window. */
  predicate Windowed(o: TsoObj) {
    && 0 <= o.lastSave
    && (o.current.physical == 0 || 0 < o.current.physical <= o.lastSave - 2)
  }

  predicate FromLog(log: seq<Entry>, physical: int) {
    exists i :: 0 <= i < |log| && log[i].update.current.physical == physical
  }

  ghost predicate ReplicaAgrees(log: seq<Entry>, x: Replica) {
    && x.applied <= |log|
    && Windowed(x.obj)
    && (x.obj.current.logical > 0 ==> x.obj.current.physical > 0)
    && x.obj.lastSave == FullLog(log, x.applied).lastSave
    && x.obj.current.physical <= FullLog(log, x.applied).current.physical
    && (x.obj.current.physical == 0 || FromLog(log, x.obj.current.physical))
  }

  predicate GoodAt(log: seq<Entry>, i: nat)
    requires i < |log|
  {
    GoodUpdate(log[i].update, FullLog(log, i).lastSave)
  }

  ghost predicate LogGood(log: seq<Entry>) {
    forall i {:trigger GoodAt(log, i)} :: 0 <= i < |log| ==> GoodAt(log, i)
  }

  ghost predicate Agreement(s: System) {
    && LogGood(s.log)
    && (s.pending.Some? ==> GoodUpdate(s.pending.value.update, FullLog(s.log, |s.log|).lastSave))
    && (forall r :: 0 <= r < |s.replicas| ==> ReplicaAgrees(s.log, s.replicas[r]))
    && (forall i :: 0 <= i < |s.snapshots| ==>
          s.snapshots[i].index <= |s.log|
          && s.snapshots[i].save == FullLog(s.log, s.snapshots[i].index).lastSave)
    && (forall k :: 0 <= k < |s.issued| ==>
          FromLog(s.log, s.issued[k].start.physical)
          && 0 < s.issued[k].start.physical <= FullLog(s.log, |s.log|).lastSave - 2)
  }

  lemma {:induction false} FullLogPrefix(log: seq<Entry>, e: Entry, i: nat)
    requires i <= |log|
    ensures FullLog(log + [e], i) == FullLog(log, i)
  {
    if i > 0 {
      FullLogPrefix(log, e, i - 1);
    }
  }

  lemma {:induction false} FullLogWindowed(log: seq<Entry>, i: nat)
    requires LogGood(log) && i <= |log|
    ensures Windowed(FullLog(log, i))
  {
    if i > 0 {
      FullLogWindowed(log, i - 1);
      assert GoodAt(log, i - 1);
    }
  }

  lemma {:induction false} FullLogGrows(log: seq<Entry>, i: nat, j: nat)
    requires i <= j <= |log|
    ensures FullLog(log, i).lastSave <= FullLog(log, j).lastSave
    ensures FullLog(log, i).current.physical <= FullLog(log, j).current.physical
  {
    if i < j {
      FullLogGrows(log, i, j - 1);
    }
  }

  /** A good entry is accepted or refused alike as far as lastSave is concerned,
      and a replica below the full-log one stays below it. */
  lemma GoodUpdateAgrees(full: TsoObj, o: TsoObj, u: Update)
    requires Windowed(full) && Windowed(o) && GoodUpdate(u, full.lastSave)
    requires o.lastSave == full.lastSave && o.current.physical <= full.current.physical
    ensures Windowed(ApplyUpdate(o, u))
    ensures ApplyUpdate(o, u).lastSave == ApplyUpdate(full, u).lastSave == u.savePhysical
    ensures ApplyUpdate(o, u).current.physical <= ApplyUpdate(full, u).current.physical
    ensures Accepts(full, u) ==> Accepts(o, u)
  {
  }

  /** Proposals: computed against a windowed state they are good updates, leave
      two milliseconds of room, never lower the window, and the branch that
      jumps past the window is never refused. */
  lemma StartProposalGood(o: TsoObj, now: int)
    requires Windowed(o)
    ensures var u := StartProposal(o.lastSave, now);
            && GoodUpdate(u, o.lastSave) && o.lastSave <= u.savePhysical
            && (PastWindow(o.lastSave, now) ==> Accepts(o, u) && o.current.physical < u.current.physical)
  {
  }

  lemma TimerProposalGood(o: TsoObj, now: int)
    requires Windowed(o) && (o.current.logical > 0 ==> o.current.physical > 0)
    requires TimerProposal(o, now).Some?
    ensures var u := TimerProposal(o, now).value;
            GoodUpdate(u, o.lastSave) && o.lastSave <= u.savePhysical
  {
  }

  /** Whatever has happened before: a new leader proposes its clock, within the
      window as it is, exactly if that leaves 50 ms of the window; otherwise it
      starts just past the window and asks for one of 3000 ms from its clock. */
  lemma LeaderStartProposes(s: System, r: nat, now: int, committed: bool)
    requires Enabled(s, LeaderStart(r, now, committed))
    ensures var t := Next(s, LeaderStart(r, now, committed));
            var save := s.replicas[r].obj.lastSave;
            && (if committed then |t.log| == |s.log| + 1 && t.pending == s.pending else t.pending.Some? && t.log == s.log)
            && var u := if committed then t.log[|s.log|].update else t.pending.value.update;
            && u.current.logical == 0 && u.savePhysical >= u.current.physical + 50
            && (u.current.physical == now && u.savePhysical == save <==> save - now >= 50)
            && (save - now < 50 ==> u.current.physical == save + 1 && u.savePhysical == now + 3000)
            && (committed && save - now < 50 && Windowed(s.replicas[r].obj) ==>
                  t.replicas[r].obj == TsoObj(u.current, u.savePhysical))
  {
  }

  /** The new leader serves a leadership that nobody has served; it is healthy if it
      was and its proposal came back accepted. */
  lemma LeaderStartServes(s: System, r: nat, now: int, committed: bool)
    requires Enabled(s, LeaderStart(r, now, committed))
    ensures var x, t := s.replicas[r], Next(s, LeaderStart(r, now, committed));
            && |t.replicas| == |s.replicas| && t.epoch == s.epoch + 1 && t.replicas[r].epoch == t.epoch
            && (!committed ==> !t.replicas[r].healthy && t.replicas[r].obj == x.obj && t.replicas[r].applied == x.applied)
            && (committed ==>
                  var u := t.log[|s.log|].update;
                  var accepted := u.savePhysical >= x.obj.lastSave && u.current.physical >= x.obj.current.physical;
                  && (t.replicas[r].healthy <==> x.healthy && accepted)
                  && t.replicas[r].obj == (if accepted then TsoObj(u.current, u.savePhysical) else x.obj)
                  && t.replicas[r].applied == |t.log|)
            && forall q :: 0 <= q < |s.replicas| && q != r ==> t.replicas[q] == s.replicas[q]
  {
  }

  /** Applying an entry installs it whole, unless one of its two physical parts is
      strictly smaller: then only the applied index moves. */
  lemma ApplyInstalls(s: System, r: nat)
    requires Enabled(s, Apply(r))
    ensures var x, t := s.replicas[r], Next(s, Apply(r));
            var u := s.log[x.applied].update;
            var accepted := u.savePhysical >= x.obj.lastSave && u.current.physical >= x.obj.current.physical;
            t == s.(replicas := s.replicas[r := x.(applied := x.applied + 1,
                      obj := if accepted then TsoObj(u.current, u.savePhysical) else x.obj)])
  {
  }

  /** Only the window and the applied index reach a snapshot; a restart brings back
      those two, a healthy follower and no call; a snapshot that is installed brings
      them to a follower that keeps its current timestamp, its health and its calls. */
  lemma SnapshotsCarryTheWindow(s: System, r: nat, i: nat)
    requires r < |s.replicas| && i < |s.snapshots|
    ensures var x := s.replicas[r];
            && Next(s, SaveSnapshot(r)) == s.(snapshots := s.snapshots + [Snapshot(x.applied, x.obj.lastSave)])
            && (var t := Next(s, Restart(r, i));
                && t == s.(replicas := t.replicas, calls := t.calls)
                && t.replicas == s.replicas[r :=
                     Replica(TsoObj(Timestamp(0, 0), s.snapshots[i].save), true, 0, s.snapshots[i].index)]
                && |t.calls| == |s.calls|
                && forall k :: 0 <= k < |s.calls| ==>
                     t.calls[k] == if s.calls[k].r == r then s.calls[k].(left := 0) else s.calls[k])
            && (x.epoch == 0 && x.applied < s.snapshots[i].index ==>
                  Next(s, InstallSnapshot(r, i)) == s.(replicas := s.replicas[r :=
                    Replica(TsoObj(x.obj.current, s.snapshots[i].save), x.healthy, 0, s.snapshots[i].index)]))
  {
  }

  /** What the timer of the leader in office puts on its way: nothing while its
      clock has not moved on by more than a millisecond and no more than half of
      the logical part is used; otherwise a move to the clock, or one millisecond
      past it, that leaves at least two milliseconds of the window. */
  lemma TimerProposes(s: System, r: nat, now: int)
    requires Enabled(s, Timer(r, now))
    ensures var t := Next(s, Timer(r, now));
            var o := s.replicas[r].obj;
            && (t == s <==> now <= o.current.physical + 1 && o.current.logical <= 131072)
            && (t != s ==>
                  && t == s.(pending := t.pending) && t.pending.Some?
                  && var u := t.pending.value.update;
                  && u.current == Timestamp(if now > o.current.physical + 1 then now else now + 1, 0)
                  && (o.lastSave - u.current.physical >= 2 ==> u.savePhysical == o.lastSave)
                  && (o.lastSave - u.current.physical < 2 ==> u.savePhysical == u.current.physical + 3000))
  {
  }

  lemma AppendAgrees(s: System, e: Entry)
    requires Agreement(s) && GoodUpdate(e.update, FullLog(s.log, |s.log|).lastSave)
    ensures Agreement(s.(log := s.log + [e], pending := None))
  {
    var log' := s.log + [e];
    forall i | 0 <= i <= |s.log| ensures FullLog(log', i) == FullLog(s.log, i) {
      FullLogPrefix(s.log, e, i);
    }
    forall i | 0 <= i < |log'| ensures GoodAt(log', i) {
      if i < |s.log| {
        assert GoodAt(s.log, i);
      }
    }
    FullLogGrows(log', |s.log|, |log'|);
    forall p | FromLog(s.log, p) ensures FromLog(log', p) {
      var i :| 0 <= i < |s.log| && s.log[i].update.current.physical == p;
      assert log'[i] == s.log[i];
    }
  }

  lemma ApplyAgrees(log: seq<Entry>, x: Replica)
    requires LogGood(log) && ReplicaAgrees(log, x) && x.applied < |log|
    ensures ReplicaAgrees(log, x.(obj := ApplyUpdate(x.obj, log[x.applied].update), applied := x.applied + 1))
  {
    FullLogWindowed(log, x.applied);
    assert GoodAt(log, x.applied);
    GoodUpdateAgrees(FullLog(log, x.applied), x.obj, log[x.applied].update);
  }

  lemma LeaderStartAgrees(s: System, r: nat, now: int, committed: bool)
    requires Agreement(s) && Enabled(s, LeaderStart(r, now, committed))
    ensures Agreement(DoLeaderStart(s, r, now, committed))
  {
    var x := s.replicas[r];
    var e := Entry(StartProposal(x.obj.lastSave, now), s.epoch + 1);
    StartProposalGood(x.obj, now);
    if committed {
      AppendAgrees(s, e);
      var t := s.(log := s.log + [e], pending := None);
      ApplyAgrees(t.log, x);
      assert DoLeaderStart(s, r, now, committed).replicas[r].obj == ApplyUpdate(x.obj, e.update);
    }
  }

  lemma RestoreAgrees(s: System, x: Replica, i: nat)
    requires Agreement(s) && i < |s.snapshots| && ReplicaAgrees(s.log, x)
    ensures ReplicaAgrees(s.log, Replica(TsoObj(Timestamp(0, 0), s.snapshots[i].save), true, 0, s.snapshots[i].index))
    ensures x.applied < s.snapshots[i].index ==>
              ReplicaAgrees(s.log, x.(obj := x.obj.(lastSave := s.snapshots[i].save), applied := s.snapshots[i].index))
  {
    FullLogWindowed(s.log, s.snapshots[i].index);
    if x.applied < s.snapshots[i].index {
      FullLogGrows(s.log, x.applied, s.snapshots[i].index);
    }
  }

  lemma PutAgrees(s: System, r: nat, x: Replica)
    requires Agreement(s) && r < |s.replicas| && ReplicaAgrees(s.log, x)
    ensures Agreement(Put(s, r, x))
  {
    hide ReplicaAgrees, LogGood, GoodUpdate, FromLog, FullLog;
  }

  lemma TakeAgrees(log: seq<Entry>, x: Replica, count: Int64)
    requires ReplicaAgrees(log, x) && CanTake(x.obj, count)
    ensures ReplicaAgrees(log, x.(obj := Take(x.obj, count)))
    ensures FromLog(log, x.obj.current.physical) && 0 < x.obj.current.physical <= x.obj.lastSave - 2
  {
  }

  lemma AttemptAgrees(s: System, k: nat)
    requires Agreement(s) && Enabled(s, Attempt(k))
    ensures Agreement(DoAttempt(s, k))
  {
    var c := s.calls[k];
    var x := s.replicas[c.r];
    if CanTake(x.obj, c.count) {
      FullLogGrows(s.log, x.applied, |s.log|);
      TakeAgrees(s.log, x, c.count);
      PutAgrees(s, c.r, x.(obj := Take(x.obj, c.count)));
    }
    hide LogGood, GoodUpdate, ReplicaAgrees, FromLog;
  }

  /** Stopping a leader, taking a snapshot, letting a call in. */
  lemma QuietAgrees(s: System, r: nat)
    requires Agreement(s) && r < |s.replicas|
    ensures Agreement(Put(s, r, s.replicas[r].(epoch := 0)))
    ensures Agreement(Next(s, SaveSnapshot(r)))
    ensures forall count: Int64 :: Agreement(Next(s, Ask(r, count)))
  {
    var x := s.replicas[r];
    assert ReplicaAgrees(s.log, x) && ReplicaAgrees(s.log, x.(epoch := 0));
    PutAgrees(s, r, x.(epoch := 0));
    hide LogGood, GoodUpdate, FromLog;
  }

  lemma TimerAgrees(s: System, r: nat, now: int)
    requires Agreement(s) && Enabled(s, Timer(r, now))
    ensures Agreement(DoTimer(s, r, now))
  {
    assert ReplicaAgrees(s.log, s.replicas[r]);
    hide LogGood, FromLog;
    if TimerProposal(s.replicas[r].obj, now).Some? {
      TimerProposalGood(s.replicas[r].obj, now);
    }
  }

  lemma CallsAside(s: System, t: System)
    requires Agreement(s) && t == s.(calls := t.calls)
    ensures Agreement(t)
  {
    hide ReplicaAgrees, LogGood, GoodUpdate, FromLog, FullLog;
  }

  lemma StepAgrees(s: System, ev: Event)
    requires Agreement(s)
    ensures Agreement(Next(s, ev))
  {
    hide ReplicaAgrees, LogGood, GoodUpdate, FromLog, FullLog, DoLeaderStart, DoTimer, DoAttempt;
    if Enabled(s, ev) {
      match ev
      case LeaderStart(r, now, committed) => LeaderStartAgrees(s, r, now, committed);
      case LeaderStop(r) => QuietAgrees(s, r);
      case Timer(r, now) => TimerAgrees(s, r, now);
      case Commit => AppendAgrees(s, s.pending.value);
      case Lose =>
      case Apply(r) =>
        ApplyAgrees(s.log, s.replicas[r]);
        PutAgrees(s, r, DoApply(s, r).replicas[r]);
      case Ask(r, _) => QuietAgrees(s, r);
      case Attempt(k) => AttemptAgrees(s, k);
      case SaveSnapshot(r) => QuietAgrees(s, r);
      case Restart(r, i) =>
        RestoreAgrees(s, s.replicas[r], i);
        PutAgrees(s, r, Next(s, ev).replicas[r]);
        CallsAside(Put(s, r, Next(s, ev).replicas[r]), Next(s, ev));
      case InstallSnapshot(r, i) =>
        RestoreAgrees(s, s.replicas[r], i);
        PutAgrees(s, r, Next(s, ev).replicas[r]);
    }
  }

  lemma {:induction false} RunAgrees(s: System, events: seq<Event>)
    requires Agreement(s)
    ensures Agreement(Run(s, events))
    decreases |events|
  {
    if events != [] {
      StepAgrees(s, events[0]);
      RunAgrees(Next(s, events[0]), events[1..]);
    }
  }

  /** In every run whatsoever: replicas at one applied index agree on lastSave
      with each other and with a replica that never restarted, none is ahead of
      the latter, and every timestamp in use stays inside the saved window. */
  lemma ReplicasAgree(n: nat, events: seq<Event>)
    ensures var s := Run(Init(n), events);
            && (forall a, b :: 0 <= a < |s.replicas| && 0 <= b < |s.replicas|
                  && s.replicas[a].applied == s.replicas[b].applied
                  ==> s.replicas[a].obj.lastSave == s.replicas[b].obj.lastSave)
            && (forall a :: 0 <= a < |s.replicas| ==>
                  s.replicas[a].applied <= |s.log|
                  && s.replicas[a].obj.lastSave == FullLog(s.log, s.replicas[a].applied).lastSave
                  && s.replicas[a].obj.current.physical <= FullLog(s.log, s.replicas[a].applied).current.physical
                  && (s.replicas[a].obj.current.physical == 0
                      || s.replicas[a].obj.current.physical + 2 <= s.replicas[a].obj.lastSave))
  {
    RunAgrees(Init(n), events);
  }

  predicate LogicalSmall(s: System) {
    forall r :: 0 <= r < |s.replicas| ==> s.replicas[r].obj.current.logical < MAX_LOGICAL
  }

  lemma StepLogicalSmall(s: System, ev: Event)
    requires Agreement(s) && LogicalSmall(s)
    ensures LogicalSmall(Next(s, ev))
  {
    if Enabled(s, ev) && ev.Apply? {
      assert GoodAt(s.log, s.replicas[ev.r].applied);
    }
    hide Agreement;
  }

  lemma {:induction false} RunLogicalSmall(s: System, events: seq<Event>)
    requires Agreement(s) && LogicalSmall(s)
    ensures LogicalSmall(Run(s, events))
    decreases |events|
  {
    if events != [] {
      StepAgrees(s, events[0]);
      StepLogicalSmall(s, events[0]);
      hide Agreement, LogicalSmall;
      RunLogicalSmall(Next(s, events[0]), events[1..]);
    }
  }

  /** In every run, with counts of either sign, the logical part fits its 18 bits from above. */
  lemma LogicalFits(n: nat, events: seq<Event>)
    ensures var s := Run(Init(n), events);
            forall r :: 0 <= r < |s.replicas| ==> s.replicas[r].obj.current.logical < 0x4_0000
  {
    RunLogicalSmall(Init(n), events);
  }

  /** A node whose window came from the snapshot at index i, while its current
      timestamp was c, after replaying up to j. */
  function Restored(log: seq<Entry>, c: Timestamp, i: nat, j: nat): TsoObj
    requires i <= j <= |log|
  {
    if i == j then TsoObj(c, FullLog(log, i).lastSave)
    else ApplyUpdate(Restored(log, c, i, j - 1), log[j - 1].update)
  }

  /** A snapshot can be loaded under current c: what every run guarantees. */
  predicate Loadable(log: seq<Entry>, c: Timestamp, i: nat) {
    && i <= |log|
    && Windowed(TsoObj(c, FullLog(log, i).lastSave))
    && c.physical <= FullLog(log, i).current.physical
  }

  /** The restored node never gets ahead, and from the first entry that the
      full-log replica accepts the two are identical. */
  lemma {:induction false} RestoredConverges(log: seq<Entry>, c: Timestamp, i: nat, j: nat)
    requires LogGood(log) && i <= j <= |log| && Loadable(log, c, i)
    ensures Windowed(Restored(log, c, i, j))
    ensures Restored(log, c, i, j).lastSave == FullLog(log, j).lastSave
    ensures Restored(log, c, i, j).current.physical <= FullLog(log, j).current.physical
    ensures (exists k :: i <= k < j && Accepts(FullLog(log, k), log[k].update)) ==>
              Restored(log, c, i, j) == FullLog(log, j)
  {
    FullLogWindowed(log, j);
    if i < j {
      FullLogWindowed(log, j - 1);
      RestoredConverges(log, c, i, j - 1);
      assert GoodAt(log, j - 1);
      GoodUpdateAgrees(FullLog(log, j - 1), Restored(log, c, i, j - 1), log[j - 1].update);
    }
  }

  lemma {:induction false} RestoredPrefix(log: seq<Entry>, e: Entry, c: Timestamp, i: nat, j: nat)
    requires i <= j <= |log|
    ensures Restored(log + [e], c, i, j) == Restored(log, c, i, j)
  {
    FullLogPrefix(log, e, i);
    if i < j {
      RestoredPrefix(log, e, c, i, j - 1);
    }
  }

  predicate SameExceptLogical(a: TsoObj, b: TsoObj) {
    a.lastSave == b.lastSave && a.current.physical == b.current.physical
  }

  /** Replica r is what replaying from index i makes of it; exactly so when it
      has granted nothing since. */
  ghost predicate Tracks(s: System, r: nat, c: Timestamp, i: nat, exact: bool) {
    && r < |s.replicas|
    && i <= s.replicas[r].applied <= |s.log|
    && Loadable(s.log, c, i)
    && var replayed := Restored(s.log, c, i, s.replicas[r].applied);
       SameExceptLogical(s.replicas[r].obj, replayed) && (exact ==> s.replicas[r].obj == replayed)
  }

  predicate Reloads(ev: Event, r: nat) {
    (ev.Restart? || ev.InstallSnapshot?) && ev.r == r
  }

  /** The event is an attempt that takes its range from replica r. */
  predicate Grants(s: System, ev: Event, r: nat) {
    ev.Attempt? && Enabled(s, ev) && s.calls[ev.k].r == r && CanTake(s.replicas[r].obj, s.calls[ev.k].count)
  }

  /** r loads no snapshot, and, if so asked, grants nothing. */
  predicate Undisturbed(s: System, events: seq<Event>, r: nat, exact: bool)
    decreases |events|
  {
    events == []
    || (!Reloads(events[0], r) && (exact ==> !Grants(s, events[0], r))
        && Undisturbed(Next(s, events[0]), events[1..], r, exact))
  }

  lemma LogTracks(s: System, t: System, e: Entry, r: nat, c: Timestamp, i: nat, exact: bool)
    requires Tracks(s, r, c, i, exact) && |t.replicas| == |s.replicas| && t.replicas[r] == s.replicas[r]
    requires t.log == s.log || t.log == s.log + [e]
    ensures Tracks(t, r, c, i, exact)
  {
    FullLogPrefix(s.log, e, i);
    RestoredPrefix(s.log, e, c, i, s.replicas[r].applied);
    hide Restored, FullLog;
  }

  lemma ApplyTracks(s: System, x: Replica, r: nat, c: Timestamp, i: nat, exact: bool)
    requires Tracks(s, r, c, i, exact) && s.replicas[r].applied < |s.log|
    requires x.obj == ApplyUpdate(s.replicas[r].obj, s.log[s.replicas[r].applied].update)
    requires x.applied == s.replicas[r].applied + 1
    ensures Tracks(Put(s, r, x), r, c, i, exact)
  {
    hide FullLog;
  }

  /** Whatever is neither applied nor granted on r leaves it, but for its leadership, as it was. */
  lemma AsideTracks(s: System, ev: Event, r: nat)
    requires Enabled(s, ev) && r < |s.replicas| && !Reloads(ev, r) && !Grants(s, ev, r)
    requires !(ev.Apply? && ev.r == r) && !(ev.LeaderStart? && ev.r == r)
    ensures var t := Next(s, ev);
            && |t.replicas| == |s.replicas|
            && t.replicas[r].obj == s.replicas[r].obj && t.replicas[r].applied == s.replicas[r].applied
            && (t.log == s.log || exists e :: t.log == s.log + [e])
  {
  }

  lemma StepTracks(s: System, ev: Event, r: nat, c: Timestamp, i: nat, exact: bool)
    requires Tracks(s, r, c, i, exact) && !Reloads(ev, r) && (exact ==> !Grants(s, ev, r))
    ensures Tracks(Next(s, ev), r, c, i, exact)
  {
    var t := Next(s, ev);
    if !Enabled(s, ev) {
    } else if ev.Apply? && ev.r == r {
      ApplyTracks(s, t.replicas[r], r, c, i, exact);
    } else if ev.LeaderStart? && ev.r == r {
      StartTracks(s, ev, c, i, exact);
    } else if Grants(s, ev, r) {
      GrantTracks(s, ev.k, r, c, i);
    } else {
      AsideTracks(s, ev, r);
      hide Next, Restored, FullLog, Enabled;
      var u := s.(replicas := t.replicas);
      assert Tracks(u, r, c, i, exact);
      if t.log == s.log {
        LogTracks(u, t, Entry(Update(Timestamp(0, 0), 0), 0), r, c, i, exact);
      } else {
        var e :| t.log == s.log + [e];
        LogTracks(u, t, e, r, c, i, exact);
      }
    }
  }

  lemma StartTracks(s: System, ev: Event, c: Timestamp, i: nat, exact: bool)
    requires ev.LeaderStart? && Enabled(s, ev) && Tracks(s, ev.r, c, i, exact)
    ensures Tracks(Next(s, ev), ev.r, c, i, exact)
  {
    var t := Next(s, ev);
    if ev.committed {
      var e := t.log[|s.log|];
      var u := s.(log := s.log + [e]);
      LogTracks(s, u, e, ev.r, c, i, exact);
      ApplyTracks(u, t.replicas[ev.r], ev.r, c, i, exact);
      hide Restored, FullLog;
    }
  }

  lemma GrantTracks(s: System, k: nat, r: nat, c: Timestamp, i: nat)
    requires Tracks(s, r, c, i, false) && Grants(s, Attempt(k), r)
    ensures Tracks(Next(s, Attempt(k)), r, c, i, false)
  {
    hide Restored, FullLog;
  }

  lemma {:induction false} RunTracks(s: System, events: seq<Event>, r: nat, c: Timestamp, i: nat, exact: bool)
    requires Tracks(s, r, c, i, exact) && Undisturbed(s, events, r, exact)
    ensures Tracks(Run(s, events), r, c, i, exact)
    decreases |events|
  {
    hide Tracks;
    if events != [] {
      StepTracks(s, events[0], r, c, i, exact);
      RunTracks(Next(s, events[0]), events[1..], r, c, i, exact);
    }
  }

  /** The current timestamp right after a snapshot is loaded: gone after a
      restart, kept when the snapshot came over the wire. */
  function KeptCurrent(s: System, load: Event): Timestamp
    requires (load.Restart? || load.InstallSnapshot?) && Enabled(s, load)
  {
    if load.Restart? then Timestamp(0, 0) else s.replicas[load.r].obj.current
  }

  lemma LoadStarts(s: System, load: Event, exact: bool)
    requires Agreement(s) && (load.Restart? || load.InstallSnapshot?) && Enabled(s, load)
    ensures Tracks(Next(s, load), load.r, KeptCurrent(s, load), s.snapshots[load.snap].index, exact)
  {
    var i := s.snapshots[load.snap].index;
    FullLogWindowed(s.log, i);
    if load.InstallSnapshot? {
      assert ReplicaAgrees(s.log, s.replicas[load.r]);
      FullLogGrows(s.log, s.replicas[load.r].applied, i);
    }
  }

  /** In every run: a replica that loaded a snapshot, and did not load another
      since, has the window of a replica that never restarted and is not ahead
      of it; once it has applied an entry which the latter accepted, the two
      have the same physical part too, and they are equal as long as the
      replica has granted nothing. */
  lemma LoadedReplicaConverges(n: nat, before: seq<Event>, load: Event, after: seq<Event>, exact: bool)
    requires (load.Restart? || load.InstallSnapshot?) && Enabled(Run(Init(n), before), load)
    requires Undisturbed(Next(Run(Init(n), before), load), after, load.r, exact)
    ensures var s := Run(Init(n), before);
            var i := s.snapshots[load.snap].index;
            var t := Run(Next(s, load), after);
            && load.r < |t.replicas|
            && var x := t.replicas[load.r];
            && i <= x.applied <= |t.log|
            && x.obj.lastSave == FullLog(t.log, x.applied).lastSave
            && x.obj.current.physical <= FullLog(t.log, x.applied).current.physical
            && ((exists k :: i <= k < x.applied && Accepts(FullLog(t.log, k), t.log[k].update)) ==>
                  && SameExceptLogical(x.obj, FullLog(t.log, x.applied))
                  && (exact ==> x.obj == FullLog(t.log, x.applied)))
  {
    var s := Run(Init(n), before);
    var i := s.snapshots[load.snap].index;
    var c := KeptCurrent(s, load);
    var t := Run(Next(s, load), after);
    RunAgrees(Init(n), before);
    StepAgrees(s, load);
    RunAgrees(Next(s, load), after);
    LoadStarts(s, load, exact);
    RunTracks(Next(s, load), after, load.r, c, i, exact);
    hide Run, Enabled, Next;
    RestoredConverges(t.log, c, i, t.replicas[load.r].applied);
  }
}

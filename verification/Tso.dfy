/** The timestamp oracle as one replica runs it: ea/discovery/tso_state_machine.cc
    with the constants of ea/discovery/discovery_constants.h. */
module Tso {
  import opened Decimal
  import opened Words
  import opened Wrappers

  const UPDATE_INTERVAL_MS := 50
  const UPDATE_GUARD_MS := 1
  const SAVE_INTERVAL_MS := 3000
  const BASE_TIMESTAMP_MS := 1577808000000
  const MAX_LOGICAL := 0x4_0000
  const GEN_RETRIES := 50

  datatype Timestamp = Timestamp(physical: int, logical: int)

  /** The two replicated-or-local parts: only lastSave reaches snapshots. */
  datatype TsoObj = TsoObj(current: Timestamp, lastSave: int)

  const INIT_OBJ := TsoObj(Timestamp(0, 0), 0)

  /** What sync_timestamp puts in the raft log. */
  datatype Update = Update(current: Timestamp, savePhysical: int)

  /** update_tso and an unforced reset_tso refuse only what is strictly smaller. */
  predicate Accepts(o: TsoObj, u: Update) {
    !(u.savePhysical < o.lastSave || u.current.physical < o.current.physical)
  }

  function Install(u: Update): TsoObj {
    TsoObj(u.current, u.savePhysical)
  }

  function ApplyUpdate(o: TsoObj, u: Update): TsoObj {
    if Accepts(o, u) then Install(u) else o
  }

  /** The logical part after a grant, in 64-bit arithmetic. */
  function NewLogical(o: TsoObj, count: Int64): Int64 {
    WrapInt64(o.current.logical + count)
  }

  predicate CanTake(o: TsoObj, count: Int64) {
    o.current.physical != 0 && NewLogical(o, count) < MAX_LOGICAL
  }

  function Take(o: TsoObj, count: Int64): TsoObj {
    o.(current := o.current.(logical := NewLogical(o, count)))
  }

  function SaveAhead(lastSave: int, next: int): int {
    if lastSave - next <= UPDATE_GUARD_MS then next + SAVE_INTERVAL_MS else lastSave
  }

  /** What the 50 ms timer proposes on the leader, given the clock it reads. */
  function TimerProposal(o: TsoObj, now: int): Option<Update> {
    if now - o.current.physical > UPDATE_GUARD_MS then
      Some(Update(Timestamp(now, 0), SaveAhead(o.lastSave, now)))
    else if o.current.logical > MAX_LOGICAL / 2 then
      var next := now + UPDATE_GUARD_MS;
      Some(Update(Timestamp(next, 0), SaveAhead(o.lastSave, next)))
    else
      None
  }

  /** The branch of on_leader_start that moves past the saved window. */
  predicate PastWindow(lastSave: int, now: int) {
    lastSave - now < UPDATE_INTERVAL_MS
  }

  function StartProposal(lastSave: int, now: int): Update {
    if PastWindow(lastSave, now) then
      Update(Timestamp(lastSave + UPDATE_GUARD_MS, 0), now + SAVE_INTERVAL_MS)
    else
      Update(Timestamp(now, 0), lastSave)
  }

  // ---- the 64-bit timestamp handed to clients

  function Encode(t: Timestamp): int {
    t.physical * MAX_LOGICAL + t.logical
  }

  function TruncDiv(a: int, b: int): int
    requires b > 0
  {
    if a >= 0 then a / b else -((-a) / b)
  }

  function GetTimestampInternal(offset: int): int {
    TruncDiv(offset / MAX_LOGICAL + BASE_TIMESTAMP_MS, 1000) % 0x1_0000_0000
  }

  predicate LogicalOk(t: Timestamp) {
    0 <= t.logical < MAX_LOGICAL
  }

  predicate Less(a: Timestamp, b: Timestamp) {
    a.physical < b.physical || (a.physical == b.physical && a.logical < b.logical)
  }

  /** Encoding keeps the order both ways, so integers compare as timestamps do. */
  lemma EncodeKeepsOrder(a: Timestamp, b: Timestamp)
    requires LogicalOk(a) && LogicalOk(b)
    ensures Encode(a) == a.physical * 262144 + a.logical
    ensures Less(a, b) <==> Encode(a) < Encode(b)
    ensures Encode(a) == Encode(b) <==> a == b
  {
    if a.physical < b.physical {
      assert (a.physical + 1) * MAX_LOGICAL <= b.physical * MAX_LOGICAL;
    } else if b.physical < a.physical {
      assert (b.physical + 1) * MAX_LOGICAL <= a.physical * MAX_LOGICAL;
    }
  }

  /** get_timestamp_internal is the wall-clock second of the physical part,
      for every second that fits the 32 bits it is returned in. */
  lemma SecondOfTimestamp(t: Timestamp)
    requires 0 <= t.logical < 262144 && 0 <= t.physical + 1577808000000 < 0x1_0000_0000 * 1000
    ensures var second := GetTimestampInternal(Encode(t));
            second * 1000 <= t.physical + 1577808000000 < (second + 1) * 1000
  {
    assert Encode(t) / MAX_LOGICAL == t.physical;
  }

  // ---- what goes on while a gen_tso call sleeps between two attempts

  datatype Interference = Applied(update: Update) | Taken(count: Int64)

  function Interfere(o: TsoObj, i: Interference): TsoObj {
    match i
    case Applied(u) => ApplyUpdate(o, u)
    case Taken(c) => if CanTake(o, c) then Take(o, c) else o
  }

  function InterfereAll(o: TsoObj, acts: seq<Interference>): TsoObj
    decreases |acts|
  {
    if acts == [] then o else InterfereAll(Interfere(o, acts[0]), acts[1..])
  }

  /** An update is installed whole or not at all, a grant moves the logical part or nothing. */
  lemma InterferenceIs(o: TsoObj, u: Update, count: Int64)
    ensures Interfere(o, Applied(u)) ==
            if u.savePhysical >= o.lastSave && u.current.physical >= o.current.physical then TsoObj(u.current, u.savePhysical)
            else o
    ensures IsInt64(o.current.logical + count) ==>
              Interfere(o, Taken(count)) ==
              if o.current.physical != 0 && o.current.logical + count < 262144
              then TsoObj(Timestamp(o.current.physical, o.current.logical + count), o.lastSave)
              else o
  {
  }

  /** The state the k-th attempt of a gen_tso call finds. */
  function AtAttempt(o: TsoObj, sleeps: seq<seq<Interference>>, k: nat): TsoObj
    requires k <= |sleeps|
  {
    if k == 0 then o else InterfereAll(AtAttempt(o, sleeps, k - 1), sleeps[k - 1])
  }

  datatype GenReply =
    | InputParamError
    | RetryLater
    | ExecFail
    | Granted(start: Timestamp, count: Int64)

  datatype ResetReply = Ignored | TimeFallback | ResetDone

  class TSOStateMachine {
    var current: Timestamp
    var lastSavePhysical: int
    var isLeader: bool
    var isHealthy: bool

    function View(): TsoObj
      reads this
    {
      TsoObj(current, lastSavePhysical)
    }

    constructor ()
      ensures View() == INIT_OBJ && !isLeader && isHealthy
    {
      current := Timestamp(0, 0);
      lastSavePhysical := 0;
      isLeader := false;
      isHealthy := true;
    }

    /** One locked attempt of gen_tso. */
    method TryTake(count: Int64) returns (got: Option<Timestamp>)
      modifies this`current
      ensures got == if CanTake(old(View()), count) then Some(old(current)) else None
      ensures old(current.logical) + count < INT64_END && -INT64_END <= old(current.logical) + count ==>
                (got.Some? <==> old(current.physical) != 0 && old(current.logical) + count < 262144)
      ensures got.Some? && IsInt64(old(current.logical) + count) ==>
                current == Timestamp(old(current.physical), old(current.logical) + count)
      ensures got.None? ==> current == old(current)
      ensures View() == if CanTake(old(View()), count) then Take(old(View()), count) else old(View())
    {
      got := None;
      if current.physical != 0 {
        var newLogical := WrapInt64(current.logical + count);
        if newLogical < MAX_LOGICAL {
          got := Some(current);
          current := current.(logical := newLogical);
        }
      }
    }

    /** What other threads do to the oracle while a caller sleeps. */
    method Sleep(acts: seq<Interference>)
      modifies this`current, this`lastSavePhysical
      ensures View() == InterfereAll(old(View()), acts)
    {
      for i := 0 to |acts|
        invariant InterfereAll(View(), acts[i..]) == InterfereAll(old(View()), acts)
      {
        assert acts[i..][1..] == acts[i + 1..];
        match acts[i]
        case Applied(u) => var _ := UpdateTso(u);
        case Taken(c) => var _ := TryTake(c);
      }
    }

    method GenTso(count: Int64, sleeps: seq<seq<Interference>>) returns (reply: GenReply)
      requires |sleeps| == 50
      modifies this`current, this`lastSavePhysical
      ensures count == 0 ==> reply == InputParamError
      ensures count != 0 && !isHealthy ==> reply == RetryLater
      ensures count == 0 || !isHealthy ==> View() == old(View())
      ensures count != 0 && isHealthy ==>
                match reply
                case Granted(start, n) =>
                  n == count &&
                  exists k: nat :: k < GEN_RETRIES
                    && (forall j: nat :: j < k ==> !CanTake(AtAttempt(old(View()), sleeps, j), count))
                    && CanTake(AtAttempt(old(View()), sleeps, k), count)
                    && start == AtAttempt(old(View()), sleeps, k).current
                    && View() == Take(AtAttempt(old(View()), sleeps, k), count)
                case ExecFail =>
                  (forall j: nat :: j < GEN_RETRIES ==> !CanTake(AtAttempt(old(View()), sleeps, j), count))
                  && View() == AtAttempt(old(View()), sleeps, GEN_RETRIES)
                case _ => false
    {
      if count == 0 {
        return InputParamError;
      }
      if !isHealthy {
        return RetryLater;
      }
      for i := 0 to GEN_RETRIES
        invariant View() == AtAttempt(old(View()), sleeps, i)
        invariant forall j: nat :: j < i ==> !CanTake(AtAttempt(old(View()), sleeps, j), count)
      {
        var got := TryTake(count);
        if got.Some? {
          return Granted(got.value, count);
        }
        Sleep(sleeps[i]);
      }
      reply := ExecFail;
    }

    method UpdateTso(u: Update) returns (success: bool)
      modifies this`current, this`lastSavePhysical
      ensures success == Accepts(old(View()), u)
      ensures success <==> u.savePhysical >= old(lastSavePhysical) && u.current.physical >= old(current.physical)
      ensures success ==> lastSavePhysical == u.savePhysical && current == u.current
      ensures View() == ApplyUpdate(old(View()), u)
    {
      if u.savePhysical < lastSavePhysical || u.current.physical < current.physical {
        return false;
      }
      lastSavePhysical := u.savePhysical;
      current := u.current;
      success := true;
    }

    method ResetTso(request: Option<Update>, force: bool) returns (reply: ResetReply)
      modifies this`current, this`lastSavePhysical, this`isHealthy
      ensures request.None? ==> reply == Ignored && View() == old(View()) && isHealthy == old(isHealthy)
      ensures request.Some? && (force || Accepts(old(View()), request.value)) ==>
                reply == ResetDone && isHealthy
                && lastSavePhysical == request.value.savePhysical && current == request.value.current
      ensures request.Some? && !force && !Accepts(old(View()), request.value) ==>
                reply == TimeFallback && View() == old(View()) && isHealthy == old(isHealthy)
    {
      reply := Ignored;
      if request.Some? {
        var u := request.value;
        if u.savePhysical < lastSavePhysical || u.current.physical < current.physical {
          if !force {
            return TimeFallback;
          }
        }
        isHealthy := true;
        lastSavePhysical := u.savePhysical;
        current := u.current;
        reply := ResetDone;
      }
    }

    /** update_timestamp up to the call of sync_timestamp. */
    method UpdateTimestamp(now: int) returns (proposal: Option<Update>)
      ensures proposal == if isLeader then TimerProposal(View(), now) else None
      ensures proposal.None? <==> !isLeader || (now <= current.physical + 1 && current.logical <= 131072)
      ensures proposal.Some? ==>
                var next := proposal.value.current.physical;
                && proposal.value.current.logical == 0
                && next == (if now > current.physical + 1 then now else now + 1)
                && (lastSavePhysical >= next + 2 ==> proposal.value.savePhysical == lastSavePhysical)
                && (lastSavePhysical < next + 2 ==> proposal.value.savePhysical == next + 3000)
    {
      if !isLeader {
        return None;
      }
      var delta := now - current.physical;
      var next := now;
      if delta > UPDATE_GUARD_MS {
        next := now;
      } else if current.logical > MAX_LOGICAL / 2 {
        next := now + UPDATE_GUARD_MS;
      } else {
        return None;
      }
      var save := lastSavePhysical;
      if save - next <= UPDATE_GUARD_MS {
        save := next + SAVE_INTERVAL_MS;
      }
      proposal := Some(Update(Timestamp(next, 0), save));
    }

    method OnLeaderStart(now: int) returns (proposal: Update)
      ensures proposal == StartProposal(lastSavePhysical, now)
      ensures proposal.current.logical == 0 && proposal.savePhysical >= proposal.current.physical + 50
      ensures proposal == Update(Timestamp(now, 0), lastSavePhysical) <==> lastSavePhysical - now >= 50
      ensures lastSavePhysical - now < 50 ==>
                proposal.current.physical == lastSavePhysical + 1 && proposal.savePhysical == now + 3000
    {
      var physical := now;
      var lastSave := lastSavePhysical;
      if lastSave - now < UPDATE_INTERVAL_MS {
        physical := lastSave + UPDATE_GUARD_MS;
        lastSave := now + SAVE_INTERVAL_MS;
      }
      proposal := Update(Timestamp(physical, 0), lastSave);
    }

    /** The rest of on_leader_start, once its proposal has come back. */
    method LeaderStarted(synced: bool)
      modifies this`isLeader, this`isHealthy
      ensures isLeader && isHealthy == (old(isHealthy) && synced)
    {
      if !synced {
        isHealthy := false;
      }
      isLeader := true;
    }

    /** The text of a snapshot; reading it gives the window back. */
    method OnSnapshotSave() returns (text: string)
      ensures IsInt64(lastSavePhysical) ==> Stol(text) == Some(lastSavePhysical)
    {
      text := ToString(lastSavePhysical);
      if IsInt64(lastSavePhysical) {
        StolUndoesToString(lastSavePhysical);
      }
    }

    /** load_tso: the saved window comes back, the current timestamp is not touched;
        a text that is no number changes nothing. */
    method LoadTso(text: string) returns (ok: bool)
      modifies this`lastSavePhysical
      ensures ok <==> Stol(text).Some?
      ensures View() == if ok then old(View()).(lastSave := Stol(text).value) else old(View())
    {
      var saved := Stol(text);
      if saved.None? {
        return false;
      }
      lastSavePhysical := saved.value;
      ok := true;
    }
  }
}

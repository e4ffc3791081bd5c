/** Two copies of one value kept in step by replaying batches of edits:
    DoubleBuffer in ea/base/double_buffer.h. Edits are pure functions here. */
module DoubleBuffer {

  function Fold<T>(x: T, edits: seq<T -> T>): T
    decreases |edits|
  {
    if edits == [] then x else Fold(edits[0](x), edits[1..])
  }

  lemma {:induction false} FoldConcat<T>(x: T, a: seq<T -> T>, b: seq<T -> T>)
    ensures Fold(x, a + b) == Fold(Fold(x, a), b)
    decreases |a|
  {
    if a == [] {
      assert a + b == b;
    } else {
      assert (a + b)[1..] == a[1..] + b;
      FoldConcat(a[0](x), a[1..], b);
    }
  }

  class DoubleBuffer<T> {
    var data: seq<T>
    var index: nat

    predicate Shape()
      reads this
    {
      |data| == 2 && index < 2
    }

    function Read(): T
      requires Shape()
      reads this
    {
      data[index]
    }

    function ReadBackground(): T
      requires Shape()
      reads this
    {
      data[1 - index]
    }

    constructor (x: T)
      ensures Shape() && Read() == x && ReadBackground() == x
    {
      data := [x, x];
      index := 0;
    }

    method Swap()
      requires Shape()
      modifies this`index
      ensures Shape() && Read() == old(ReadBackground()) && ReadBackground() == old(Read())
    {
      index := 1 - index;
    }

    /** One loop of run_function: every edit once, in order, on the background. */
    method EditBackground(batch: seq<T -> T>)
      requires Shape()
      modifies this`data
      ensures Shape() && Read() == old(Read()) && ReadBackground() == Fold(old(ReadBackground()), batch)
    {
      for i := 0 to |batch|
        invariant Shape() && Read() == old(Read())
        invariant Fold(ReadBackground(), batch[i..]) == Fold(old(ReadBackground()), batch)
      {
        assert batch[i..][1..] == batch[i + 1..];
        data := data[1 - index := batch[i](data[1 - index])];
      }
    }

    method RunFunction(batch: seq<T -> T>)
      requires Shape()
      modifies this
      ensures Shape()
      ensures Read() == Fold(old(ReadBackground()), batch)
      ensures ReadBackground() == Fold(old(Read()), batch)
    {
      EditBackground(batch);
      Swap();
      EditBackground(batch);
    }
  }

  // ---- the same code one edit at a time, with readers looking in between

  datatype Phase<!T> = Idle | Applying(vec: seq<T -> T>) | Replaying(todo: seq<T -> T>)

  /** swapped: the edits of all batches swapped in so far, batch by batch;
      asked: every edit ever passed to modify. */
  datatype State<!T> = State(
    data: seq<T>,
    index: nat,
    phase: Phase<T>,
    queue: seq<T -> T>,
    swapped: seq<seq<T -> T>>,
    asked: seq<T -> T>)

  datatype Step<!T> = Modify(edit: T -> T) | Wake | ApplyOne | SwapBuffers | ReplayOne | Sleep

  function Init<T>(x: T): State<T> {
    State([x, x], 0, Idle, [], [], [])
  }

  ghost function Next<T>(s: State<T>, e: Step<T>): State<T>
    requires |s.data| == 2 && s.index < 2
    ensures |Next(s, e).data| == 2 && Next(s, e).index < 2
  {
    match (e, s.phase)
    case (Modify(f), _) => s.(queue := s.queue + [f], asked := s.asked + [f])
    case (Wake, Idle) => s.(phase := Applying([]))
    case (ApplyOne, Applying(vec)) =>
      if s.queue == [] then s
      else s.(data := s.data[1 - s.index := s.queue[0](s.data[1 - s.index])],
              phase := Applying(vec + [s.queue[0]]), queue := s.queue[1..])
    case (SwapBuffers, Applying(vec)) =>
      s.(index := 1 - s.index, phase := Replaying(vec), swapped := s.swapped + [vec])
    case (ReplayOne, Replaying(todo)) =>
      if todo == [] then s
      else s.(data := s.data[1 - s.index := todo[0](s.data[1 - s.index])], phase := Replaying(todo[1..]))
    case (Sleep, Replaying(todo)) => if todo == [] then s.(phase := Idle) else s
    case _ => s
  }

  ghost function Run<T>(s: State<T>, steps: seq<Step<T>>): State<T>
    requires |s.data| == 2 && s.index < 2
    decreases |steps|
  {
    if steps == [] then s else Run(Next(s, steps[0]), steps[1..])
  }

  ghost function Flatten<T>(batches: seq<seq<T -> T>>): seq<T -> T>
    decreases |batches|
  {
    if batches == [] then [] else Flatten(batches[..|batches| - 1]) + batches[|batches| - 1]
  }

  /** The batch being applied; empty in the other phases. */
  ghost function Current<T>(s: State<T>): seq<T -> T> {
    if s.phase.Applying? then s.phase.vec else []
  }

  ghost predicate Inv<T>(s: State<T>, x: T) {
    && |s.data| == 2 && s.index < 2
    && s.data[s.index] == Fold(x, Flatten(s.swapped))
    && s.asked == Flatten(s.swapped) + Current(s) + s.queue
    && match s.phase
       case Idle => s.data[1 - s.index] == s.data[s.index]
       case Applying(vec) => s.data[1 - s.index] == Fold(s.data[s.index], vec)
       case Replaying(todo) => Fold(s.data[1 - s.index], todo) == s.data[s.index]
  }

  lemma ApplyOneInv<T>(s: State<T>, x: T)
    requires Inv(s, x) && s.phase.Applying? && s.queue != []
    ensures Inv(Next(s, ApplyOne), x)
  {
    var vec, f := s.phase.vec, s.queue[0];
    FoldConcat(s.data[s.index], vec, [f]);
    assert [f][1..] == [];
    assert Fold(Fold(s.data[s.index], vec), [f]) == f(Fold(s.data[s.index], vec));
    assert Flatten(s.swapped) + (vec + [f]) + s.queue[1..] == Flatten(s.swapped) + vec + s.queue;
  }

  lemma SwapInv<T>(s: State<T>, x: T)
    requires Inv(s, x) && s.phase.Applying?
    ensures Inv(Next(s, SwapBuffers), x)
  {
    var vec := s.phase.vec;
    var t := Next(s, SwapBuffers);
    assert t.swapped[..|t.swapped| - 1] == s.swapped;
    assert Flatten(t.swapped) == Flatten(s.swapped) + vec;
    FoldConcat(x, Flatten(s.swapped), vec);
    assert Flatten(t.swapped) + [] + s.queue == Flatten(s.swapped) + vec + s.queue;
  }

  lemma ModifyInv<T>(s: State<T>, f: T -> T, x: T)
    requires Inv(s, x)
    ensures Inv(Next(s, Modify(f)), x)
  {
    hide Fold, Flatten;
    var done := Flatten(s.swapped) + Current(s);
    assert done + s.queue + [f] == done + (s.queue + [f]);
  }

  lemma ReplayOneInv<T>(s: State<T>, x: T)
    requires Inv(s, x) && s.phase.Replaying? && s.phase.todo != []
    ensures Inv(Next(s, ReplayOne), x)
  {
    hide Flatten;
  }

  lemma StepInv<T>(s: State<T>, e: Step<T>, x: T)
    requires Inv(s, x)
    ensures Inv(Next(s, e), x)
  {
    match e
    case Modify(f) => ModifyInv(s, f, x);
    case Wake => QuietInv(s, e, x);
    case ApplyOne =>
      if s.phase.Applying? && s.queue != [] {
        ApplyOneInv(s, x);
      }
    case SwapBuffers =>
      if s.phase.Applying? {
        SwapInv(s, x);
      }
    case ReplayOne =>
      if s.phase.Replaying? && s.phase.todo != [] {
        ReplayOneInv(s, x);
      }
    case Sleep => QuietInv(s, e, x);
    hide Inv;
  }

  lemma QuietInv<T>(s: State<T>, e: Step<T>, x: T)
    requires Inv(s, x) && (e.Wake? || e.Sleep?)
    ensures Inv(Next(s, e), x)
  {
    hide Flatten;
  }

  lemma {:induction false} RunInv<T>(s: State<T>, steps: seq<Step<T>>, x: T)
    requires Inv(s, x)
    ensures Inv(Run(s, steps), x)
    decreases |steps|
  {
    if steps != [] {
      StepInv(s, steps[0], x);
      RunInv(Next(s, steps[0]), steps[1..], x);
    }
  }

  /** Whatever readers look at is the fold of whole batches, taken in the order
      of the modify calls; and when nothing is queued or under way both copies
      are the fold of every edit ever asked for. */
  lemma ReadersSeeWholeBatches<T>(x: T, steps: seq<Step<T>>)
    ensures var s := Run(Init(x), steps);
            && |s.data| == 2 && s.index < 2
            && s.data[s.index] == Fold(x, Flatten(s.swapped))
            && Flatten(s.swapped) <= s.asked
            && (s.phase.Idle? && s.queue == [] ==>
                  s.data[0] == Fold(x, s.asked) && s.data[1] == Fold(x, s.asked))
  {
    assert Inv(Init(x), x) by { assert Flatten<T>([]) + [] + [] == []; }
    RunInv(Init(x), steps, x);
    InvReads(Run(Init(x), steps), x);
  }

  lemma InvReads<T>(s: State<T>, x: T)
    requires Inv(s, x)
    ensures Flatten(s.swapped) <= s.asked
    ensures s.phase.Idle? && s.queue == [] ==> s.data[0] == Fold(x, s.asked) && s.data[1] == Fold(x, s.asked)
  {
    hide Fold, Flatten;
    assert s.asked == Flatten(s.swapped) + (Current(s) + s.queue);
    if s.phase.Idle? && s.queue == [] {
      assert s.asked == Flatten(s.swapped);
    }
  }

  // ---- every edit arrives

  lemma RunCons<T>(s: State<T>, e: Step<T>, more: seq<Step<T>>)
    requires |s.data| == 2 && s.index < 2
    ensures Run(s, [e] + more) == Run(Next(s, e), more)
  {
    assert ([e] + more)[1..] == more;
  }

  /** The worker has nothing left to do, and no edit was lost on the way. */
  ghost predicate Settled<T>(s: State<T>, t: State<T>) {
    t.phase.Idle? && t.queue == [] && t.asked == s.asked
  }

  lemma {:induction false} Replays<T>(s: State<T>, x: T) returns (more: seq<Step<T>>)
    requires Inv(s, x) && s.phase.Replaying? && s.queue == []
    ensures Settled(s, Run(s, more))
    decreases |s.phase.todo|
  {
    if s.phase.todo == [] {
      var t := Next(s, Sleep);
      RunCons(s, Sleep, []);
      more := [Sleep] + [];
    } else {
      StepInv(s, ReplayOne, x);
      more := Replays(Next(s, ReplayOne), x);
      RunCons(s, ReplayOne, more);
      more := [ReplayOne] + more;
    }
  }

  lemma {:induction false} Applies<T>(s: State<T>, x: T) returns (more: seq<Step<T>>)
    requires Inv(s, x) && s.phase.Applying?
    ensures Settled(s, Run(s, more))
    decreases |s.queue|
  {
    if s.queue == [] {
      StepInv(s, SwapBuffers, x);
      more := Replays(Next(s, SwapBuffers), x);
      RunCons(s, SwapBuffers, more);
      more := [SwapBuffers] + more;
    } else {
      StepInv(s, ApplyOne, x);
      more := Applies(Next(s, ApplyOne), x);
      RunCons(s, ApplyOne, more);
      more := [ApplyOne] + more;
    }
  }

  /** Edits that come in during a replay wait for the next round. */
  lemma {:induction false} Finishes<T>(s: State<T>, x: T) returns (more: seq<Step<T>>)
    requires Inv(s, x)
    ensures Settled(s, Run(s, more))
    decreases if s.phase.Replaying? then |s.phase.todo| + 2 else if s.phase.Idle? then 1 else 0
  {
    match s.phase
    case Applying(_) => more := Applies(s, x);
    case Idle =>
      StepInv(s, Wake, x);
      more := Finishes(Next(s, Wake), x);
      RunCons(s, Wake, more);
      more := [Wake] + more;
    case Replaying(todo) =>
      var e := if todo == [] then Sleep else ReplayOne;
      StepInv(s, e, x);
      more := Finishes(Next(s, e), x);
      RunCons(s, e, more);
      more := [e] + more;
  }

  lemma InitInv<T>(x: T)
    ensures Inv(Init(x), x)
  {
    assert Flatten<T>([]) + [] + [] == [];
  }

  lemma SettledReads<T>(s: State<T>, t: State<T>, x: T)
    requires Inv(t, x) && Settled(s, t)
    ensures t.data == [Fold(x, s.asked), Fold(x, s.asked)]
  {
    InvReads(t, x);
    hide Fold, Flatten;
  }

  /** From any point of any interleaving the worker can finish, and then both copies
      are the fold of every edit ever asked for. */
  lemma EveryEditArrives<T>(x: T, steps: seq<Step<T>>) returns (more: seq<Step<T>>)
    ensures var s := Run(Init(x), steps);
            && |s.data| == 2 && s.index < 2
            && var t := Run(s, more);
            && t.phase.Idle? && t.queue == [] && t.asked == s.asked
            && t.data == [Fold(x, s.asked), Fold(x, s.asked)]
  {
    InitInv(x);
    RunInv(Init(x), steps, x);
    var s := Run(Init(x), steps);
    hide Run, Fold, Flatten;
    more := Finishes(s, x);
    RunInv(s, more, x);
    SettledReads(s, Run(s, more), x);
  }

  /** modify puts one edit at the end of what was asked for. */
  lemma ModifyAsks<T>(s: State<T>, f: T -> T)
    requires |s.data| == 2 && s.index < 2
    ensures Next(s, Modify(f)).asked == s.asked + [f] && Next(s, Modify(f)).data == s.data
  {
  }
}

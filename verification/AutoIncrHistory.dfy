/** What clients read of the counters: each is the last number its servlet was
    answered with, and every answer follows from it. */
module AutoIncrHistory {
  import opened Words
  import opened Wrappers
  import opened AutoIncr

  function Counter(m: Counters, servlet: int): Option<U64> {
    if servlet in m then Some(m[servlet]) else None
  }

  /** What an answer leaves of a counter: the number it ends with, nothing after a
      drop, and what there was after an error. */
  function Left(was: Option<U64>, r: Request, reply: Reply, servlet: int): Option<U64> {
    if r.servlet != servlet then was
    else
      match reply
      case InputParamError(_) => was
      case Success => None
      case Started(start) => Some(start)
      case Range(_, end) => Some(end)
  }

  lemma StepReads(m: Counters, r: Request, servlet: int)
    ensures var (n, reply) := Apply(m, r);
            Counter(n, servlet) == Left(Counter(m, servlet), r, reply, servlet)
  {
  }

  /** A sum of two 64-bit numbers, written out. */
  function Sum(a: U64, b: U64): U64 {
    if a + b < 0x1_0000_0000_0000_0000 then a + b else a + b - 0x1_0000_0000_0000_0000
  }

  lemma SumIsWrap(a: U64, b: U64)
    ensures Sum(a, b) == WrapU64(a + b)
  {
  }

  /** Every answer, from the counter alone. A range starts at the counter or right
      after the hint, whichever is further on; a counter is set to right after the
      start given, unless that is behind it and not forced, or moved on by the
      increment given. */
  lemma StepAnswers(m: Counters, r: Request)
    ensures var reply := Apply(m, r).1;
            match (r.op, Counter(m, r.servlet))
            case (Add(first), Some(_)) => reply == InputParamError("servlet id has exist")
            case (Add(first), None) => reply == Started(first)
            case (Drop, Some(_)) => reply == Success
            case (Drop, None) => reply == InputParamError("servlet id not exist")
            case (Gen(hint, count), Some(next)) =>
              var from := if hint.Some? && Sum(hint.value, 1) > next then Sum(hint.value, 1) else next;
              reply == Range(from, Sum(from, count))
            case (Update(Some(start), None, force), Some(next)) =>
              if Sum(start, 1) < next && !force then reply == InputParamError("not support rollback")
              else reply == Started(Sum(start, 1))
            case (Update(None, Some(increment), _), Some(next)) => reply == Started(Sum(next, increment))
            case (Update(None, None, _), Some(_)) => reply == InputParamError("star_id or increment_id all not exist")
            case (Update(Some(_), Some(_), _), Some(_)) => reply == InputParamError("star_id and increment_id all exist")
            case (_, None) => reply == InputParamError("servlet has no auto increment")
  {
    if r.servlet in m {
      match r.op
      case Gen(hint, count) =>
        if hint.Some? {
          SumIsWrap(hint.value, 1);
        }
        SumIsWrap(GenStart(m[r.servlet], hint), count);
      case Update(start, increment, _) =>
        if start.Some? {
          SumIsWrap(start.value, 1);
        }
        if increment.Some? {
          SumIsWrap(m[r.servlet], increment.value);
        }
      case _ =>
    }
    hide WrapU64, Sum;
  }

  function History(was: Option<U64>, log: seq<Request>, replies: seq<Reply>, servlet: int): Option<U64>
    requires |replies| == |log|
    decreases |log|
  {
    if log == [] then was else History(Left(was, log[0], replies[0], servlet), log[1..], replies[1..], servlet)
  }

  lemma {:induction false} RunReads(m: Counters, log: seq<Request>, servlet: int)
    ensures |Run(m, log).1| == |log|
    ensures Counter(Run(m, log).0, servlet) == History(Counter(m, servlet), log, Run(m, log).1, servlet)
    decreases |log|
  {
    if log != [] {
      var (n, reply) := Apply(m, log[0]);
      StepReads(m, log[0], servlet);
      hide Apply, Left, Counter;
      RunReads(n, log[1..], servlet);
      var (end, replies) := Run(n, log[1..]);
      assert Run(m, log).1 == [reply] + replies && ([reply] + replies)[1..] == replies;
    }
  }

  /** Over any run: a counter stands where the last successful answer for its
      servlet says, and is gone after a drop. */
  lemma CountersAreHistory(log: seq<Request>, servlet: int)
    ensures |Run(map[], log).1| == |log|
    ensures Counter(Run(map[], log).0, servlet) == History(None, log, Run(map[], log).1, servlet)
  {
    RunReads(map[], log, servlet);
  }
}

/** Auto-increment ids: auto_incr_state_machine.cc, with its 64-bit counters and
    the JSON text of its snapshots. */
module AutoIncr {
  import opened Words
  import opened Wrappers
  import opened Decimal

  /** The next id of each servlet. */
  type Counters = map<int, U64>

  datatype Op =
    | Add(first: U64)
    | Drop
    | Gen(hint: Option<U64>, count: U64)
    | Update(start: Option<U64>, increment: Option<U64>, force: bool)

  datatype Request = Request(servlet: int, op: Op)

  /** A success may carry a start and an end. */
  datatype Reply =
    | InputParamError(msg: string)
    | Success
    | Started(start: U64)
    | Range(start: U64, end: U64)

  /** Where gen_id starts: past the hint when that is further on. */
  function GenStart(next: U64, hint: Option<U64>): U64 {
    if hint.Some? && next < WrapU64(hint.value + 1) then WrapU64(hint.value + 1) else next
  }

  function DoUpdate(m: Counters, id: int, start: Option<U64>, increment: Option<U64>, force: bool): (Counters, Reply) {
    if id !in m then (m, InputParamError("servlet has no auto increment"))
    else if start.None? && increment.None? then (m, InputParamError("star_id or increment_id all not exist"))
    else if start.Some? && increment.Some? then (m, InputParamError("star_id and increment_id all exist"))
    else if start.Some? then
      if m[id] > WrapU64(start.value + 1) && !force then (m, InputParamError("not support rollback"))
      else (m[id := WrapU64(start.value + 1)], Started(WrapU64(start.value + 1)))
    else (m[id := WrapU64(m[id] + increment.value)], Started(WrapU64(m[id] + increment.value)))
  }

  function Apply(m: Counters, r: Request): (Counters, Reply) {
    match r.op
    case Add(start) =>
      if r.servlet in m then (m, InputParamError("servlet id has exist")) else (m[r.servlet := start], Started(start))
    case Drop =>
      if r.servlet !in m then (m, InputParamError("servlet id not exist")) else (m - {r.servlet}, Success)
    case Gen(hint, count) =>
      if r.servlet !in m then (m, InputParamError("servlet has no auto increment"))
      else
        var from := GenStart(m[r.servlet], hint);
        var end := WrapU64(from + count);
        (m[r.servlet := end], Range(from, end))
    case Update(start, increment, force) => DoUpdate(m, r.servlet, start, increment, force)
  }

  function Run(m: Counters, log: seq<Request>): (Counters, seq<Reply>)
    decreases |log|
  {
    if log == [] then (m, [])
    else
      var (n, reply) := Apply(m, log[0]);
      var (end, replies) := Run(n, log[1..]);
      (end, [reply] + replies)
  }

  // ---- ranges

  /** The ranges handed out for one servlet, in order. */
  function Issued(m: Counters, log: seq<Request>, id: int): seq<Reply>
    decreases |log|
  {
    if log == [] then []
    else
      var (n, reply) := Apply(m, log[0]);
      (if log[0].servlet == id && reply.Range? then [reply] else []) + Issued(n, log[1..], id)
  }

  /** The 64 bits are enough for what the request adds. */
  predicate Fits(m: Counters, r: Request) {
    r.servlet in m ==>
      match r.op
      case Gen(hint, count) => GenStart(m[r.servlet], hint) + count < TWO_64
      case Update(None, Some(increment), _) => m[r.servlet] + increment < TWO_64
      case _ => true
  }

  /** Forced, and behind the counter. */
  predicate RollsBack(m: Counters, r: Request) {
    && r.servlet in m && r.op.Update? && r.op.force && r.op.start.Some? && r.op.increment.None?
    && WrapU64(r.op.start.value + 1) < m[r.servlet]
  }

  /** A range holds as many ids as asked for exactly when it does not overflow;
      when it does, it ends before it starts. */
  lemma RangeHoldsCount(m: Counters, id: int, hint: Option<U64>, count: U64)
    requires id in m
    ensures var r := Request(id, Gen(hint, count));
            var reply := Apply(m, r).1;
            && reply.Range? && reply.start >= m[id]
            && (hint.Some? && hint.value < TWO_64 - 1 ==> reply.start > hint.value)
            && (reply.end == reply.start + count <==> Fits(m, r))
            && (reply.end < reply.start <==> !Fits(m, r))
  {
    var from := GenStart(m[id], hint);
    assert from + count >= TWO_64 ==> WrapU64(from + count) == from + count - TWO_64;
  }

  /** An update moves the counter back exactly by a forced rollback or an overflow. */
  lemma UpdateBack(m: Counters, r: Request)
    requires r.servlet in m && r.op.Update?
    ensures Apply(m, r).0[r.servlet] < m[r.servlet] <==>
            RollsBack(m, r) || !Fits(m, r)
  {
    var next := m[r.servlet];
    match r.op
    case Update(None, Some(increment), _) =>
      assert next + increment >= TWO_64 ==> WrapU64(next + increment) == next + increment - TWO_64;
    case _ =>
  }

  predicate TameStep(m: Counters, r: Request, id: int) {
    r.servlet == id ==> Fits(m, r) && !RollsBack(m, r) && !r.op.Drop?
  }

  /** No drop, overflow or forced rollback of this servlet. */
  predicate Tame(m: Counters, log: seq<Request>, id: int)
    decreases |log|
  {
    log == [] || (TameStep(m, log[0], id) && Tame(Apply(m, log[0]).0, log[1..], id))
  }

  lemma TameStepUp(m: Counters, r: Request, id: int)
    requires id in m && TameStep(m, r, id)
    ensures var (n, reply) := Apply(m, r);
            && id in n && m[id] <= n[id]
            && (r.servlet == id && reply.Range? ==> m[id] <= reply.start <= reply.end == n[id])
  {
    if r.servlet == id && r.op.Update? {
      UpdateBack(m, r);
    }
  }

  /** Proper ranges, each at or above where the one before it ended. */
  predicate Increasing(issued: seq<Reply>) {
    && (forall i :: 0 <= i < |issued| ==> issued[i].Range? && issued[i].start <= issued[i].end)
    && (forall i, j :: 0 <= i < j < |issued| ==> issued[i].end <= issued[j].start)
  }

  predicate AllFrom(issued: seq<Reply>, from: int) {
    forall i :: 0 <= i < |issued| ==> issued[i].Range? && from <= issued[i].start
  }

  lemma IncreasingCons(r: Reply, later: seq<Reply>, from: int)
    requires r.Range? && from <= r.start <= r.end && Increasing(later) && AllFrom(later, r.end)
    ensures Increasing([r] + later) && AllFrom([r] + later, from)
  {
  }

  lemma {:induction false} IssuedAbove(m: Counters, log: seq<Request>, id: int)
    requires id in m && Tame(m, log, id)
    ensures Increasing(Issued(m, log, id)) && AllFrom(Issued(m, log, id), m[id])
    decreases |log|
  {
    if log != [] {
      TameStepUp(m, log[0], id);
      var (n, reply) := Apply(m, log[0]);
      IssuedAbove(n, log[1..], id);
      var later := Issued(n, log[1..], id);
      if log[0].servlet == id && reply.Range? {
        IncreasingCons(reply, later, m[id]);
      } else {
        assert [] + later == later;
      }
    }
  }

  /** Whatever hints and unforced updates come in between, the ranges of one
      servlet are disjoint and increase. */
  lemma {:induction false} RangesIncrease(m: Counters, log: seq<Request>, id: int)
    requires Tame(m, log, id)
    ensures Increasing(Issued(m, log, id))
    decreases |log|
  {
    if id in m {
      IssuedAbove(m, log, id);
    } else if log != [] {
      var n := Apply(m, log[0]).0;
      RangesIncrease(n, log[1..], id);
      assert [] + Issued(n, log[1..], id) == Issued(n, log[1..], id);
    }
  }

  /** Each exclusion is needed: a forced rollback repeats a range. */
  lemma ForceRepeats(m: Counters, id: int, count: U64)
    requires id in m && m[id] > 0 && 0 < count && m[id] + count < TWO_64
    ensures var gen := Request(id, Gen(None, count));
            var n := Apply(Apply(m, gen).0, Request(id, Update(Some(m[id] - 1), None, true))).0;
            Apply(n, gen).1 == Apply(m, gen).1
  {
  }

  /** So does a drop followed by an add at the old start, */
  lemma DropRepeats(m: Counters, id: int, count: U64)
    requires id in m && 0 < count && m[id] + count < TWO_64
    ensures var gen := Request(id, Gen(None, count));
            var n := Apply(Apply(Apply(m, gen).0, Request(id, Drop)).0, Request(id, Add(m[id]))).0;
            Apply(n, gen).1 == Apply(m, gen).1
  {
  }

  /** and so does an overflow: one more id than fits brings the counter to 0. */
  lemma OverflowRestarts(m: Counters, id: int)
    requires id in m
    ensures Apply(m, Request(id, Update(None, Some(WrapU64(TWO_64 - m[id])), false))).0[id] == 0
  {
    if m[id] > 0 {
      assert m[id] + WrapU64(TWO_64 - m[id]) == TWO_64;
    }
  }

  // ---- snapshots

  type Members = seq<(int, U64)>

  /** The pairs of a counter map, in whatever order the hash map yields them. */
  ghost predicate Lists(order: Members, m: Counters) {
    && (forall i :: 0 <= i < |order| ==> order[i].0 in m && m[order[i].0] == order[i].1)
    && (forall i, j :: 0 <= i < j < |order| ==> order[i].0 != order[j].0)
    && (forall id :: id in m ==> exists i :: 0 <= i < |order| && order[i].0 == id)
  }

  /** All members but those left. */
  ghost predicate ListsRest(order: Members, m: Counters, left: set<(int, U64)>) {
    && (forall i :: 0 <= i < |order| ==> order[i].0 in m && m[order[i].0] == order[i].1 && order[i] !in left)
    && (forall i, j :: 0 <= i < j < |order| ==> order[i].0 != order[j].0)
    && (forall p :: p in m.Items && p !in left ==> p in order)
  }

  lemma ListsOneMore(order: Members, m: Counters, left: set<(int, U64)>, p: (int, U64))
    requires ListsRest(order, m, left) && p in left && p in m.Items
    ensures ListsRest(order + [p], m, left - {p})
  {
    forall i | 0 <= i < |order| ensures order[i].0 != p.0 {
      assert order[i] != p;
    }
  }

  lemma ListsAll(order: Members, m: Counters)
    requires ListsRest(order, m, {})
    ensures Lists(order, m)
  {
    forall id | id in m ensures exists i :: 0 <= i < |order| && order[i].0 == id {
      assert (id, m[id]) in m.Items;
      var i :| 0 <= i < |order| && order[i] == (id, m[id]);
    }
  }

  function MemberText(id: int, value: U64): string {
    "\"" + ToString(id) + "\":" + Digits(value)
  }

  /** The members of a JSON object with the closing brace. */
  function MembersText(order: Members): string
    requires order != []
  {
    if |order| == 1 then MemberText(order[0].0, order[0].1) + "}"
    else MemberText(order[0].0, order[0].1) + "," + MembersText(order[1..])
  }

  function Json(order: Members): string {
    if order == [] then "{}" else "{" + MembersText(order)
  }

  /** The characters before the first quote. */
  function UpToQuote(s: string): (i: nat)
    ensures i <= |s| && (i < |s| ==> s[i] == '"') && '"' !in s[..i]
  {
    if s == [] || s[0] == '"' then 0
    else
      assert s[..1 + UpToQuote(s[1..])] == [s[0]] + s[1..][..UpToQuote(s[1..])];
      1 + UpToQuote(s[1..])
  }

  predicate StartsWith(s: string, c: char) {
    s != [] && s[0] == c
  }

  /** Without the white space that JSON allows between any two tokens. */
  function Trim(s: string): (t: string)
    ensures |t| <= |s|
  {
    if s != [] && s[0] in {' ', '\t', '\n', '\r'} then Trim(s[1..]) else s
  }

  /** A colon and an unsigned 64-bit number; what follows comes back with it. */
  function ParseNumber(s: string): (r: Option<(U64, string)>)
    ensures r.Some? ==> |r.value.1| < |s|
  {
    var t := Trim(s);
    if !StartsWith(t, ':') then None
    else
      var u := Trim(t[1..]);
      var digits := UpToNonDigit(u);
      var text := u[..digits];
      if digits == 0 || (digits > 1 && text[0] == '0') || Value(text) >= TWO_64 then None
      else Some((Value(text) as U64, Trim(u[digits..])))
  }

  /** One member of an object: a quoted name without escapes, a colon, a number. */
  function ParseMember(s: string): (r: Option<(string, U64, string)>)
    ensures r.Some? ==> |r.value.2| < |s|
  {
    var t := Trim(s);
    if !StartsWith(t, '"') then None
    else
      var name := UpToQuote(t[1..]);
      if name == |t| - 1 || '\\' in t[1..1 + name] then None
      else
        match ParseNumber(t[2 + name..])
        case None => None
        case Some((value, rest)) => Some((t[1..1 + name], value, rest))
  }

  /** A closing brace and nothing after it. */
  predicate Closes(s: string) {
    StartsWith(s, '}') && Trim(s[1..]) == []
  }

  /** Members up to the closing brace, which must end the text. */
  function ParseMembers(s: string): Option<seq<(string, U64)>>
    decreases |s|
  {
    match ParseMember(s)
    case None => None
    case Some((name, value, rest)) =>
      if Closes(rest) then Some([(name, value)])
      else if StartsWith(rest, ',') then
        match ParseMembers(rest[1..])
        case None => None
        case Some(more) => Some([(name, value)] + more)
      else None
  }

  function ParseJson(s: string): Option<seq<(string, U64)>> {
    var t := Trim(s);
    if !StartsWith(t, '{') then None
    else
      var u := Trim(t[1..]);
      if Closes(u) then Some([]) else ParseMembers(u)
  }

  /** The loop of parse_json_string; a name that is no number stops it. */
  function LoadMembers(m: Counters, members: seq<(string, U64)>): Option<Counters>
    decreases |members|
  {
    if members == [] then Some(m)
    else
      match ParseInt64(members[0].0)
      case None => None
      case Some(id) => LoadMembers(m[id := members[0].1], members[1..])
  }

  /** The first member whose name is no number, or the end. */
  function FirstBad(members: seq<(string, U64)>): (k: nat)
    ensures k <= |members| && forall i :: 0 <= i < k ==> ParseInt64(members[i].0).Some?
    ensures k < |members| ==> ParseInt64(members[k].0).None?
  {
    if members == [] || ParseInt64(members[0].0).None? then 0 else 1 + FirstBad(members[1..])
  }

  lemma {:induction false} LoadOneMore(m: Counters, members: seq<(string, U64)>, member: (string, U64))
    requires LoadMembers(m, members).Some? && ParseInt64(member.0).Some?
    ensures LoadMembers(m, members + [member])
            == Some(LoadMembers(m, members).value[ParseInt64(member.0).value := member.1])
    decreases |members|
  {
    if members == [] {
      assert [member][1..] == [];
    } else {
      assert (members + [member])[1..] == members[1..] + [member];
      LoadOneMore(m[ParseInt64(members[0].0).value := members[0].1], members[1..], member);
    }
  }

  /** m is what the members before i leave, and none of them is bad. */
  ghost predicate LoadedTo(m: Counters, members: seq<(string, U64)>, i: nat) {
    && i <= FirstBad(members)
    && LoadMembers(map[], members[..i]) == Some(m)
    && LoadMembers(m, members[i..]) == LoadMembers(map[], members)
  }

  lemma LoadedStep(m: Counters, members: seq<(string, U64)>, i: nat)
    requires i < |members| && LoadedTo(m, members, i)
    ensures ParseInt64(members[i].0).None? ==> i == FirstBad(members) && LoadMembers(map[], members).None?
    ensures ParseInt64(members[i].0).Some? ==>
              LoadedTo(m[ParseInt64(members[i].0).value := members[i].1], members, i + 1)
  {
    hide ParseInt64;
    assert members[i..][1..] == members[i + 1..] && members[..i] + [members[i]] == members[..i + 1];
    if ParseInt64(members[i].0).Some? {
      LoadOneMore(map[], members[..i], members[i]);
    }
  }

  /** load_auto_increment: whatever was there is gone. */
  function Load(s: string): Option<Counters> {
    match ParseJson(s)
    case None => None
    case Some(members) => LoadMembers(map[], members)
  }

  lemma QuoteAt(a: string, rest: string)
    requires '"' !in a
    ensures UpToQuote(a + "\"" + rest) == |a|
  {
    var s := a + "\"" + rest;
    var i := UpToQuote(s);
    assert s[|a|] == '"';
    assert forall k :: 0 <= k < |a| ==> s[k] == a[k];
    assert forall k :: 0 <= k < i ==> s[k] == s[..i][k];
  }

  lemma NoTrim(s: string)
    requires s != [] && s[0] !in {' ', '\t', '\n', '\r'}
    ensures Trim(s) == s
  {
  }

  lemma DigitsInFront(value: U64, rest: string)
    requires rest != [] && !IsDigit(rest[0])
    ensures var u := Digits(value) + rest;
            var digits := UpToNonDigit(u);
            && 0 < digits <= |u| && u[..digits] == Digits(value) && u[digits..] == rest
            && Trim(u) == u && Value(u[..digits]) == value && !(digits > 1 && u[0] == '0')
  {
    NonDigitAt(Digits(value), rest);
    var u := Digits(value) + rest;
    assert u[..|Digits(value)|] == Digits(value) && u[|Digits(value)|..] == rest;
    assert IsDigit(u[0]);
    hide UpToNonDigit, Digits, Value;
    NoTrim(u);
  }

  lemma ParseNumberText(value: U64, rest: string)
    requires rest != [] && !IsDigit(rest[0])
    ensures ParseNumber(":" + Digits(value) + rest) == Some((value, Trim(rest)))
  {
    hide UpToNonDigit, Digits, Value, Trim, IsDigit;
    DigitsInFront(value, rest);
    var s := ":" + Digits(value) + rest;
    NoTrim(s);
    assert s[1..] == Digits(value) + rest;
  }

  lemma {:induction false} TrimSpaces(spaces: string, s: string)
    requires forall i :: 0 <= i < |spaces| ==> spaces[i] in {' ', '\t', '\n', '\r'}
    ensures Trim(spaces + s) == Trim(s)
    decreases |spaces|
  {
    if spaces == [] {
      assert spaces + s == s;
    } else {
      assert (spaces + s)[1..] == spaces[1..] + s;
      TrimSpaces(spaces[1..], s);
    }
  }

  /** White space may stand before and after the colon and before the number. */
  lemma NumberAfterSpaces(a: string, b: string, value: U64, rest: string)
    requires forall i :: 0 <= i < |a| ==> a[i] in {' ', '\t', '\n', '\r'}
    requires forall i :: 0 <= i < |b| ==> b[i] in {' ', '\t', '\n', '\r'}
    requires rest != [] && !IsDigit(rest[0])
    ensures ParseNumber(a + (":" + (b + (Digits(value) + rest)))) == Some((value, Trim(rest)))
  {
    DigitsInFront(value, rest);
    var u := Digits(value) + rest;
    var t := ":" + (b + u);
    TrimSpaces(a, t);
    NoTrim(t);
    assert t[1..] == b + u;
    TrimSpaces(b, u);
    hide UpToNonDigit, Digits, Value, Trim, IsDigit;
  }

  lemma DigitsFirst(digits: string, rest: string)
    requires AllDigits(digits) && |digits| > 0 && (rest != [] ==> !IsDigit(rest[0]))
    ensures var u := digits + rest;
            UpToNonDigit(u) == |digits| && u[..|digits|] == digits && u[0] == digits[0] && Trim(u) == u
  {
    NonDigitAt(digits, rest);
    var u := digits + rest;
    assert u[..|digits|] == digits;
    assert IsDigit(u[0]);
    hide UpToNonDigit;
    NoTrim(u);
  }

  /** A number with a zero in front, or one of 2^64 or more, is no number. */
  lemma BadNumbers(digits: string, rest: string)
    requires AllDigits(digits) && |digits| > 0 && (rest != [] ==> !IsDigit(rest[0]))
    ensures (|digits| > 1 && digits[0] == '0') || Value(digits) >= 0x1_0000_0000_0000_0000 ==>
              ParseNumber(":" + (digits + rest)) == None
  {
    hide UpToNonDigit, Value, Trim, IsDigit, AllDigits;
    DigitsFirst(digits, rest);
    var s := ":" + (digits + rest);
    NoTrim(s);
    assert s[1..] == digits + rest;
  }

  /** So it may around names, commas and braces. */
  lemma SpacesAroundTokens(spaces: string, s: string)
    requires forall i :: 0 <= i < |spaces| ==> spaces[i] in {' ', '\t', '\n', '\r'}
    ensures ParseJson(spaces + s) == ParseJson(s)
    ensures ParseMember(spaces + s) == ParseMember(s)
    ensures StartsWith(s, '{') ==> ParseJson("{" + (spaces + s[1..])) == ParseJson(s)
    ensures Closes("}" + spaces)
  {
    TrimSpaces(spaces, s);
    if StartsWith(s, '{') {
      var t := "{" + (spaces + s[1..]);
      NoTrim(s);
      NoTrim(t);
      assert t[1..] == spaces + s[1..];
      TrimSpaces(spaces, s[1..]);
    }
    var u := "}" + spaces;
    assert u[1..] == spaces && spaces + [] == spaces;
    TrimSpaces(spaces, []);
    hide ParseMembers, Trim;
  }

  lemma ParseMemberText(id: int, value: U64, rest: string)
    requires rest != [] && !IsDigit(rest[0])
    ensures ParseMember(MemberText(id, value) + rest) == Some((ToString(id), value, Trim(rest)))
  {
    hide UpToQuote, ParseNumber, Digits, ToString;
    var name, number := ToString(id), ":" + Digits(value) + rest;
    var s := MemberText(id, value) + rest;
    assert s == "\"" + (name + "\"" + number);
    assert s[1..] == name + "\"" + number;
    QuoteAt(name, number);
    assert s[2 + |name|..] == number && s[1..1 + |name|] == name;
    ParseNumberText(value, rest);
  }

  function Named(order: Members): seq<(string, U64)> {
    seq(|order|, i requires 0 <= i < |order| => (ToString(order[i].0), order[i].1))
  }

  /** One step of the parser over what the writer wrote. */
  lemma ParseStep(id: int, value: U64, rest: string)
    requires Trim(rest) == rest && rest != [] && !IsDigit(rest[0])
    ensures var s := MemberText(id, value) + rest;
            && (Closes(rest) ==> ParseMembers(s) == Some([(ToString(id), value)]))
            && (rest[0] == ',' && ParseMembers(rest[1..]).Some? ==>
                  ParseMembers(s) == Some([(ToString(id), value)] + ParseMembers(rest[1..]).value))
  {
    hide ParseMember, MemberText, Trim;
    ParseMemberText(id, value, rest);
  }

  lemma BraceCloses()
    ensures Closes("}") && Trim("}") == "}"
  {
    assert "}"[1..] == [];
  }

  lemma Associates(a: string, b: string, c: string)
    ensures a + b + c == a + (b + c)
  {
  }

  lemma MembersCons(order: Members)
    requires |order| > 1
    ensures MembersText(order) == MemberText(order[0].0, order[0].1) + ("," + MembersText(order[1..]))
  {
    hide MemberText;
    Associates(MemberText(order[0].0, order[0].1), ",", MembersText(order[1..]));
  }

  lemma NamedCons(order: Members)
    requires order != []
    ensures Named(order) == [(ToString(order[0].0), order[0].1)] + Named(order[1..])
  {
    hide ToString;
  }

  lemma {:induction false} ParseMembersText(order: Members)
    requires order != []
    ensures ParseMembers(MembersText(order)) == Some(Named(order))
    decreases |order|
  {
    hide ParseMember, MemberText, ParseMembers, Closes, Trim, ToString;
    var (id, value) := order[0];
    BraceCloses();
    if |order| == 1 {
      ParseStep(id, value, "}");
      assert Named(order) == [(ToString(id), value)];
    } else {
      ParseMembersText(order[1..]);
      MembersCons(order);
      NamedCons(order);
      hide MembersText, Named;
      var rest := "," + MembersText(order[1..]);
      assert rest[1..] == MembersText(order[1..]) && rest[0] == ',';
      NoTrim(rest);
      ParseStep(id, value, rest);
    }
  }

  predicate KeysFit(m: Counters) {
    forall id :: id in m ==> IsInt64(id)
  }

  function Fill(m: Counters, order: Members): Counters
    decreases |order|
  {
    if order == [] then m else Fill(m[order[0].0 := order[0].1], order[1..])
  }

  lemma {:induction false} LoadNamed(m: Counters, order: Members)
    requires forall i :: 0 <= i < |order| ==> IsInt64(order[i].0)
    ensures LoadMembers(m, Named(order)) == Some(Fill(m, order))
    decreases |order|
  {
    hide ParseInt64, ToString;
    if order != [] {
      ParseUndoesToString(order[0].0);
      assert Named(order)[0] == (ToString(order[0].0), order[0].1);
      assert Named(order)[1..] == Named(order[1..]);
      LoadNamed(m[order[0].0 := order[0].1], order[1..]);
    }
  }

  lemma {:induction false} FillKeeps(m: Counters, order: Members, id: int)
    requires forall i :: 0 <= i < |order| ==> order[i].0 != id
    ensures id in Fill(m, order) <==> id in m
    ensures id in m ==> Fill(m, order)[id] == m[id]
    decreases |order|
  {
    if order != [] {
      FillKeeps(m[order[0].0 := order[0].1], order[1..], id);
    }
  }

  lemma {:induction false} FillFinds(m: Counters, order: Members, i: nat)
    requires i < |order| && forall j, k :: 0 <= j < k < |order| ==> order[j].0 != order[k].0
    ensures order[i].0 in Fill(m, order) && Fill(m, order)[order[i].0] == order[i].1
    decreases |order|
  {
    var n := m[order[0].0 := order[0].1];
    if i == 0 {
      FillKeeps(n, order[1..], order[0].0);
    } else {
      FillFinds(n, order[1..], i - 1);
    }
  }

  lemma FillLists(order: Members, m: Counters)
    requires Lists(order, m)
    ensures Fill(map[], order) == m
  {
    var n := Fill(map[], order);
    forall id | id in m ensures id in n && n[id] == m[id] {
      var i :| 0 <= i < |order| && order[i].0 == id;
      FillFinds(map[], order, i);
    }
    forall id | id in n ensures id in m {
      if id !in m {
        FillKeeps(map[], order, id);
      }
    }
  }

  /** Saving and loading restore the counters exactly, in whatever order the hash
      map is walked. */
  lemma SaveLoad(order: Members, m: Counters)
    requires Lists(order, m) && KeysFit(m)
    ensures Load(Json(order)) == Some(m)
  {
    hide ParseMembers, MemberText, LoadMembers, Fill, Named;
    FillLists(order, m);
    LoadNamed(map[], order);
    if order == [] {
      NamedNone();
      assert "{}"[1..] == "}" && "}"[1..] == [];
    } else {
      ParseMembersText(order);
      var text := Json(order);
      assert text[1..] == MembersText(order);
      MembersStart(order);
    }
  }

  lemma NamedNone()
    ensures Named([]) == []
  {
  }

  lemma MembersStart(order: Members)
    requires order != []
    ensures |MembersText(order)| > 0 && MembersText(order)[0] == '"'
  {
  }

  lemma {:induction false} RunConcat(m: Counters, log: seq<Request>, more: seq<Request>)
    ensures Run(m, log + more).0 == Run(Run(m, log).0, more).0
    ensures Run(m, log + more).1 == Run(m, log).1 + Run(Run(m, log).0, more).1
    decreases |log|
  {
    hide Apply;
    if log == [] {
      assert log + more == more;
    } else {
      assert (log + more)[1..] == log[1..] + more && (log + more)[0] == log[0];
      RunConcat(Apply(m, log[0]).0, log[1..], more);
    }
  }

  lemma {:induction false} RunKeysFit(m: Counters, log: seq<Request>)
    requires KeysFit(m) && forall k :: 0 <= k < |log| ==> IsInt64(log[k].servlet)
    ensures KeysFit(Run(m, log).0)
    decreases |log|
  {
    if log != [] {
      RunKeysFit(Apply(m, log[0]).0, log[1..]);
    }
  }

  /** Replaying from a snapshot gives the counters and replies of replaying all. */
  lemma {:induction false} SnapshotCommutes(prefix: seq<Request>, suffix: seq<Request>, order: Members)
    requires forall k :: 0 <= k < |prefix| ==> IsInt64(prefix[k].servlet)
    requires Lists(order, Run(map[], prefix).0)
    ensures Load(Json(order)).Some?
    ensures var (end, replies) := Run(Load(Json(order)).value, suffix);
            Run(map[], prefix + suffix) == (end, Run(map[], prefix).1 + replies)
  {
    RunKeysFit(map[], prefix);
    SaveLoad(order, Run(map[], prefix).0);
    RunConcat(map[], prefix, suffix);
  }

  // ---- the state machine as an object

  lemma RunFrom(m: Counters, log: seq<Request>, k: nat)
    requires k < |log|
    ensures var (t, reply) := Apply(m, log[k]);
            Run(m, log[k..]) == (Run(t, log[k + 1..]).0, [reply] + Run(t, log[k + 1..]).1)
  {
    hide Apply;
    assert log[k..][1..] == log[k + 1..];
  }

  lemma RunNone(m: Counters, log: seq<Request>)
    ensures Run(m, log[|log|..]) == (m, [])
  {
  }

  class AutoIncrStateMachine {
    var autoIncrementMap: Counters

    constructor ()
      ensures autoIncrementMap == map[]
    {
      autoIncrementMap := map[];
    }

    method AddServletId(id: int, start: U64) returns (reply: Reply)
      modifies this
      ensures (autoIncrementMap, reply) == Apply(old(autoIncrementMap), Request(id, Add(start)))
    {
      if id in autoIncrementMap {
        return InputParamError("servlet id has exist");
      }
      autoIncrementMap := autoIncrementMap[id := start];
      reply := Started(start);
    }

    method DropServletId(id: int) returns (reply: Reply)
      modifies this
      ensures (autoIncrementMap, reply) == Apply(old(autoIncrementMap), Request(id, Drop))
    {
      if id !in autoIncrementMap {
        return InputParamError("servlet id not exist");
      }
      autoIncrementMap := autoIncrementMap - {id};
      reply := Success;
    }

    method GenId(id: int, hint: Option<U64>, count: U64) returns (reply: Reply)
      modifies this
      ensures (autoIncrementMap, reply) == Apply(old(autoIncrementMap), Request(id, Gen(hint, count)))
    {
      if id !in autoIncrementMap {
        return InputParamError("servlet has no auto increment");
      }
      var oldStart := autoIncrementMap[id];
      if hint.Some? && oldStart < WrapU64(hint.value + 1) {
        oldStart := WrapU64(hint.value + 1);
      }
      autoIncrementMap := autoIncrementMap[id := WrapU64(oldStart + count)];
      reply := Range(oldStart, autoIncrementMap[id]);
    }

    method Update(id: int, start: Option<U64>, increment: Option<U64>, force: bool) returns (reply: Reply)
      modifies this
      ensures (autoIncrementMap, reply) == Apply(old(autoIncrementMap), Request(id, Op.Update(start, increment, force)))
    {
      if id !in autoIncrementMap {
        return InputParamError("servlet has no auto increment");
      }
      if start.None? && increment.None? {
        return InputParamError("star_id or increment_id all not exist");
      }
      if start.Some? && increment.Some? {
        return InputParamError("star_id and increment_id all exist");
      }
      var oldStart := autoIncrementMap[id];
      if start.Some? && oldStart > WrapU64(start.value + 1) && !force {
        return InputParamError("not support rollback");
      }
      if start.Some? {
        autoIncrementMap := autoIncrementMap[id := WrapU64(start.value + 1)];
      } else {
        autoIncrementMap := autoIncrementMap[id := WrapU64(autoIncrementMap[id] + increment.value)];
      }
      reply := Started(autoIncrementMap[id]);
    }

    method OnApply(log: seq<Request>) returns (replies: seq<Reply>)
      modifies this
      ensures (autoIncrementMap, replies) == Run(old(autoIncrementMap), log)
    {
      hide Apply, Run;
      assert log[0..] == log;
      replies := [];
      for k := 0 to |log|
        invariant Run(autoIncrementMap, log[k..]).0 == Run(old(autoIncrementMap), log).0
        invariant replies + Run(autoIncrementMap, log[k..]).1 == Run(old(autoIncrementMap), log).1
      {
        var r := log[k];
        assert r == Request(r.servlet, r.op);
        RunFrom(autoIncrementMap, log, k);
        var reply: Reply;
        match r.op {
          case Add(start) => reply := AddServletId(r.servlet, start);
          case Drop => reply := DropServletId(r.servlet);
          case Gen(hint, count) => reply := GenId(r.servlet, hint, count);
          case Update(start, increment, force) => reply := Update(r.servlet, start, increment, force);
        }
        replies := replies + [reply];
      }
      RunNone(autoIncrementMap, log);
      assert replies + [] == replies;
    }

    /** save_auto_increment, in whatever order the hash map is walked. */
    method SaveAutoIncrement() returns (text: string)
      ensures exists order :: Lists(order, autoIncrementMap) && text == Json(order)
      ensures KeysFit(autoIncrementMap) ==> Load(text) == Some(autoIncrementMap)
    {
      var left := autoIncrementMap.Items;
      var root: Members := [];
      while left != {}
        invariant left <= autoIncrementMap.Items && ListsRest(root, autoIncrementMap, left)
        decreases left
      {
        var member :| member in left;
        ListsOneMore(root, autoIncrementMap, left, member);
        root := root + [member];
        left := left - {member};
      }
      ListsAll(root, autoIncrementMap);
      text := Json(root);
      if KeysFit(autoIncrementMap) {
        SaveLoad(root, autoIncrementMap);
      }
    }

    /** load_auto_increment and parse_json_string: a text that does not parse leaves
        no counter, and a name that is no number leaves the members before it. */
    method LoadAutoIncrement(text: string) returns (ok: bool)
      modifies this
      ensures ok <==> Load(text).Some?
      ensures ok ==> autoIncrementMap == Load(text).value
      ensures ParseJson(text).None? ==> autoIncrementMap == map[]
      ensures ParseJson(text).Some? ==>
                var members := ParseJson(text).value;
                && (ok <==> FirstBad(members) == |members|)
                && LoadMembers(map[], members[..FirstBad(members)]) == Some(autoIncrementMap)
    {
      hide ParseJson, ParseInt64;
      autoIncrementMap := map[];
      var root := ParseJson(text);
      if root.None? {
        return false;
      }
      for i := 0 to |root.value|
        invariant LoadedTo(autoIncrementMap, root.value, i)
      {
        LoadedStep(autoIncrementMap, root.value, i);
        var id := ParseInt64(root.value[i].0);
        if id.None? {
          return false;
        }
        autoIncrementMap := autoIncrementMap[id.value := root.value[i].1];
      }
      assert root.value[|root.value|..] == [] && root.value[..|root.value|] == root.value;
      ok := true;
    }
  }
}

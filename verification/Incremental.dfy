/** The two-generation log of incremental changes: IncrementalUpdate in
    ea/base/double_buffer.h. A std::map is an index-sorted sequence here. */
module Incremental {
  import opened Wrappers

  /** One entry of a generation; put is when it was put, which only proofs about age read. */
  datatype Delta<T> = Delta(index: int, info: T, put: int)

  predicate Sorted<T>(s: seq<Delta<T>>) {
    forall i, j :: 0 <= i < j < |s| ==> s[i].index < s[j].index
  }

  /** std::map::operator[] followed by assignment. */
  function Store<T>(s: seq<Delta<T>>, d: Delta<T>): seq<Delta<T>>
    decreases |s|
  {
    if s == [] then [d]
    else if d.index < s[0].index then [d] + s
    else if d.index == s[0].index then [d] + s[1..]
    else [s[0]] + Store(s[1..], d)
  }

  lemma {:induction false} StoreAtEnd<T>(s: seq<Delta<T>>, d: Delta<T>)
    requires forall i :: 0 <= i < |s| ==> s[i].index < d.index
    ensures Store(s, d) == s + [d]
    decreases |s|
  {
    if s != [] {
      StoreAtEnd(s[1..], d);
    }
  }

  lemma AboveHead<T>(s: seq<Delta<T>>, e: Delta<T>)
    requires Sorted(s) && s != []
    ensures Sorted(s[1..]) && (e in s[1..] ==> s[0].index < e.index)
    ensures e in s <==> e == s[0] || e in s[1..]
  {
    assert forall i :: 0 <= i < |s[1..]| ==> s[1..][i] == s[i + 1];
  }

  lemma InCons<T>(x: Delta<T>, s: seq<Delta<T>>, e: Delta<T>)
    ensures e in [x] + s <==> e == x || e in s
  {
  }

  /** As a map: d is filed under its index, and every other entry stays. */
  lemma {:induction false} StoreFiles<T>(s: seq<Delta<T>>, d: Delta<T>, e: Delta<T>)
    requires Sorted(s)
    ensures e in Store(s, d) <==> e == d || (e in s && e.index != d.index)
    decreases |s|
  {
    if s != [] {
      AboveHead(s, e);
      hide Sorted;
      InCons(d, s, e);
      InCons(d, s[1..], e);
      if d.index > s[0].index {
        StoreFiles(s[1..], d, e);
        InCons(s[0], Store(s[1..], d), e);
      }
    }
  }

  lemma {:induction false} StoreSorted<T>(s: seq<Delta<T>>, d: Delta<T>)
    requires Sorted(s)
    ensures Sorted(Store(s, d))
    decreases |s|
  {
    if s != [] && d.index > s[0].index {
      AboveHead(s, s[0]);
      StoreSorted(s[1..], d);
      var rest := Store(s[1..], d);
      forall i | 0 <= i < |rest| ensures s[0].index < rest[i].index {
        StoreFiles(s[1..], d, rest[i]);
        AboveHead(s, rest[i]);
      }
    }
  }

  /** The entries a poll must deliver: after last, up to applied, in order. */
  function Window<T>(s: seq<Delta<T>>, last: int, applied: int): seq<Delta<T>>
    decreases |s|
  {
    if s == [] then []
    else if last < s[0].index <= applied then [s[0]] + Window(s[1..], last, applied)
    else Window(s[1..], last, applied)
  }

  /** foreground, background and the time the background got its first entry. */
  datatype Log<T> = Log(fg: seq<Delta<T>>, bg: seq<Delta<T>>, earliest: int)

  function Put<T>(l: Log<T>, d: Delta<T>, gcTime: int): Log<T> {
    if l.bg == [] then Log(l.fg, Store(l.bg, d), d.put)
    else
      var bg := Store(l.bg, d);
      if d.put - l.earliest > gcTime then Log(bg, [], l.earliest) else Log(l.fg, bg, l.earliest)
  }

  predicate Valid<T>(l: Log<T>) {
    Sorted(l.fg + l.bg)
  }

  /** The poll needs a full refresh: something it missed may be gone. */
  predicate NeedsFull<T>(l: Log<T>, last: int, applied: int) {
    var all := l.fg + l.bg;
    if all == [] then last < applied else last < all[0].index
  }

  function LastDelivered<T>(calls: seq<Delta<T>>, last: int): int {
    if calls == [] then last else calls[|calls| - 1].index
  }

  lemma {:induction false} WindowConcat<T>(a: seq<Delta<T>>, b: seq<Delta<T>>, last: int, applied: int)
    ensures Window(a + b, last, applied) == Window(a, last, applied) + Window(b, last, applied)
    decreases |a|
  {
    if a == [] {
      assert a + b == b;
    } else {
      assert (a + b)[1..] == a[1..] + b;
      WindowConcat(a[1..], b, last, applied);
    }
  }

  lemma {:induction false} WindowEmpty<T>(s: seq<Delta<T>>, last: int, applied: int)
    requires forall i :: 0 <= i < |s| ==> !(last < s[i].index <= applied)
    ensures Window(s, last, applied) == []
    decreases |s|
  {
    if s != [] {
      WindowEmpty(s[1..], last, applied);
    }
  }

  lemma {:induction false} WindowAll<T>(s: seq<Delta<T>>, last: int, applied: int)
    requires forall i :: 0 <= i < |s| ==> last < s[i].index <= applied
    ensures Window(s, last, applied) == s
    decreases |s|
  {
    if s != [] {
      WindowAll(s[1..], last, applied);
    }
  }

  lemma {:induction false} WindowSound<T>(s: seq<Delta<T>>, last: int, applied: int)
    ensures forall d :: d in Window(s, last, applied) ==> d in s && last < d.index <= applied
    decreases |s|
  {
    if s != [] {
      WindowSound(s[1..], last, applied);
    }
  }

  lemma {:induction false} WindowComplete<T>(s: seq<Delta<T>>, last: int, applied: int)
    ensures forall d :: d in s && last < d.index <= applied ==> d in Window(s, last, applied)
    decreases |s|
  {
    if s != [] {
      WindowComplete(s[1..], last, applied);
      forall d | d in s ensures d == s[0] || d in s[1..] {
      }
    }
  }

  lemma {:induction false} WindowSorted<T>(s: seq<Delta<T>>, last: int, applied: int)
    requires Sorted(s)
    ensures Sorted(Window(s, last, applied))
    decreases |s|
  {
    if s != [] {
      WindowSorted(s[1..], last, applied);
      WindowSound(s[1..], last, applied);
      var rest := Window(s[1..], last, applied);
      forall i | 0 <= i < |rest| ensures s[0].index < rest[i].index {
        assert rest[i] in s[1..];
      }
    }
  }

  /** Window is exactly the entries of the interval: nothing missed, nothing added. */
  lemma WindowExact<T>(s: seq<Delta<T>>, last: int, applied: int)
    requires Sorted(s)
    ensures Sorted(Window(s, last, applied))
    ensures forall d :: d in Window(s, last, applied) ==> d in s && last < d.index <= applied
    ensures forall d :: d in s && last < d.index <= applied ==> d in Window(s, last, applied)
  {
    WindowSorted(s, last, applied);
    WindowSound(s, last, applied);
    WindowComplete(s, last, applied);
  }

  lemma {:induction false} WindowSkip<T>(s: seq<Delta<T>>, first: nat, last: int, applied: int)
    requires first <= |s| && forall i :: 0 <= i < first ==> s[i].index <= last
    ensures Window(s, last, applied) == Window(s[first..], last, applied)
    decreases |s|
  {
    if first > 0 {
      WindowSkip(s[1..], first - 1, last, applied);
      assert s[1..][first - 1..] == s[first..];
    } else {
      assert s[0..] == s;
    }
  }

  /** Skipping what is old and stopping at what is too new leaves the window. */
  lemma WindowScanned<T>(s: seq<Delta<T>>, first: nat, end: nat, last: int, applied: int)
    requires Sorted(s) && first <= end <= |s|
    requires forall i :: 0 <= i < first ==> s[i].index <= last
    requires forall i :: first <= i < end ==> last < s[i].index <= applied
    requires end == |s| || s[end].index > applied
    ensures Window(s, last, applied) == s[first..end]
  {
    hide Window;
    WindowSkip(s, first, last, applied);
    var found, back := s[first..end], s[end..];
    assert s[first..] == found + back;
    WindowConcat(found, back, last, applied);
    forall i | 0 <= i < |back| ensures !(last < back[i].index <= applied) {
      assert back[i] == s[end + i];
    }
    WindowAll(found, last, applied);
    WindowEmpty(back, last, applied);
  }

  class IncrementalUpdate<T> {
    /** The two buffers of the DoubleBuffer; index names the foreground. */
    var data: seq<seq<Delta<T>>>
    var index: nat
    var earliest: int
    const gcTime: int

    predicate Shape()
      reads this
    {
      |data| == 2 && index < 2
    }

    function View(): Log<T>
      requires Shape()
      reads this
    {
      Log(data[index], data[1 - index], earliest)
    }

    constructor (gcTime: int, now: int)
      ensures Shape() && View() == Log([], [], now) && this.gcTime == gcTime
    {
      data := [[], []];
      index := 0;
      earliest := now;
      this.gcTime := gcTime;
    }

    method PutIncrementalInfo(applyIndex: int, info: T, now: int)
      requires Shape()
      modifies this`data, this`index, this`earliest
      ensures Shape() && View() == Put(old(View()), Delta(applyIndex, info, now), gcTime)
    {
      var d := Delta(applyIndex, info, now);
      if |data[1 - index]| == 0 {
        data := data[1 - index := Store(data[1 - index], d)];
        earliest := now;
        return;
      }
      data := data[1 - index := Store(data[1 - index], d)];
      if now - earliest > gcTime {
        data := data[index := []];
        index := 1 - index;
      }
    }

    /** One of the iterator loops of check_and_update_incremental: from
        upper_bound(last), until the end or the first index past applied. */
    method Deliver(buffer: seq<Delta<T>>, last: int, applied: int) returns (calls: seq<Delta<T>>, newLast: int)
      requires Sorted(buffer)
      ensures calls == Window(buffer, last, applied)
      ensures newLast == LastDelivered(calls, last)
    {
      hide Window;
      var iter := 0;
      while iter < |buffer| && buffer[iter].index <= last
        invariant 0 <= iter <= |buffer|
        invariant forall i :: 0 <= i < iter ==> buffer[i].index <= last
      {
        iter := iter + 1;
      }
      ghost var first := iter;
      calls, newLast := [], last;
      while iter < |buffer| && buffer[iter].index <= applied
        invariant first <= iter <= |buffer|
        invariant calls == buffer[first..iter]
        invariant newLast == LastDelivered(calls, last)
        invariant forall i :: first <= i < iter ==> last < buffer[i].index <= applied
      {
        calls := calls + [buffer[iter]];
        newLast := buffer[iter].index;
        iter := iter + 1;
      }
      WindowScanned(buffer, first, iter, last, applied);
    }

    /** True asks the caller for a full refresh; false means calls were delivered. */
    method CheckAndUpdateIncremental(last: int, applied: int)
      returns (needFull: bool, calls: seq<Delta<T>>, newLast: int)
      requires Shape() && Valid(View())
      ensures needFull == NeedsFull(View(), last, applied)
      ensures View().fg + View().bg == [] ==> (needFull <==> last < applied)
      ensures View().fg + View().bg != [] ==>
                (needFull <==> forall d :: d in View().fg + View().bg ==> last < d.index)
      ensures needFull ==> calls == [] && newLast == last
      ensures !needFull ==> calls == Window(View().fg + View().bg, last, applied)
                            && newLast == LastDelivered(calls, last)
    {
      var fg, bg := data[index], data[1 - index];
      assert View().fg == fg && View().bg == bg;
      BelowOldest(fg + bg, last);
      assert Sorted(fg) by { assert forall i :: 0 <= i < |fg| ==> (fg + bg)[i] == fg[i]; }
      assert Sorted(bg) by { assert forall i :: 0 <= i < |bg| ==> (fg + bg)[|fg| + i] == bg[i]; }
      calls, newLast := [], last;
      if |fg| == 0 && |bg| == 0 {
        needFull := last < applied;
      } else if |fg| == 0 {
        assert fg + bg == bg;
        needFull := last < bg[0].index;
        if !needFull {
          calls, newLast := Deliver(bg, last, applied);
        }
      } else {
        needFull := last < fg[0].index;
        if !needFull {
          calls, newLast := Deliver(fg, last, applied);
          var more, finalLast := Deliver(bg, newLast, applied);
          TwoLoopsAreOneWindow(fg, bg, last, applied);
          calls, newLast := calls + more, finalLast;
        }
      }
    }
  }

  /** Below the oldest is below all. */
  lemma BelowOldest<T>(kept: seq<Delta<T>>, last: int)
    requires Sorted(kept)
    ensures kept != [] ==> (last < kept[0].index <==> forall d :: d in kept ==> last < d.index)
  {
    if kept != [] {
      assert kept[0] in kept;
      forall d | d in kept ensures kept[0].index <= d.index {
        var i :| 0 <= i < |kept| && kept[i] == d;
      }
    }
  }

  /** Running the second loop from where the first one stopped misses nothing. */
  lemma TwoLoopsAreOneWindow<T>(fg: seq<Delta<T>>, bg: seq<Delta<T>>, last: int, applied: int)
    requires Sorted(fg + bg) && fg != []
    requires fg[0].index <= last
    ensures Window(fg + bg, last, applied) ==
            Window(fg, last, applied) + Window(bg, LastDelivered(Window(fg, last, applied), last), applied)
  {
    assert Sorted(fg) by { assert forall i :: 0 <= i < |fg| ==> (fg + bg)[i] == fg[i]; }
    WindowConcat(fg, bg, last, applied);
    WindowExact(fg, last, applied);
    var w := Window(fg, last, applied);
    var mid := LastDelivered(w, last);
    if w != [] {
      var d := w[|w| - 1];
      assert d in fg;
      var k :| 0 <= k < |fg| && fg[k] == d;
      forall i | 0 <= i < |bg| ensures d.index < bg[i].index {
        assert (fg + bg)[k] == d && (fg + bg)[|fg| + i] == bg[i];
      }
      WindowStart(bg, last, mid, applied);
    }
  }

  lemma {:induction false} WindowStart<T>(s: seq<Delta<T>>, a: int, b: int, applied: int)
    requires forall i :: 0 <= i < |s| ==> a < s[i].index && b < s[i].index
    ensures Window(s, a, applied) == Window(s, b, applied)
    decreases |s|
  {
    if s != [] {
      WindowStart(s[1..], a, b, applied);
    }
  }

  // ---- a whole run: entries are put, the applied index moves on, and any number
  // ---- of clients poll up to an applied index of their own

  datatype Event<T> =
    | Report(index: int, info: T, now: int)
    | Advance(index: int)
    | Poll(client: nat, applied: int)

  /** view is what the client has been told, oldest first; last its own index. */
  datatype Client<T> = Client(view: seq<Delta<T>>, last: int)

  datatype System<T> = System(log: Log<T>, history: seq<Delta<T>>, applied: int, clients: seq<Client<T>>)

  function Init<T>(clients: nat, now: int): System<T> {
    System(Log([], [], now), [], 0, seq(clients, _ => Client([], 0)))
  }

  /** Entries come in index order, each before the applied index reaches it; a poll
      may use any applied index read by then, however old. */
  predicate Enabled<T>(s: System<T>, e: Event<T>) {
    match e
    case Report(index, _, _) => index > s.applied && (s.history == [] || index > s.history[|s.history| - 1].index)
    case Advance(index) => index > s.applied
    case Poll(c, applied) => c < |s.clients| && applied <= s.applied
  }

  /** A refused poll makes the client take the full state as of that applied index. */
  function PollOnce<T>(s: System<T>, c: Client<T>, applied: int): Client<T> {
    if NeedsFull(s.log, c.last, applied) then Client(Window(s.history, 0, applied), applied)
    else
      var calls := Window(s.log.fg + s.log.bg, c.last, applied);
      Client(c.view + calls, LastDelivered(calls, c.last))
  }

  function Next<T>(s: System<T>, e: Event<T>, gcTime: int): System<T> {
    if !Enabled(s, e) then s else
    match e
    case Report(index, info, now) =>
      var d := Delta(index, info, now);
      s.(log := Put(s.log, d, gcTime), history := s.history + [d])
    case Advance(index) => s.(applied := index)
    case Poll(c, applied) => s.(clients := s.clients[c := PollOnce(s, s.clients[c], applied)])
  }

  function Run<T>(s: System<T>, events: seq<Event<T>>, gcTime: int): System<T>
    decreases |events|
  {
    if events == [] then s else Run(Next(s, events[0], gcTime), events[1..], gcTime)
  }

  /** The two generations are a suffix of the history: only a prefix was discarded,
      and nothing at all while the foreground is empty. */
  ghost predicate KeepsSuffix<T>(l: Log<T>, history: seq<Delta<T>>) {
    && Sorted(history)
    && (forall i :: 0 <= i < |history| ==> history[i].index > 0)
    && |l.fg + l.bg| <= |history|
    && l.fg + l.bg == history[|history| - |l.fg + l.bg|..]
    && (l.fg == [] ==> l.bg == history)
  }

  /** The client holds every change up to its index and none after it. */
  ghost predicate UpToDate<T>(s: System<T>, c: Client<T>) {
    c.last <= s.applied && c.view == Window(s.history, 0, c.last)
  }

  ghost predicate Inv<T>(s: System<T>) {
    s.applied >= 0 && KeepsSuffix(s.log, s.history) && forall c :: 0 <= c < |s.clients| ==> UpToDate(s, s.clients[c])
  }

  /** A put appends, and may drop the old foreground. */
  lemma PutContents<T>(l: Log<T>, d: Delta<T>, gcTime: int)
    requires forall i :: 0 <= i < |l.bg| ==> l.bg[i].index < d.index
    ensures var t := Put(l, d, gcTime);
            && (t.fg + t.bg == l.fg + l.bg + [d] || t.fg + t.bg == l.bg + [d])
            && (t.fg == [] ==> l.fg == [] && t.bg == l.bg + [d])
  {
    StoreAtEnd(l.bg, d);
    assert l.fg + (l.bg + [d]) == l.fg + l.bg + [d];
    assert l.bg + [d] + [] == l.bg + [d];
  }

  predicate Newer<T>(d: Delta<T>, history: seq<Delta<T>>) {
    d.index > 0 && forall i :: 0 <= i < |history| ==> history[i].index < d.index
  }

  lemma PutKeepsSuffix<T>(l: Log<T>, history: seq<Delta<T>>, d: Delta<T>, gcTime: int)
    requires KeepsSuffix(l, history) && Newer(d, history)
    ensures KeepsSuffix(Put(l, d, gcTime), history + [d])
  {
    hide Put, Sorted;
    BackIsOlder(l, history, d);
    PutContents(l, d, gcTime);
    HistoryGrows(history, d);
    PutIsSuffix(history, l, Put(l, d, gcTime), d);
  }

  lemma PutIsSuffix<T>(history: seq<Delta<T>>, l: Log<T>, t: Log<T>, d: Delta<T>)
    requires |l.fg + l.bg| <= |history| && l.fg + l.bg == history[|history| - |l.fg + l.bg|..]
    requires t.fg + t.bg == l.fg + l.bg + [d] || t.fg + t.bg == l.bg + [d]
    ensures var after := history + [d];
            |t.fg + t.bg| <= |after| && t.fg + t.bg == after[|after| - |t.fg + t.bg|..]
  {
    SuffixGrows(history, l.fg, l.bg, d);
    SuffixAt(history + [d], t.fg + t.bg, l.fg + l.bg + [d], l.bg + [d]);
  }

  lemma BackIsOlder<T>(l: Log<T>, history: seq<Delta<T>>, d: Delta<T>)
    requires KeepsSuffix(l, history) && Newer(d, history)
    ensures forall i :: 0 <= i < |l.bg| ==> l.bg[i].index < d.index
  {
    var cut := |history| - |l.fg + l.bg|;
    forall i | 0 <= i < |l.bg| ensures l.bg[i].index < d.index {
      assert (l.fg + l.bg)[|l.fg| + i] == history[cut + |l.fg| + i];
    }
  }

  lemma SuffixAt<T>(s: seq<T>, x: seq<T>, a: seq<T>, b: seq<T>)
    requires x == a || x == b
    requires |a| <= |s| && a == s[|s| - |a|..] && |b| <= |s| && b == s[|s| - |b|..]
    ensures |x| <= |s| && x == s[|s| - |x|..]
  {
  }

  lemma HistoryGrows<T>(history: seq<Delta<T>>, d: Delta<T>)
    requires Sorted(history) && Newer(d, history) && forall i :: 0 <= i < |history| ==> history[i].index > 0
    ensures Sorted(history + [d])
    ensures forall i :: 0 <= i < |history + [d]| ==> (history + [d])[i].index > 0
  {
  }

  lemma SuffixGrows<T>(s: seq<T>, a: seq<T>, b: seq<T>, x: T)
    requires |a + b| <= |s| && a + b == s[|s| - |a + b|..]
    ensures a + b + [x] == (s + [x])[|s| - |a + b|..]
    ensures b + [x] == (s + [x])[|s| - |b|..]
  {
    assert s == s[..|s| - |a + b|] + a + b;
  }

  /** A poll that is not refused: the kept suffix holds all that was missed. */
  lemma PollWindow<T>(l: Log<T>, history: seq<Delta<T>>, last: int, applied: int)
    requires KeepsSuffix(l, history) && !NeedsFull(l, last, applied)
    ensures Window(l.fg + l.bg, last, applied) == Window(history, last, applied)
    ensures last < applied ==> last > 0
  {
    var all := l.fg + l.bg;
    var cut := |history| - |all|;
    assert history == history[..cut] + history[cut..];
    WindowConcat(history[..cut], all, last, applied);
    if all != [] {
      assert all[0] == history[cut];
      WindowEmpty(history[..cut], last, applied);
    } else {
      assert l.bg == [];
    }
  }

  lemma {:induction false} WindowSplit<T>(s: seq<Delta<T>>, a: int, b: int, c: int)
    requires Sorted(s) && a <= b <= c
    ensures Window(s, a, c) == Window(s, a, b) + Window(s, b, c)
    decreases |s|
  {
    if s != [] {
      WindowSplit(s[1..], a, b, c);
      if b < s[0].index {
        WindowEmpty(s, a, b);
      }
    }
  }

  /** Nothing lies between the last delivered index and the applied index. */
  lemma WindowToLast<T>(s: seq<Delta<T>>, last: int, applied: int)
    requires Sorted(s) && last <= applied
    ensures var w := Window(s, last, applied);
            last <= LastDelivered(w, last) <= applied && Window(s, last, LastDelivered(w, last)) == w
  {
    WindowExact(s, last, applied);
    var w := Window(s, last, applied);
    var end := LastDelivered(w, last);
    forall d | d in w ensures w[|w| - 1] in w && d.index <= end {
      var k :| 0 <= k < |w| && w[k] == d;
    }
    if w != [] {
      assert w[|w| - 1] in w;
    }
    WindowSplit(s, last, end, applied);
    forall i | 0 <= i < |s| ensures !(end < s[i].index <= applied) {
      assert last < s[i].index <= applied ==> s[i] in w;
    }
    WindowEmpty(s, end, applied);
  }

  lemma PollUpToDate<T>(s: System<T>, c: Client<T>, applied: int)
    requires KeepsSuffix(s.log, s.history) && UpToDate(s, c) && applied <= s.applied
    ensures UpToDate(s, PollOnce(s, c, applied))
  {
    if !NeedsFull(s.log, c.last, applied) {
      PollWindow(s.log, s.history, c.last, applied);
      var calls := Window(s.history, c.last, applied);
      if c.last < applied {
        WindowToLast(s.history, c.last, applied);
        WindowSplit(s.history, 0, c.last, LastDelivered(calls, c.last));
      } else {
        WindowEmpty(s.history, c.last, applied);
      }
    }
  }

  lemma ReportInv<T>(s: System<T>, d: Delta<T>, gcTime: int, c: Client<T>)
    requires UpToDate(s, c) && d.index > s.applied
    ensures UpToDate(s.(log := Put(s.log, d, gcTime), history := s.history + [d]), c)
  {
    WindowConcat(s.history, [d], 0, c.last);
    WindowEmpty([d], 0, c.last);
    assert Window(s.history, 0, c.last) + [] == Window(s.history, 0, c.last);
  }

  lemma ReportIsNewest<T>(s: System<T>, d: Delta<T>)
    requires KeepsSuffix(s.log, s.history) && s.applied >= 0 && Enabled(s, Report(d.index, d.info, d.put))
    ensures Newer(d, s.history) && d.index > s.applied
  {
    assert Sorted(s.history);
    hide KeepsSuffix;
  }

  lemma ClientsAfterReport<T>(s: System<T>, d: Delta<T>, gcTime: int)
    requires d.index > s.applied
    requires forall c :: 0 <= c < |s.clients| ==> UpToDate(s, s.clients[c])
    ensures forall c :: 0 <= c < |s.clients| ==>
              UpToDate(s.(log := Put(s.log, d, gcTime), history := s.history + [d]), s.clients[c])
  {
    hide Put, UpToDate;
    forall c | 0 <= c < |s.clients|
      ensures UpToDate(s.(log := Put(s.log, d, gcTime), history := s.history + [d]), s.clients[c])
    {
      ReportInv(s, d, gcTime, s.clients[c]);
    }
  }

  lemma ReportStep<T>(s: System<T>, d: Delta<T>, gcTime: int)
    requires Inv(s) && Enabled(s, Report(d.index, d.info, d.put))
    ensures Inv(s.(log := Put(s.log, d, gcTime), history := s.history + [d]))
  {
    hide Put, UpToDate, KeepsSuffix, Sorted, Newer, Enabled;
    ReportIsNewest(s, d);
    PutKeepsSuffix(s.log, s.history, d, gcTime);
    ClientsAfterReport(s, d, gcTime);
  }

  lemma StepInv<T>(s: System<T>, e: Event<T>, gcTime: int)
    requires Inv(s)
    ensures Inv(Next(s, e, gcTime))
  {
    if Enabled(s, e) {
      match e
      case Report(index, info, now) => ReportStep(s, Delta(index, info, now), gcTime);
      case Advance(index) =>
      case Poll(c, applied) => PollUpToDate(s, s.clients[c], applied);
    }
  }

  lemma {:induction false} RunInv<T>(s: System<T>, events: seq<Event<T>>, gcTime: int)
    requires Inv(s)
    ensures Inv(Run(s, events, gcTime))
    decreases |events|
  {
    if events != [] {
      StepInv(s, events[0], gcTime);
      RunInv(Next(s, events[0], gcTime), events[1..], gcTime);
    }
  }

  lemma ReachableSuffix<T>(clients: nat, start: int, events: seq<Event<T>>, gcTime: int)
    ensures var s := Run(Init(clients, start), events, gcTime);
            KeepsSuffix(s.log, s.history)
  {
    RunInv(Init(clients, start), events, gcTime);
  }

  /** After any interleaving of puts, generation swaps, moves of the applied index
      and polls, every client holds exactly the changes of the complete history up
      to its index. */
  lemma ClientsComplete<T>(clients: nat, start: int, events: seq<Event<T>>, gcTime: int)
    ensures var s := Run(Init(clients, start), events, gcTime);
            forall c :: 0 <= c < |s.clients| ==>
              s.clients[c].view == Window(s.history, 0, s.clients[c].last)
  {
    RunInv(Init(clients, start), events, gcTime);
  }

  lemma PollExact<T>(l: Log<T>, history: seq<Delta<T>>, last: int, applied: int)
    requires KeepsSuffix(l, history) && !NeedsFull(l, last, applied)
    ensures var calls := Window(l.fg + l.bg, last, applied);
            Sorted(calls) && forall d :: d in calls <==> d in history && last < d.index <= applied
  {
    PollWindow(l, history, last, applied);
    WindowExact(history, last, applied);
  }

  /** A poll answered false delivers, once each and in order, exactly the changes
      reported in (last, applied], whatever the two indexes are and whatever has
      been discarded. */
  lemma PollDeliversMissed<T>(clients: nat, start: int, events: seq<Event<T>>, gcTime: int, last: int, applied: int)
    requires !NeedsFull(Run(Init(clients, start), events, gcTime).log, last, applied)
    ensures var s := Run(Init(clients, start), events, gcTime);
            var calls := Window(s.log.fg + s.log.bg, last, applied);
            Sorted(calls) && forall d :: d in calls <==> d in s.history && last < d.index <= applied
  {
    hide Window, NeedsFull, Sorted, KeepsSuffix, UpToDate, Run;
    var s := Run(Init(clients, start), events, gcTime);
    ReachableSuffix<T>(clients, start, events, gcTime);
    PollExact(s.log, s.history, last, applied);
  }

  /** When a poll asks for a full refresh, in any run and for any two indexes: if
      entries are kept, exactly when the client is behind them all; if none is,
      exactly when it is behind the applied index. */
  lemma PollRefreshIff<T>(clients: nat, start: int, events: seq<Event<T>>, gcTime: int, last: int, applied: int)
    ensures var s := Run(Init(clients, start), events, gcTime);
            var kept := s.log.fg + s.log.bg;
            && |kept| <= |s.history| && kept == s.history[|s.history| - |kept|..]
            && (kept == [] ==> (NeedsFull(s.log, last, applied) <==> last < applied))
            && (kept != [] ==> (NeedsFull(s.log, last, applied) <==> forall d :: d in kept ==> last < d.index))
  {
    var s := Run(Init(clients, start), events, gcTime);
    hide Run;
    ReachableSuffix<T>(clients, start, events, gcTime);
    LogsStayValid<T>(clients, start, events, gcTime);
    BelowOldest(s.log.fg + s.log.bg, last);
  }

  /** So a client that stopped at an entry which is still kept is never told to
      refresh: it gets exactly what came after, up to the applied index. */
  lemma KeptNeedsNoRefresh<T>(clients: nat, start: int, events: seq<Event<T>>, gcTime: int, at: Delta<T>, applied: int)
    requires var l := Run(Init<T>(clients, start), events, gcTime).log;
             at in l.fg + l.bg
    ensures var s := Run(Init(clients, start), events, gcTime);
            var calls := Window(s.log.fg + s.log.bg, at.index, applied);
            && !NeedsFull(s.log, at.index, applied)
            && Sorted(calls) && forall d :: d in calls <==> d in s.history && at.index < d.index <= applied
  {
    hide Run, NeedsFull, Window;
    PollRefreshIff<T>(clients, start, events, gcTime, at.index, applied);
    PollDeliversMissed<T>(clients, start, events, gcTime, at.index, applied);
  }

  /** And after a poll, refreshed or not, the client has seen every change up to
      the applied index it polled with. */
  lemma PollCatchesUp<T>(clients: nat, start: int, events: seq<Event<T>>, gcTime: int, c: nat, applied: int)
    requires Enabled(Run(Init<T>(clients, start), events, gcTime), Poll(c, applied))
    ensures var s := Run(Init(clients, start), events, gcTime);
            var client := Next(s, Poll(c, applied), gcTime).clients[c];
            forall d :: d in s.history && d.index <= applied ==> d in client.view
  {
    var s := Run(Init(clients, start), events, gcTime);
    RunInv(Init(clients, start), events, gcTime);
    hide Run, KeepsSuffix, NeedsFull, Window;
    assert Sorted(s.history) && forall d :: d in s.history ==> d.index > 0 by {
      ReachableSuffix<T>(clients, start, events, gcTime);
      HistoryPositive(s.log, s.history);
    }
    var last := s.clients[c].last;
    WindowExact(s.history, 0, applied);
    WindowExact(s.history, 0, last);
    if !NeedsFull(s.log, last, applied) {
      PollDeliversMissed<T>(clients, start, events, gcTime, last, applied);
    }
  }

  lemma HistoryPositive<T>(l: Log<T>, history: seq<Delta<T>>)
    requires KeepsSuffix(l, history)
    ensures Sorted(history) && forall d :: d in history ==> d.index > 0
  {
  }

  /** The order that polls rely on holds in every run. */
  lemma LogsStayValid<T>(clients: nat, start: int, events: seq<Event<T>>, gcTime: int)
    ensures Valid(Run(Init(clients, start), events, gcTime).log)
  {
    hide Valid, KeepsSuffix, Run;
    var s := Run(Init(clients, start), events, gcTime);
    ReachableSuffix<T>(clients, start, events, gcTime);
    SuffixSorted(s.log, s.history);
  }

  lemma SuffixSorted<T>(l: Log<T>, history: seq<Delta<T>>)
    requires KeepsSuffix(l, history)
    ensures Valid(l)
  {
    var all := l.fg + l.bg;
    var cut := |history| - |all|;
    forall i, j | 0 <= i < j < |all| ensures all[i].index < all[j].index {
      assert all[i] == history[cut + i] && all[j] == history[cut + j];
    }
  }

  // ---- how long an entry is kept

  /** The background's first put is its time stamp, and the foreground is older than it. */
  predicate Aged<T>(l: Log<T>) {
    && (l.bg != [] ==> forall i :: 0 <= i < |l.bg| ==> l.earliest <= l.bg[i].put)
    && (l.bg != [] ==> forall i :: 0 <= i < |l.fg| ==> l.fg[i].put <= l.earliest)
  }

  /** now does not lie before any entry. */
  predicate NotAfter<T>(l: Log<T>, now: int) {
    && l.earliest <= now
    && (forall i :: 0 <= i < |l.fg| ==> l.fg[i].put <= now)
    && (forall i :: 0 <= i < |l.bg| ==> l.bg[i].put <= now)
  }

  /** With a clock that never goes back, what a put throws away is older than
      gcTime when it goes. */
  lemma DiscardedIsOld<T>(l: Log<T>, d: Delta<T>, gcTime: int)
    requires Aged(l) && NotAfter(l, d.put)
    requires forall i :: 0 <= i < |l.bg| ==> l.bg[i].index < d.index
    ensures Aged(Put(l, d, gcTime)) && NotAfter(Put(l, d, gcTime), d.put)
    ensures forall e :: e in l.fg && e !in Put(l, d, gcTime).fg + Put(l, d, gcTime).bg ==> d.put - e.put > gcTime
    ensures forall e :: e in l.bg ==> e in Put(l, d, gcTime).fg + Put(l, d, gcTime).bg
  {
    StoreAtEnd(l.bg, d);
  }

  /** Puts in index order by a clock that never goes back. */
  predicate Clocked<T>(ds: seq<Delta<T>>, start: int)
    decreases |ds|
  {
    ds == []
    || (start <= ds[0].put && (forall i :: 1 <= i < |ds| ==> ds[0].index < ds[i].index) && Clocked(ds[1..], ds[0].put))
  }

  /** At every one of the puts, what goes is older than gcTime, and the background stays. */
  ghost predicate OldGo<T>(l: Log<T>, ds: seq<Delta<T>>, gcTime: int)
    decreases |ds|
  {
    ds == []
    || (var t := Put(l, ds[0], gcTime);
        && (forall e :: e in l.fg && e !in t.fg + t.bg ==> ds[0].put - e.put > gcTime)
        && (forall e :: e in l.bg ==> e in t.fg + t.bg)
        && OldGo(t, ds[1..], gcTime))
  }

  lemma {:induction false} AgedGo<T>(l: Log<T>, ds: seq<Delta<T>>, last: int, gcTime: int)
    requires Aged(l) && NotAfter(l, last) && Clocked(ds, last)
    requires forall i, j :: 0 <= i < |l.bg| && 0 <= j < |ds| ==> l.bg[i].index < ds[j].index
    ensures OldGo(l, ds, gcTime)
    decreases |ds|
  {
    if ds != [] {
      DiscardedIsOld(l, ds[0], gcTime);
      StoreAtEnd(l.bg, ds[0]);
      AgedGo(Put(l, ds[0], gcTime), ds[1..], ds[0].put, gcTime);
    }
  }

  /** Over every sequence of puts from an empty log, by a clock that never goes
      back, nothing is discarded before it is older than gcTime. */
  lemma DiscardsAreOld<T>(ds: seq<Delta<T>>, start: int, gcTime: int)
    requires Clocked(ds, start)
    ensures OldGo(Log([], [], start), ds, gcTime)
  {
    AgedGo(Log([], [], start), ds, start, gcTime);
  }

  /** fgFirst is the time stamp the foreground had when it was the background. */
  predicate Young<T>(l: Log<T>, fgFirst: int, now: int, gcTime: int, d: int) {
    && (l.fg != [] ==> forall i :: 0 <= i < |l.fg| ==> fgFirst <= l.fg[i].put)
    && (l.bg != [] ==> forall i :: 0 <= i < |l.bg| ==> l.earliest <= l.bg[i].put)
    && (l.bg != [] ==> l.earliest <= now <= l.earliest + gcTime)
    && (l.fg != [] && l.bg == [] ==> now <= fgFirst + gcTime + d)
    && (l.fg != [] && l.bg != [] ==> l.earliest <= fgFirst + gcTime + 2 * d)
  }

  function PutAll<T>(l: Log<T>, ds: seq<Delta<T>>, gcTime: int): Log<T>
    decreases |ds|
  {
    if ds == [] then l else PutAll(Put(l, ds[0], gcTime), ds[1..], gcTime)
  }

  /** Puts in index order, the first at most gap after last, each at most gap after the one before. */
  predicate Spaced<T>(ds: seq<Delta<T>>, last: int, gap: int)
    decreases |ds|
  {
    ds == []
    || (last <= ds[0].put <= last + gap
        && (forall i :: 1 <= i < |ds| ==> ds[0].index < ds[i].index)
        && Spaced(ds[1..], ds[0].put, gap))
  }

  function LastPut<T>(ds: seq<Delta<T>>, last: int): int {
    if ds == [] then last else ds[|ds| - 1].put
  }

  lemma PutYoung<T>(l: Log<T>, fgFirst: int, last: int, d: Delta<T>, gcTime: int, gap: int) returns (first: int)
    requires gcTime >= 0 && Young(l, fgFirst, last, gcTime, gap) && last <= d.put <= last + gap
    requires forall i :: 0 <= i < |l.bg| ==> l.bg[i].index < d.index
    ensures Young(Put(l, d, gcTime), first, d.put, gcTime, gap)
  {
    StoreAtEnd(l.bg, d);
    first := if l.bg != [] && d.put - l.earliest > gcTime then l.earliest else fgFirst;
  }

  lemma {:induction false} PutAllYoung<T>(l: Log<T>, fgFirst: int, last: int, ds: seq<Delta<T>>, gcTime: int, gap: int)
    returns (first: int)
    requires gcTime >= 0 && Young(l, fgFirst, last, gcTime, gap) && Spaced(ds, last, gap)
    requires forall i, j :: 0 <= i < |l.bg| && 0 <= j < |ds| ==> l.bg[i].index < ds[j].index
    ensures Young(PutAll(l, ds, gcTime), first, LastPut(ds, last), gcTime, gap)
    decreases |ds|
  {
    if ds == [] {
      first := fgFirst;
    } else {
      var mid := PutYoung(l, fgFirst, last, ds[0], gcTime, gap);
      StoreAtEnd(l.bg, ds[0]);
      first := PutAllYoung(Put(l, ds[0], gcTime), mid, ds[0].put, ds[1..], gcTime, gap);
    }
  }

  /** While puts come at most gap apart, no entry outlives 2 * gcTime + 3 * gap. */
  lemma NothingOutlives<T>(ds: seq<Delta<T>>, start: int, gcTime: int, gap: int, now: int)
    requires gcTime >= 0 && gap >= 0 && Spaced(ds, start, gap)
    requires LastPut(ds, start) <= now <= LastPut(ds, start) + gap
    ensures var l := PutAll(Log([], [], start), ds, gcTime);
            forall e :: e in l.fg + l.bg ==> now - e.put <= 2 * gcTime + 3 * gap
  {
    var first := PutAllYoung(Log([], [], start), start, start, ds, gcTime, gap);
  }

  /** The bound is reached: five puts, each g after the last, with gcTime == g. */
  lemma BoundReached<T>(x: T, g: int)
    requires g > 0
    ensures var ds := [Delta(1, x, 0), Delta(2, x, g), Delta(3, x, 2 * g), Delta(4, x, 3 * g), Delta(5, x, 4 * g)];
            && Spaced(ds, 0, g)
            && Delta(1, x, 0) in PutAll(Log([], [], 0), ds, g).fg
            && LastPut(ds, 0) + g - 0 == 2 * g + 3 * g
  {
    var d1, d2, d3 := Delta(1, x, 0), Delta(2, x, g), Delta(3, x, 2 * g);
    var d4, d5 := Delta(4, x, 3 * g), Delta(5, x, 4 * g);
    FiveSpaced(d1, d2, d3, d4, d5, g);
    FivePut(d1, d2, d3, d4, d5, g);
  }

  lemma FiveSpaced<T>(d1: Delta<T>, d2: Delta<T>, d3: Delta<T>, d4: Delta<T>, d5: Delta<T>, g: int)
    requires d1.index < d2.index < d3.index < d4.index < d5.index && g > 0
    requires d1.put == 0 && d2.put == g && d3.put == 2 * g && d4.put == 3 * g && d5.put == 4 * g
    ensures Spaced([d1, d2, d3, d4, d5], 0, g)
  {
    assert [d1, d2, d3, d4, d5][1..] == [d2, d3, d4, d5] && [d2, d3, d4, d5][1..] == [d3, d4, d5];
    assert [d3, d4, d5][1..] == [d4, d5] && [d4, d5][1..] == [d5] && [d5][1..] == [];
    assert Spaced([d4, d5], 2 * g, g);
    assert Spaced([d3, d4, d5], g, g);
    assert Spaced([d2, d3, d4, d5], 0, g);
  }

  lemma FivePut<T>(d1: Delta<T>, d2: Delta<T>, d3: Delta<T>, d4: Delta<T>, d5: Delta<T>, g: int)
    requires d1.index < d2.index < d3.index < d4.index < d5.index && g > 0
    requires d1.put == 0 && d2.put == g && d3.put == 2 * g && d4.put == 3 * g && d5.put == 4 * g
    ensures PutAll(Log([], [], 0), [d1, d2, d3, d4, d5], g) == Log([d1, d2, d3], [d4, d5], 3 * g)
  {
    assert [d1, d2, d3, d4, d5][1..] == [d2, d3, d4, d5] && [d2, d3, d4, d5][1..] == [d3, d4, d5];
    assert [d3, d4, d5][1..] == [d4, d5] && [d4, d5][1..] == [d5] && [d5][1..] == [];
    StoreAtEnd([d1], d2);
    StoreAtEnd([d1, d2], d3);
    StoreAtEnd([d4], d5);
    var none: seq<Delta<T>> := [];
    assert [d1] + [d2] == [d1, d2] && [d1, d2] + [d3] == [d1, d2, d3] && [d4] + [d5] == [d4, d5];
    var l3, l5 := Log([d1, d2, d3], none, 0), Log([d1, d2, d3], [d4, d5], 3 * g);
    assert PutAll(l3, [d4, d5], g) == PutAll(Log([d1, d2, d3], [d4], 3 * g), [d5], g) == l5;
    assert PutAll(Log(none, [d1, d2], 0), [d3, d4, d5], g) == PutAll(l3, [d4, d5], g);
    assert PutAll(Log(none, [d1], 0), [d2, d3, d4, d5], g) == l5;
  }
}

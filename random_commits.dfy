/**
 * The random commit schedule of random-commits.js. The loop as written
 * (BuildScheduleAsWritten) starts a window at the start day, clamps it to
 * the end of that day's ISO week and of the range, and then moves seven days
 * on; after a start that is not a Monday every window begins on the start's
 * weekday and holds fewer than 7 days. In each window it picks some of the
 * days (3 to 6 when the window offers at least 3), gives each picked day 1
 * to 3 commits at a time between 09:00 and 20:59, and sorts all commit
 * times. BuildSchedule is the corrected loop, which walks the range one ISO
 * week at a time.
 *
 * Randomness is a nondeterministic choice (RandomInt): a proof about the
 * schedule holds whatever numbers the random source returns.
 */
module RandomCommits {
  import opened Results
  import opened Calendar
  import opened Text

  /** `random.int(lo, hi)`: some integer of [lo, hi]. What the library
      returns when lo > hi is not modelled. */
  method RandomInt(lo: int, hi: int) returns (r: int)
    ensures lo <= hi ==> lo <= r <= hi
  {
    if lo <= hi {
      r :| lo <= r <= hi;
    } else {
      r :| true;
    }
  }

  // ---------------------------------------------------------------------
  // Fisher-Yates shuffle

  ghost predicate Distinct<T>(s: seq<T>)
  {
    forall i, j :: 0 <= i < j < |s| ==> s[i] != s[j]
  }

  /** `[arr[i], arr[j]] = [arr[j], arr[i]]` on a list: the elements at i and
      j exchanged (SwapPermutes: the multiset of elements is kept). */
  function SwapAt<T>(s: seq<T>, i: nat, j: nat): (r: seq<T>)
    requires i < |s| && j < |s|
    ensures |r| == |s|
    ensures r[i] == s[j] && r[j] == s[i]
  {
    seq(|s|, k requires 0 <= k < |s| => if k == j then s[i] else if k == i then s[j] else s[k])
  }

  /** draws[k] is the partner drawn for position n-1-k, so it lies in
      [0, n-1-k]; at most n-1 positions are visited. */
  ghost predicate DrawsFit(n: nat, draws: seq<int>)
  {
    (draws == [] || |draws| < n) && forall k :: 0 <= k < |draws| ==> 0 <= draws[k] <= n - 1 - k
  }

  /** The list after the first n swaps of the shuffle: position |s|-1-k
      exchanged with draws[k], for k = 0, ..., n-1. */
  function ApplyFirst<T>(s: seq<T>, draws: seq<int>, n: nat): (r: seq<T>)
    requires DrawsFit(|s|, draws) && n <= |draws|
    ensures |r| == |s|
    decreases n
  {
    if n == 0 then s
    else SwapAt(ApplyFirst(s, draws, n - 1), |s| - n, draws[n - 1])
  }

  /** The list after all of the shuffle's swaps. */
  function ApplyDraws<T>(s: seq<T>, draws: seq<int>): (r: seq<T>)
    requires DrawsFit(|s|, draws)
  {
    ApplyFirst(s, draws, |draws|)
  }

  /** The shuffle only rearranges: it keeps every element and its count. */
  lemma {:induction false} ApplyFirstPermutes<T>(s: seq<T>, draws: seq<int>, n: nat)
    requires DrawsFit(|s|, draws) && n <= |draws|
    ensures multiset(ApplyFirst(s, draws, n)) == multiset(s)
  {
    if n > 0 {
      ApplyFirstPermutes(s, draws, n - 1);
      StepPermutes(s, draws, n);
    }
  }

  lemma StepPermutes<T>(s: seq<T>, draws: seq<int>, n: nat)
    requires DrawsFit(|s|, draws) && 0 < n <= |draws|
    ensures multiset(ApplyFirst(s, draws, n)) == multiset(ApplyFirst(s, draws, n - 1))
  {
    SwapPermutes(ApplyFirst(s, draws, n - 1), |s| - n, draws[n - 1]);
  }

  /** Exchanging two positions keeps the multiset of elements. */
  lemma SwapPermutes<T>(s: seq<T>, i: nat, j: nat)
    requires i < |s| && j < |s|
    ensures multiset(SwapAt(s, i, j)) == multiset(s)
  {
    var t := s[i := s[j]];
    assert SwapAt(s, i, j) == t[j := s[i]];
    assert multiset(t) == multiset(s) - multiset{s[i]} + multiset{s[j]};
  }

  /** The shuffle never duplicates an element: a list without repeats stays
      without repeats. */
  lemma {:induction false} ApplyFirstDistinct<T>(s: seq<T>, draws: seq<int>, n: nat)
    requires DrawsFit(|s|, draws) && n <= |draws|
    requires Distinct(s)
    ensures Distinct(ApplyFirst(s, draws, n))
  {
    if n > 0 {
      ApplyFirstDistinct(s, draws, n - 1);
      SwapDistinct(ApplyFirst(s, draws, n - 1), |s| - n, draws[n - 1]);
    }
  }

  /** Exchanging two positions keeps a list without repeats. */
  lemma SwapDistinct<T>(s: seq<T>, i: nat, j: nat)
    requires i < |s| && j < |s| && Distinct(s)
    ensures Distinct(SwapAt(s, i, j))
  {
    var r := SwapAt(s, i, j);
    forall a, b | 0 <= a < b < |r|
      ensures r[a] != r[b]
    {
      var a' := if a == i then j else if a == j then i else a;
      var b' := if b == i then j else if b == j then i else b;
      assert r[a] == s[a'] && r[b] == s[b'];
    }
  }

  /** `shuffle(arr)`: Fisher-Yates in place, walking i down from the last
      position to 1 and swapping arr[i] with arr[j] for a j drawn from [0, i].
      The ghost result records the j drawn at each step. */
  method Shuffle<T>(a: array<T>) returns (ghost draws: seq<int>)
    modifies a
    ensures |draws| == (if a.Length == 0 then 0 else a.Length - 1)
    ensures DrawsFit(a.Length, draws)
    ensures a[..] == ApplyDraws(old(a[..]), draws)
    ensures multiset(a[..]) == multiset(old(a[..]))
  {
    ghost var s0 := a[..];
    draws := [];
    var i := a.Length - 1;
    while i > 0
      invariant -1 <= i < a.Length
      invariant a.Length > 0 ==> 0 <= i
      invariant |draws| == a.Length - 1 - i
      invariant DrawsFit(|s0|, draws)
      invariant a[..] == ApplyDraws(s0, draws)
    {
      var j := RandomInt(0, i);
      SwapStep(a, i, j);
      ApplyDrawsSnoc(s0, draws, j);
      draws := draws + [j];
      i := i - 1;
    }
    ApplyFirstPermutes(s0, draws, |draws|);
  }

  /** One step of the shuffle: `[arr[i], arr[j]] = [arr[j], arr[i]]`. */
  method SwapStep<T>(a: array<T>, i: int, j: int)
    requires 0 <= i < a.Length && 0 <= j < a.Length
    modifies a
    ensures a[..] == SwapAt(old(a[..]), i, j)
  {
    var t := a[i];
    a[i] := a[j];
    a[j] := t;
  }

  /** One more draw swaps the current list once more. */
  lemma ApplyDrawsSnoc<T>(s0: seq<T>, draws: seq<int>, j: int)
    requires DrawsFit(|s0|, draws) && |draws| < |s0| - 1
    requires 0 <= j <= |s0| - 1 - |draws|
    ensures DrawsFit(|s0|, draws + [j])
    ensures ApplyDraws(s0, draws + [j]) == SwapAt(ApplyDraws(s0, draws), |s0| - 1 - |draws|, j)
  {
    var ds := draws + [j];
    assert DrawsFit(|s0|, ds) by {
      forall k | 0 <= k < |ds|
        ensures 0 <= ds[k] <= |s0| - 1 - k
      {
        if k < |draws| {
          assert ds[k] == draws[k];
        }
      }
    }
    ApplyFirstPrefix(s0, draws, j, |draws|);
    assert ds[|draws|] == j;
  }

  /** Draws after the first n do not affect the first n swaps. */
  lemma {:induction false} ApplyFirstPrefix<T>(s: seq<T>, draws: seq<int>, j: int, n: nat)
    requires DrawsFit(|s|, draws) && DrawsFit(|s|, draws + [j]) && n <= |draws|
    ensures ApplyFirst(s, draws + [j], n) == ApplyFirst(s, draws, n)
  {
    if n > 0 {
      ApplyFirstPrefix(s, draws, j, n - 1);
      assert (draws + [j])[n - 1] == draws[n - 1];
    }
  }

  /** Shuffling 0, 1, ..., n-1 gives each of them exactly once. */
  lemma ShuffledKeys(n: nat, draws: seq<int>)
    requires DrawsFit(n, draws)
    ensures var r := ApplyDraws(seq(n, i => i), draws);
      Distinct(r) && forall x :: x in multiset(r) <==> 0 <= x < n
  {
    var keys := seq(n, i => i);
    assert forall x :: 0 <= x < n ==> keys[x] == x;
    ApplyFirstDistinct(keys, draws, |draws|);
    ApplyFirstPermutes(keys, draws, |draws|);
    forall x
      ensures x in multiset(keys) <==> 0 <= x < n
    {
      if x in multiset(keys) {
        assert x in keys;
      }
      if 0 <= x < n {
        assert keys[x] == x;
      }
    }
  }

  // ---------------------------------------------------------------------
  // Week windows

  /** An inclusive run of days. */
  datatype Window = Window(first: Day, last: Day)

  function Length(w: Window): int
  {
    w.last - w.first + 1
  }

  /** The windows the schedule loop visits from the given cursor on: the
      cursor up to the Sunday of its ISO week (or `through`, if earlier), then
      the cursor moves to the next ISO Monday. */
  function Windows(cursor: Day, through: Day): (ws: seq<Window>)
    ensures forall w :: w in ws ==> cursor <= w.first <= w.last <= through
    decreases through - cursor
  {
    if through < cursor then []
    else [Window(cursor, Min(through, IsoWeekEnd(cursor)))] + Windows(IsoWeekStart(cursor) + 7, through)
  }

  /** The windows of random-commits.js:71-99 as written: the cursor moves
      seven days from wherever it is, so every window starts on the weekday
      of `from`. */
  function WindowsAsWritten(cursor: Day, through: Day): (ws: seq<Window>)
    ensures forall w :: w in ws ==> cursor <= w.first <= w.last <= through
    decreases through - cursor
  {
    if through < cursor then []
    else [Window(cursor, Min(through, IsoWeekEnd(cursor)))] + WindowsAsWritten(cursor + 7, through)
  }

  /** The windows cut [from, through] into consecutive pieces: the first
      starts at from, the last ends at through, and each starts the day
      after the previous one ends. */
  lemma {:induction false} WindowsPartition(from: Day, through: Day)
    ensures var ws := Windows(from, through);
      |ws| > 0 <==> from <= through
    ensures var ws := Windows(from, through);
      |ws| > 0 ==> ws[0].first == from && ws[|ws| - 1].last == through
    ensures var ws := Windows(from, through);
      forall i :: 0 <= i < |ws| ==> from <= ws[i].first <= ws[i].last <= through
    ensures var ws := Windows(from, through);
      forall i, j :: 0 <= i && j == i + 1 && j < |ws| ==> ws[j].first == ws[i].last + 1
    decreases through - from
  {
    if from <= through {
      var next := IsoWeekStart(from) + 7;
      var head := Window(from, Min(through, IsoWeekEnd(from)));
      WindowsPartition(next, through);
      var ws := Windows(from, through);
      var rest := Windows(next, through);
      assert ws == [head] + rest;
      forall i, j | 0 <= i && j == i + 1 && j < |ws|
        ensures ws[j].first == ws[i].last + 1
      {
        assert ws[j] == rest[i];
        if i > 0 {
          assert ws[i] == rest[i - 1];
        }
      }
    }
  }

  /** Each window lies inside one ISO week; every window but the first
      starts on a Monday and every window but the last ends on a Sunday. */
  lemma {:induction false} WindowsInWeeks(from: Day, through: Day)
    ensures var ws := Windows(from, through);
      forall i :: 0 <= i < |ws| ==> IsoWeekStart(ws[i].first) == IsoWeekStart(ws[i].last)
    ensures var ws := Windows(from, through);
      forall i :: 0 < i < |ws| ==> IsoWeekday(ws[i].first) == 1
    ensures var ws := Windows(from, through);
      forall i :: 0 <= i < |ws| - 1 ==> IsoWeekday(ws[i].last) == 7
    ensures var ws := Windows(from, through);
      forall i :: 0 <= i < |ws| ==> 1 <= Length(ws[i]) <= 7
    decreases through - from
  {
    if from <= through {
      var next := IsoWeekStart(from) + 7;
      var head := Window(from, Min(through, IsoWeekEnd(from)));
      SameIsoWeek(from, head.last);
      WindowsInWeeks(next, through);
      var ws := Windows(from, through);
      var rest := Windows(next, through);
      assert ws == [head] + rest;
      if rest != [] {
        WindowsPartition(next, through);
        assert IsoWeekday(next) == 1 by {
          WeekdayShift(IsoWeekStart(from), 1);
        }
        assert head.last == IsoWeekEnd(from);
      }
      assert Length(head) <= 7;
      forall i | 0 < i < |ws|
        ensures IsoWeekStart(ws[i].first) == IsoWeekStart(ws[i].last)
        ensures 1 <= Length(ws[i]) <= 7
        ensures IsoWeekday(ws[i].first) == 1
        ensures i < |ws| - 1 ==> IsoWeekday(ws[i].last) == 7
      {
        assert ws[i] == rest[i - 1];
      }
    }
  }

  /** Windows are in increasing order and do not overlap. */
  lemma WindowsDisjoint(from: Day, through: Day)
    ensures var ws := Windows(from, through);
      forall i, j :: 0 <= i < j < |ws| ==> ws[i].last < ws[j].first
  {
    var ws := Windows(from, through);
    WindowsPartition(from, through);
    forall i, j | 0 <= i < j < |ws|
      ensures ws[i].last < ws[j].first
    {
      var k := i + 1;
      while k < j
        invariant i < k <= j
        invariant ws[i].last < ws[k].first
      {
        k := k + 1;
      }
    }
  }

  /** Windows inside [from, through], in increasing order, not overlapping:
      no day is offered by two iterations of the loop. */
  ghost predicate Ordered(ws: seq<Window>, from: Day, through: Day)
  {
    && (forall i :: 0 <= i < |ws| ==> from <= ws[i].first <= ws[i].last <= through)
    && (forall i, j :: 0 <= i < j < |ws| ==> ws[i].last < ws[j].first)
  }

  lemma WindowsOrdered(from: Day, through: Day)
    ensures Ordered(Windows(from, through), from, through)
  {
    WindowsPartition(from, through);
    WindowsDisjoint(from, through);
  }

  /** The windows as written are ordered too: window i ends before from + 7(i + 1). */
  lemma WindowsAsWrittenOrdered(from: Day, through: Day)
    ensures Ordered(WindowsAsWritten(from, through), from, through)
  {
    var ws := WindowsAsWritten(from, through);
    if from <= through {
      WindowsAsWrittenShape(from, through);
      forall i, j | 0 <= i < j < |ws|
        ensures ws[i].last < ws[j].first
      {
        assert ws[i].last < IsoWeekStart(ws[i].last) + 7;
        assert ws[i].last < ws[i].first + 7;
      }
    }
  }

  /** Every day of [from, through] lies in some window. */
  lemma WindowsCover(from: Day, through: Day, d: Day) returns (i: nat)
    requires from <= d <= through
    ensures var ws := Windows(from, through);
      i < |ws| && ws[i].first <= d <= ws[i].last
  {
    var ws := Windows(from, through);
    WindowsPartition(from, through);
    i := 0;
    while ws[i].last < d
      invariant i < |ws| && ws[i].first <= d
      decreases |ws| - i
    {
      i := i + 1;
    }
  }

  /** The loop runs once per ISO week that meets [from, through]. */
  lemma {:induction false} WindowsCount(from: Day, through: Day)
    requires from <= through
    ensures |Windows(from, through)| == (IsoWeekStart(through) - IsoWeekStart(from)) / 7 + 1
    decreases through - from
  {
    var next := IsoWeekStart(from) + 7;
    if through <= IsoWeekEnd(from) {
      SameIsoWeek(from, through);
    } else {
      assert IsoWeekday(next) == 1 by {
        WeekdayShift(IsoWeekStart(from), 1);
      }
      WindowsCount(next, through);
      IsoWeekStartUnique(next, next);
      var a := IsoWeekStart(through) - next;
      assert IsoWeekday(IsoWeekStart(through)) == 1;
      MondaysApart(next, IsoWeekStart(through));
      assert (a + 7) / 7 == a / 7 + 1;
    }
  }

  lemma MondaysApart(m1: Day, m2: Day)
    requires IsoWeekday(m1) == 1 && IsoWeekday(m2) == 1
    ensures (m2 - m1) % 7 == 0
  {
    var q1 := (m1 + 3) / 7;
    var q2 := (m2 + 3) / 7;
    assert m1 + 3 == 7 * q1;
    assert m2 + 3 == 7 * q2;
    assert m2 - m1 == 7 * (q2 - q1);
  }

  /** As written, the i-th window starts exactly 7i days after `from`, each
      lies inside one ISO week, and the loop runs (through - from) / 7 + 1 times. */
  lemma {:induction false} WindowsAsWrittenShape(from: Day, through: Day)
    requires from <= through
    ensures (var ws := WindowsAsWritten(from, through);
      && |ws| == (through - from) / 7 + 1
      && (forall i :: 0 <= i < |ws| ==> ws[i].first == from + 7 * i)
      && (forall i :: 0 <= i < |ws| ==> ws[i].first <= ws[i].last <= through)
      && (forall i :: 0 <= i < |ws| ==> IsoWeekStart(ws[i].first) == IsoWeekStart(ws[i].last)))
    decreases through - from
  {
    var ws := WindowsAsWritten(from, through);
    SameIsoWeek(from, Min(through, IsoWeekEnd(from)));
    if from + 7 <= through {
      WindowsAsWrittenShape(from + 7, through);
      var rest := WindowsAsWritten(from + 7, through);
      assert ws == [ws[0]] + rest;
      assert (through - from - 7) / 7 + 1 == (through - from) / 7;
      forall i | 0 < i < |ws|
        ensures ws[i].first == from + 7 * i
      {
        assert ws[i] == rest[i - 1];
      }
    } else {
      assert (through - from) / 7 == 0;
    }
  }

  /** As written, a schedule that starts on a Sunday only ever offers that
      weekday: every window is a single Sunday. */
  lemma {:induction false} SundayStartAsWritten(from: Day, through: Day)
    requires IsoWeekday(from) == 7
    ensures (forall w :: w in WindowsAsWritten(from, through) ==> w.first == w.last && IsoWeekday(w.first) == 7)
    decreases through - from
  {
    if from <= through {
      IsoWeekStartUnique(from, from - 6);
      WeekdayShift(from, 1);
      SundayStartAsWritten(from + 7, through);
    }
  }

  /** From any Sunday through the following Saturday (for instance from
      1970-01-04, day 3, through day 9) the loop as written visits one
      window, the Sunday, and never offers Monday through Saturday; the
      ISO-week windows offer both weeks' days. */
  lemma AsWrittenMissesDays(from: Day)
    requires IsoWeekday(from) == 7
    ensures WindowsAsWritten(from, from + 6) == [Window(from, from)]
    ensures Windows(from, from + 6) == [Window(from, from), Window(from + 1, from + 6)]
  {
    var q := (from + 3) / 7;
    assert from + 3 == 7 * q + 6;
    assert IsoWeekStart(from) == from - 6 && IsoWeekEnd(from) == from;
    assert from + 1 + 3 == 7 * (q + 1);
    assert IsoWeekStart(from + 1) == from + 1 && IsoWeekEnd(from + 1) == from + 7;
    assert WindowsAsWritten(from + 7, from + 6) == [];
    assert Windows(from + 8, from + 6) == [];
    assert Windows(from + 1, from + 6) == [Window(from + 1, from + 6)];
  }

  /** From a Monday the two loops agree: the cursor is always a Monday, so
      moving it seven days is moving it to the next ISO Monday. */
  lemma {:induction false} MondayStartAgrees(from: Day, through: Day)
    requires IsoWeekday(from) == 1
    ensures WindowsAsWritten(from, through) == Windows(from, through)
    decreases through - from
  {
    if from <= through {
      IsoWeekStartUnique(from, from);
      WeekdayShift(from, 1);
      MondayStartAgrees(from + 7, through);
    }
  }

  /** A Monday through the following Sunday is one window of seven days. */
  lemma OneFullWeek(from: Day)
    requires IsoWeekday(from) == 1
    ensures Windows(from, from + 6) == [Window(from, from + 6)]
  {
    IsoWeekStartUnique(from, from);
    assert Windows(from + 7, from + 6) == [];
  }

  // ---------------------------------------------------------------------
  // Filling a week

  /** Hour 9 to 20, minute 0 to 59, second 0. */
  predicate ValidTime(t: Timestamp)
  {
    9 <= t.hour <= 20 && 0 <= t.minute <= 59 && t.second == 0
  }

  /** How many elements `xs.slice(0, end)` keeps of a list of length len:
      a negative end counts from the back. */
  function SliceEnd(len: nat, end: int): (n: nat)
    ensures n <= len
    ensures 0 <= end ==> n == Min(end, len)
  {
    if end >= 0 then Min(end, len) else Max(len + end, 0)
  }

  /** What one iteration of the schedule loop did: its window, the number of
      days drawn, the day offsets picked and the commit times of each picked
      day. */
  datatype Week = Week(window: Window, numDays: int, offsets: seq<int>, stamps: seq<seq<Timestamp>>)

  /** The promises of one iteration: 3 to min(6, k) distinct days when the
      window has k >= 3 days, each picked day with 1 to 3 commits at valid
      times on that day. */
  ghost predicate WellFormedWeek(w: Week)
  {
    var k := Length(w.window);
    && 1 <= k
    && (k >= 3 ==> 3 <= w.numDays <= Min(6, k))
    && |w.offsets| == SliceEnd(k, w.numDays)
    && Distinct(w.offsets)
    && (forall j :: 0 <= j < |w.offsets| ==> 0 <= w.offsets[j] < k)
    && |w.stamps| == |w.offsets|
    && (forall j :: 0 <= j < |w.stamps| ==> 1 <= |w.stamps[j]| <= 3)
    && (forall j, t :: 0 <= j < |w.stamps| && t in w.stamps[j] ==>
          t.day == w.window.first + w.offsets[j] && ValidTime(t))
  }

  /** The lists concatenated in order. */
  function Flatten(ss: seq<seq<Timestamp>>): (r: seq<Timestamp>)
    ensures forall t :: t in r <==> exists j :: 0 <= j < |ss| && t in ss[j]
  {
    if ss == [] then []
    else
      var r := Flatten(ss[..|ss| - 1]) + ss[|ss| - 1];
      assert forall j :: 0 <= j < |ss| - 1 ==> ss[..|ss| - 1][j] == ss[j];
      r
  }

  lemma FlattenSnoc(ss: seq<seq<Timestamp>>, s: seq<Timestamp>)
    ensures Flatten(ss + [s]) == Flatten(ss) + s
  {
    assert (ss + [s])[..|ss|] == ss;
  }

  /** Every timestamp pushed, in push order. */
  function AllPushed(weeks: seq<Week>): (r: seq<Timestamp>)
    ensures forall t :: t in r <==> exists i :: 0 <= i < |weeks| && t in Flatten(weeks[i].stamps)
  {
    if weeks == [] then []
    else
      var r := AllPushed(weeks[..|weeks| - 1]) + Flatten(weeks[|weeks| - 1].stamps);
      assert forall i :: 0 <= i < |weeks| - 1 ==> weeks[..|weeks| - 1][i] == weeks[i];
      r
  }

  /** numCommits commits on one day, each at a random hour and minute. */
  method DayCommits(day: Day) returns (stamps: seq<Timestamp>)
    ensures 1 <= |stamps| <= 3
    ensures forall t :: t in stamps ==> t.day == day && ValidTime(t)
  {
    var numCommits := RandomInt(1, 3);
    stamps := [];
    var c := 0;
    while c < numCommits
      invariant 0 <= c <= numCommits
      invariant |stamps| == c
      invariant forall t :: t in stamps ==> t.day == day && ValidTime(t)
    {
      var hour := RandomInt(9, 20);
      var minute := RandomInt(0, 59);
      stamps := stamps + [Timestamp(day, hour, minute, 0)];
      c := c + 1;
    }
  }

  /** `shuffle([...Array(k).keys()]).slice(0, numDays)`: distinct offsets
      into a window of k days, as many as the slice keeps. */
  method PickOffsets(k: nat, numDays: int) returns (offsets: seq<int>)
    ensures |offsets| == SliceEnd(k, numDays)
    ensures Distinct(offsets)
    ensures forall j :: 0 <= j < |offsets| ==> 0 <= offsets[j] < k
  {
    var keys := new int[k](i => i);
    assert keys[..] == seq(k, i => i);
    ghost var draws := Shuffle(keys);
    ShuffledKeys(k, draws);
    offsets := keys[..SliceEnd(k, numDays)];
    assert forall m :: 0 <= m < |offsets| ==> offsets[m] == keys[..][m];
    assert forall m :: 0 <= m < |offsets| ==> offsets[m] in multiset(keys[..]);
  }

  /** The commits of every picked day, pushed day by day. */
  method PushDays(rangeStart: Day, offsets: seq<int>) returns (pushed: seq<Timestamp>, ghost stamps: seq<seq<Timestamp>>)
    ensures |stamps| == |offsets|
    ensures forall j :: 0 <= j < |stamps| ==> 1 <= |stamps[j]| <= 3
    ensures forall j, t :: 0 <= j < |stamps| && t in stamps[j] ==>
              t.day == rangeStart + offsets[j] && ValidTime(t)
    ensures pushed == Flatten(stamps)
    ensures |offsets| <= |pushed| <= 3 * |offsets|
    ensures forall t :: t in pushed ==> ValidTime(t)
  {
    pushed := [];
    stamps := [];
    var j := 0;
    while j < |offsets|
      invariant 0 <= j <= |offsets|
      invariant |stamps| == j
      invariant forall m :: 0 <= m < j ==> 1 <= |stamps[m]| <= 3
      invariant forall m, t :: 0 <= m < j && t in stamps[m] ==>
                  t.day == rangeStart + offsets[m] && ValidTime(t)
      invariant pushed == Flatten(stamps)
      invariant j <= |pushed| <= 3 * j
      invariant forall t :: t in pushed ==> ValidTime(t)
    {
      var s := DayCommits(rangeStart + offsets[j]);
      FlattenSnoc(stamps, s);
      ghost var next := stamps + [s];
      assert forall m :: 0 <= m < j ==> next[m] == stamps[m];
      pushed := pushed + s;
      stamps := next;
      j := j + 1;
    }
  }

  /** The body of one loop iteration for a window of daysInWeek days from
      rangeStart: draw numDays, pick that many distinct days, and push each
      picked day's commits. */
  method FillWindow(rangeStart: Day, daysInWeek: int) returns (pushed: seq<Timestamp>, ghost week: Week)
    requires daysInWeek >= 1
    ensures week.window == Window(rangeStart, rangeStart + daysInWeek - 1)
    ensures WellFormedWeek(week)
    ensures pushed == Flatten(week.stamps)
    ensures forall t :: t in pushed ==> rangeStart <= t.day < rangeStart + daysInWeek && ValidTime(t)
  {
    var numDays := RandomInt(3, Min(6, daysInWeek));
    var dayIndices := PickOffsets(daysInWeek, numDays);
    ghost var stamps;
    pushed, stamps := PushDays(rangeStart, dayIndices);
    week := Week(Window(rangeStart, rangeStart + daysInWeek - 1), numDays, dayIndices, stamps);
  }

  // ---------------------------------------------------------------------
  // The schedule

  /** The weeks recorded by the schedule loop match the windows it visits,
      one to one, and each keeps its promises. */
  ghost predicate WeeksFollow(weeks: seq<Week>, ws: seq<Window>)
  {
    && |weeks| == |ws|
    && forall i :: 0 <= i < |weeks| ==> weeks[i].window == ws[i] && WellFormedWeek(weeks[i])
  }

  /** The days that have at least one commit in s between lo and hi. */
  ghost function ActiveDays(s: seq<Timestamp>, lo: Day, hi: Day): set<Day>
  {
    set t | t in s && lo <= t.day <= hi :: t.day
  }

  lemma AllPushedSnoc(weeks: seq<Week>, w: Week)
    ensures AllPushed(weeks + [w]) == AllPushed(weeks) + Flatten(w.stamps)
  {
    assert (weeks + [w])[..|weeks|] == weeks;
  }

  /** One step of the window sequence: the cursor's window, then the windows
      from the next ISO Monday. */
  lemma WindowsStep(ws: seq<Window>, n: nat, cursor: Day, through: Day)
    requires cursor <= through
    requires n <= |ws| && Windows(cursor, through) == ws[n..]
    ensures n < |ws| && ws[n] == Window(cursor, Min(through, IsoWeekEnd(cursor)))
    ensures Windows(IsoWeekStart(cursor) + 7, through) == ws[n + 1..]
  {
    assert ws[n..][1..] == ws[n + 1..];
  }

  /** One step of the windows as written: the cursor's window, then the
      windows from seven days later. */
  lemma WindowsAsWrittenStep(ws: seq<Window>, n: nat, cursor: Day, through: Day)
    requires cursor <= through
    requires n <= |ws| && WindowsAsWritten(cursor, through) == ws[n..]
    ensures n < |ws| && ws[n] == Window(cursor, Min(through, IsoWeekEnd(cursor)))
    ensures WindowsAsWritten(cursor + 7, through) == ws[n + 1..]
  {
    assert ws[n..][1..] == ws[n + 1..];
  }

  /** Recording the week of the next window: the weeks still follow the
      windows, and what is pushed grows by the week's commits. */
  lemma RecordWeek(ws: seq<Window>, weeks: seq<Week>, w: Week)
    requires |weeks| < |ws| && WeeksFollow(weeks, ws[..|weeks|])
    requires w.window == ws[|weeks|] && WellFormedWeek(w)
    ensures WeeksFollow(weeks + [w], ws[..|weeks + [w]|])
    ensures AllPushed(weeks + [w]) == AllPushed(weeks) + Flatten(w.stamps)
  {
    AllPushedSnoc(weeks, w);
    WeeksFollowSnoc(weeks, ws, w);
  }

  /** One more recorded week, for the next window, keeps the weeks following
      the windows. */
  lemma WeeksFollowSnoc(weeks: seq<Week>, ws: seq<Window>, w: Week)
    requires |weeks| < |ws| && WeeksFollow(weeks, ws[..|weeks|])
    requires w.window == ws[|weeks|] && WellFormedWeek(w)
    ensures WeeksFollow(weeks + [w], ws[..|weeks| + 1])
  {
    var next := weeks + [w];
    forall i | 0 <= i < |next|
      ensures next[i].window == ws[..|weeks| + 1][i] && WellFormedWeek(next[i])
    {
      if i < |weeks| {
        assert next[i] == weeks[i];
      }
    }
  }

  /** The head of the loop body: the cursor's ISO week clamped to the range.
      The clamped window always starts at the cursor (max(cursor, weekStart)
      is the cursor) and is never empty, so the `daysInWeek === 0` branch
      cannot run. */
  method ClampWeek(cursor: Day, through: Day) returns (weekStart: Day, rangeStart: Day, daysInWeek: int)
    requires cursor <= through
    ensures weekStart == IsoWeekStart(cursor)
    ensures rangeStart == cursor
    ensures daysInWeek == Length(Window(cursor, Min(through, IsoWeekEnd(cursor))))
    ensures 1 <= daysInWeek <= 7
  {
    weekStart := IsoWeekStart(cursor);
    var weekEnd := weekStart + 6;
    rangeStart := Max(cursor, weekStart);
    var rangeEnd := Min(through, weekEnd);
    daysInWeek := Max(0, rangeEnd - rangeStart + 1);
    if daysInWeek == 0 {
      assert false;
    }
  }

  /** `buildSchedule(from, through)`, with the cursor moved to the next ISO
      Monday after each window (see WindowsAsWritten for the loop as
      written). The result is the sorted list of everything pushed. */
  method BuildSchedule(from: Day, through: Day) returns (commits: seq<Timestamp>, ghost weeks: seq<Week>)
    ensures WeeksFollow(weeks, Windows(from, through))
    ensures commits == SortStamps(AllPushed(weeks))
    ensures Sorted(commits)
    ensures forall t :: t in commits ==> from <= t.day <= through && ValidTime(t)
    ensures forall d :: OnDay(commits, d) <= 3
    ensures forall t :: t in commits ==> exists v :: v in Windows(from, through) && v.first <= t.day <= v.last
    ensures forall w :: w in Windows(from, through) && Length(w) >= 3 ==>
              3 <= |ActiveDays(commits, w.first, w.last)| <= Min(6, Length(w))
  {
    var pushed;
    pushed, weeks := VisitWeeks(from, through);
    commits := SortStamps(pushed);
    WindowsOrdered(from, through);
    ScheduleInRange(from, through, Windows(from, through), weeks);
    SchedulePerDay(from, through, Windows(from, through), weeks);
    SchedulePerWeek(from, through, Windows(from, through), weeks);
    ScheduleInWindows(Windows(from, through), weeks);
  }

  /** `buildSchedule(from, through)` exactly as random-commits.js:67-103
      writes it: the cursor moves seven days from wherever it is. The
      schedule keeps the same promises, over the windows WindowsAsWritten
      visits. */
  method BuildScheduleAsWritten(from: Day, through: Day) returns (commits: seq<Timestamp>, ghost weeks: seq<Week>)
    ensures WeeksFollow(weeks, WindowsAsWritten(from, through))
    ensures commits == SortStamps(AllPushed(weeks))
    ensures Sorted(commits)
    ensures forall t :: t in commits ==> from <= t.day <= through && ValidTime(t)
    ensures forall d :: OnDay(commits, d) <= 3
    ensures forall t :: t in commits ==> exists v :: v in WindowsAsWritten(from, through) && v.first <= t.day <= v.last
    ensures forall w :: w in WindowsAsWritten(from, through) && Length(w) >= 3 ==>
              3 <= |ActiveDays(commits, w.first, w.last)| <= Min(6, Length(w))
  {
    var pushed;
    pushed, weeks := VisitWeeksAsWritten(from, through);
    commits := SortStamps(pushed);
    WindowsAsWrittenOrdered(from, through);
    ScheduleInRange(from, through, WindowsAsWritten(from, through), weeks);
    SchedulePerDay(from, through, WindowsAsWritten(from, through), weeks);
    SchedulePerWeek(from, through, WindowsAsWritten(from, through), weeks);
    ScheduleInWindows(WindowsAsWritten(from, through), weeks);
  }

  /** The loop of random-commits.js:71-100 as written: the cursor moves on
      seven days from wherever it is. */
  method VisitWeeksAsWritten(from: Day, through: Day) returns (pushed: seq<Timestamp>, ghost weeks: seq<Week>)
    ensures WeeksFollow(weeks, WindowsAsWritten(from, through))
    ensures pushed == AllPushed(weeks)
  {
    ghost var ws := WindowsAsWritten(from, through);
    pushed := [];
    weeks := [];
    var cursor := from;
    while cursor <= through
      invariant |weeks| <= |ws|
      invariant WindowsAsWritten(cursor, through) == ws[|weeks|..]
      invariant WeeksFollow(weeks, ws[..|weeks|])
      invariant pushed == AllPushed(weeks)
      decreases through - cursor
    {
      pushed, weeks := VisitWindowAsWritten(ws, weeks, pushed, cursor, through);
      cursor := cursor + 7;
    }
    assert ws[..|weeks|] == ws;
  }

  /** One iteration of the loop as written, from the clamp to the pushes. */
  method VisitWindowAsWritten(ghost ws: seq<Window>, ghost weeks: seq<Week>, pushed: seq<Timestamp>, cursor: Day, through: Day)
    returns (pushed': seq<Timestamp>, ghost weeks': seq<Week>)
    requires cursor <= through && |weeks| <= |ws|
    requires WindowsAsWritten(cursor, through) == ws[|weeks|..]
    requires WeeksFollow(weeks, ws[..|weeks|]) && pushed == AllPushed(weeks)
    ensures |weeks'| == |weeks| + 1 <= |ws|
    ensures WindowsAsWritten(cursor + 7, through) == ws[|weeks'|..]
    ensures WeeksFollow(weeks', ws[..|weeks'|]) && pushed' == AllPushed(weeks')
  {
    var weekStart, rangeStart, daysInWeek := ClampWeek(cursor, through);
    WindowsAsWrittenStep(ws, |weeks|, cursor, through);
    var p, week := FillWindow(rangeStart, daysInWeek);
    RecordWeek(ws, weeks, week);
    pushed' := pushed + p;
    weeks' := weeks + [week];
  }

  /** The loop of `buildSchedule`: one FillWindow per window, pushing every
      commit in visiting order. */
  method VisitWeeks(from: Day, through: Day) returns (pushed: seq<Timestamp>, ghost weeks: seq<Week>)
    ensures WeeksFollow(weeks, Windows(from, through))
    ensures pushed == AllPushed(weeks)
  {
    ghost var ws := Windows(from, through);
    pushed := [];
    weeks := [];
    var cursor := from;
    while cursor <= through
      invariant |weeks| <= |ws|
      invariant Windows(cursor, through) == ws[|weeks|..]
      invariant WeeksFollow(weeks, ws[..|weeks|])
      invariant pushed == AllPushed(weeks)
      decreases through - cursor
    {
      var weekStart;
      pushed, weeks, weekStart := VisitWindow(ws, weeks, pushed, cursor, through);
      cursor := weekStart + 7;
    }
    assert ws[..|weeks|] == ws;
  }

  /** One iteration of the corrected loop, from the clamp to the pushes. */
  method VisitWindow(ghost ws: seq<Window>, ghost weeks: seq<Week>, pushed: seq<Timestamp>, cursor: Day, through: Day)
    returns (pushed': seq<Timestamp>, ghost weeks': seq<Week>, weekStart: Day)
    requires cursor <= through && |weeks| <= |ws|
    requires Windows(cursor, through) == ws[|weeks|..]
    requires WeeksFollow(weeks, ws[..|weeks|]) && pushed == AllPushed(weeks)
    ensures weekStart == IsoWeekStart(cursor)
    ensures |weeks'| == |weeks| + 1 <= |ws|
    ensures Windows(weekStart + 7, through) == ws[|weeks'|..]
    ensures WeeksFollow(weeks', ws[..|weeks'|]) && pushed' == AllPushed(weeks')
  {
    var rangeStart, daysInWeek;
    weekStart, rangeStart, daysInWeek := ClampWeek(cursor, through);
    WindowsStep(ws, |weeks|, cursor, through);
    var p, week := FillWindow(rangeStart, daysInWeek);
    RecordWeek(ws, weeks, week);
    pushed' := pushed + p;
    weeks' := weeks + [week];
  }

  /** Every commit of a week falls inside its window, at a valid time. */
  ghost predicate InWindow(w: Week)
  {
    forall t :: t in Flatten(w.stamps) ==> w.window.first <= t.day <= w.window.last && ValidTime(t)
  }

  lemma WellFormedInWindow(w: Week)
    requires WellFormedWeek(w)
    ensures InWindow(w)
  {
    forall t | t in Flatten(w.stamps)
      ensures w.window.first <= t.day <= w.window.last && ValidTime(t)
    {
      var j :| 0 <= j < |w.stamps| && t in w.stamps[j];
    }
  }

  /** The windows' facts the schedule proofs use: increasing, each in range. */
  lemma FollowFacts(from: Day, through: Day, ws: seq<Window>, weeks: seq<Week>)
    requires WeeksFollow(weeks, ws) && Ordered(ws, from, through)
    ensures forall i :: 0 <= i < |weeks| ==> InWindow(weeks[i]) && WellFormedWeek(weeks[i])
    ensures forall i :: 0 <= i < |weeks| ==> from <= weeks[i].window.first && weeks[i].window.last <= through
    ensures forall i, j :: 0 <= i < j < |weeks| ==> weeks[i].window.last < weeks[j].window.first
  {
    forall i | 0 <= i < |weeks|
      ensures InWindow(weeks[i])
    {
      WellFormedInWindow(weeks[i]);
    }
  }

  /** Every scheduled commit lies in [from, through], at a valid time. */
  lemma ScheduleInRange(from: Day, through: Day, ws: seq<Window>, weeks: seq<Week>)
    requires WeeksFollow(weeks, ws) && Ordered(ws, from, through)
    ensures forall t :: t in SortStamps(AllPushed(weeks)) ==> from <= t.day <= through && ValidTime(t)
  {
    FollowFacts(from, through, ws, weeks);
    forall t | t in SortStamps(AllPushed(weeks))
      ensures from <= t.day <= through && ValidTime(t)
    {
      assert t in AllPushed(weeks);
      var i :| 0 <= i < |weeks| && t in Flatten(weeks[i].stamps);
      assert InWindow(weeks[i]);
    }
  }

  /** Every scheduled commit lies inside one of the visited windows: days
      that no window covers get no commits. */
  lemma ScheduleInWindows(ws: seq<Window>, weeks: seq<Week>)
    requires WeeksFollow(weeks, ws)
    ensures forall t :: t in SortStamps(AllPushed(weeks)) ==>
              exists v :: v in ws && v.first <= t.day <= v.last
  {
    forall t | t in SortStamps(AllPushed(weeks))
      ensures exists v :: v in ws && v.first <= t.day <= v.last
    {
      assert t in AllPushed(weeks);
      var i :| 0 <= i < |weeks| && t in Flatten(weeks[i].stamps);
      WellFormedInWindow(weeks[i]);
      assert ws[i] in ws && ws[i].first <= t.day <= ws[i].last;
    }
  }

  /** No day gets more than three commits. */
  lemma SchedulePerDay(from: Day, through: Day, ws: seq<Window>, weeks: seq<Week>)
    requires WeeksFollow(weeks, ws) && Ordered(ws, from, through)
    ensures forall d :: OnDay(SortStamps(AllPushed(weeks)), d) <= 3
  {
    FollowFacts(from, through, ws, weeks);
    forall d
      ensures OnDay(SortStamps(AllPushed(weeks)), d) <= 3
    {
      OnDayPermutation(SortStamps(AllPushed(weeks)), AllPushed(weeks), d);
      OnDayPushed(weeks, d);
    }
  }

  /** A window of at least three days gets commits on 3 to min(6, its
      length) distinct days. */
  lemma SchedulePerWeek(from: Day, through: Day, ws: seq<Window>, weeks: seq<Week>)
    requires WeeksFollow(weeks, ws) && Ordered(ws, from, through)
    ensures forall w :: w in ws && Length(w) >= 3 ==>
              3 <= |ActiveDays(SortStamps(AllPushed(weeks)), w.first, w.last)| <= Min(6, Length(w))
  {
    var pushed := AllPushed(weeks);
    var commits := SortStamps(pushed);
    FollowFacts(from, through, ws, weeks);
    forall w | w in ws && Length(w) >= 3
      ensures 3 <= |ActiveDays(commits, w.first, w.last)| <= Min(6, Length(w))
    {
      var i :| 0 <= i < |ws| && ws[i] == w;
      ActiveDaysOfWindow(weeks, i);
      assert ActiveDays(commits, w.first, w.last) == ActiveDays(pushed, w.first, w.last);
      WeekActiveDays(weeks[i]);
    }
  }

  /** Within one week a day is picked at most once, so it gets at most three
      commits; a day that is not picked gets none. */
  lemma {:induction false} OnDayFlatten(ss: seq<seq<Timestamp>>, days: seq<Day>, d: Day)
    requires |ss| == |days| && Distinct(days)
    requires forall j :: 0 <= j < |ss| ==> |ss[j]| <= 3
    requires forall j, t :: 0 <= j < |ss| && t in ss[j] ==> t.day == days[j]
    ensures OnDay(Flatten(ss), d) <= 3
    ensures d !in days ==> OnDay(Flatten(ss), d) == 0
  {
    if ss != [] {
      var n := |ss| - 1;
      var init, dinit := ss[..n], days[..n];
      assert forall j :: 0 <= j < n ==> init[j] == ss[j] && dinit[j] == days[j];
      OnDayFlatten(init, dinit, d);
      OnDayAppend(Flatten(init), ss[n], d);
      if days[n] == d {
        OnDayAll(ss[n], d);
        assert d !in dinit;
      } else {
        OnDayNone(ss[n], d);
      }
    }
  }

  /** The picked days of a week, as days. */
  ghost function PickedDays(w: Week): seq<Day>
  {
    seq(|w.offsets|, j requires 0 <= j < |w.offsets| => w.window.first + w.offsets[j])
  }

  lemma PickedDaysDistinct(w: Week)
    requires WellFormedWeek(w)
    ensures Distinct(PickedDays(w))
  {
    var days := PickedDays(w);
    forall a, b | 0 <= a < b < |days|
      ensures days[a] != days[b]
    {
      assert w.offsets[a] != w.offsets[b];
    }
  }

  lemma OnDayWeek(w: Week, d: Day)
    requires WellFormedWeek(w)
    ensures OnDay(Flatten(w.stamps), d) <= 3
    ensures (d < w.window.first || w.window.last < d) ==> OnDay(Flatten(w.stamps), d) == 0
  {
    PickedDaysDistinct(w);
    OnDayFlatten(w.stamps, PickedDays(w), d);
  }

  /** Windows come in increasing order, so a day gets commits from at most
      one week. */
  lemma {:induction false} OnDayPushed(weeks: seq<Week>, d: Day)
    requires forall i :: 0 <= i < |weeks| ==> WellFormedWeek(weeks[i])
    requires forall i, j :: 0 <= i < j < |weeks| ==> weeks[i].window.last < weeks[j].window.first
    ensures OnDay(AllPushed(weeks), d) <= 3
    ensures (forall i :: 0 <= i < |weeks| ==> d < weeks[i].window.first || weeks[i].window.last < d) ==>
              OnDay(AllPushed(weeks), d) == 0
  {
    if weeks != [] {
      var n := |weeks| - 1;
      var init := weeks[..n];
      assert forall i :: 0 <= i < n ==> init[i] == weeks[i];
      OnDayPushed(init, d);
      OnDayAppend(AllPushed(init), Flatten(weeks[n].stamps), d);
      OnDayWeek(weeks[n], d);
    }
  }

  /** The days of a week with commits are exactly its picked days, one per
      picked offset. */
  lemma WeekActiveDays(w: Week)
    requires WellFormedWeek(w)
    ensures ActiveDays(Flatten(w.stamps), w.window.first, w.window.last)
              == set j | 0 <= j < |w.offsets| :: w.window.first + w.offsets[j]
    ensures |ActiveDays(Flatten(w.stamps), w.window.first, w.window.last)| == |w.offsets|
    ensures Length(w.window) >= 3 ==>
              3 <= |ActiveDays(Flatten(w.stamps), w.window.first, w.window.last)| <= Min(6, Length(w.window))
  {
    var days := PickedDays(w);
    var s := Flatten(w.stamps);
    var active := ActiveDays(s, w.window.first, w.window.last);
    forall x | x in active
      ensures x in days
    {
      var t :| t in s && w.window.first <= t.day <= w.window.last && t.day == x;
      var j :| 0 <= j < |w.stamps| && t in w.stamps[j];
      assert days[j] == x;
    }
    forall j | 0 <= j < |days|
      ensures days[j] in active
    {
      var t := w.stamps[j][0];
      assert t in w.stamps[j];
      assert t in s;
      assert t.day == days[j];
    }
    PickedDaysDistinct(w);
    DistinctCard(days);
    assert active == set x | x in days;
    PickedDaysSet(w);
  }

  lemma PickedDaysSet(w: Week)
    ensures (set x | x in PickedDays(w)) == set j | 0 <= j < |w.offsets| :: w.window.first + w.offsets[j]
  {
    var days := PickedDays(w);
    var picked := set j | 0 <= j < |w.offsets| :: w.window.first + w.offsets[j];
    forall x | x in picked
      ensures x in days
    {
      var j :| 0 <= j < |w.offsets| && x == w.window.first + w.offsets[j];
      assert days[j] == x;
    }
  }

  /** A list without repeats has as many elements as its set. */
  lemma {:induction false} DistinctCard(xs: seq<Day>)
    requires Distinct(xs)
    ensures |set x | x in xs| == |xs|
  {
    if xs != [] {
      var n := |xs| - 1;
      var init := xs[..n];
      assert Distinct(init);
      DistinctCard(init);
      assert (set x | x in xs) == (set x | x in init) + {xs[n]};
      assert xs[n] !in init;
    }
  }

  /** The commits inside window i all come from week i. */
  lemma ActiveDaysOfWindow(weeks: seq<Week>, i: nat)
    requires forall k :: 0 <= k < |weeks| ==> InWindow(weeks[k])
    requires forall a, b :: 0 <= a < b < |weeks| ==> weeks[a].window.last < weeks[b].window.first
    requires i < |weeks|
    ensures (var w := weeks[i].window;
      ActiveDays(AllPushed(weeks), w.first, w.last) == ActiveDays(Flatten(weeks[i].stamps), w.first, w.last))
  {
    var w := weeks[i].window;
    forall x | x in ActiveDays(AllPushed(weeks), w.first, w.last)
      ensures x in ActiveDays(Flatten(weeks[i].stamps), w.first, w.last)
    {
      var t :| t in AllPushed(weeks) && w.first <= t.day <= w.last && t.day == x;
      var k :| 0 <= k < |weeks| && t in Flatten(weeks[k].stamps);
      assert InWindow(weeks[k]);
      assert k == i;
    }
  }

  // ---------------------------------------------------------------------
  // Command-line arguments

  /** The second argument: absent, or a text that is either a number of weeks
      (all digits) or a date, asDate being the day that text names as a date. */
  datatype EndArg = NoEnd | EndText(text: string, asDate: Day)

  const RangeError := "End date must be on or after start date."

  /** The start day: the argument, or 52 weeks before today, which falls
      on today's weekday. */
  function StartDay(startArg: Option<Day>, today: Day): (d: Day)
    ensures startArg.None? ==> d < today && IsoWeekday(d) == IsoWeekday(today)
  {
    if startArg.Some? then startArg.value
    else
      WeekdayShift(today, -52);
      today - 7 * 52
  }

  /** The end day: today, start plus that many weeks, or the given date. A
      number of weeks never ends before the start and keeps its weekday. */
  function EndDay(start: Day, endArg: EndArg, today: Day): (d: Day)
    ensures endArg.EndText? && AllDigits(endArg.text) ==>
      start <= d && (d - start) % 7 == 0 && IsoWeekday(d) == IsoWeekday(start)
  {
    match endArg
    case NoEnd => today
    case EndText(text, asDate) =>
      if AllDigits(text) then
        var weeks := DecimalValue(text);
        WeekdayShift(start, weeks);
        assert (start + 7 * weeks - start) % 7 == 0;
        start + 7 * weeks
      else asDate
  }

  /** The inclusive range of days to schedule, or the error reported when the
      end comes before the start. */
  function ResolveRange(startArg: Option<Day>, endArg: EndArg, today: Day): (r: Result<Window, string>)
    ensures r.Success? ==> r.value.first == StartDay(startArg, today) && r.value.first <= r.value.last
    ensures r.Success? ==> r.value.last == EndDay(StartDay(startArg, today), endArg, today)
    ensures r.Failure? <==> EndDay(StartDay(startArg, today), endArg, today) < StartDay(startArg, today)
    ensures r.Failure? ==> r.error == RangeError
  {
    var start := StartDay(startArg, today);
    var end := EndDay(start, endArg, today);
    if end < start then Failure(RangeError) else Success(Window(start, end))
  }

  /** A number of weeks is never rejected: the range spans exactly that many
      weeks and ends on the start's weekday. */
  lemma WeeksArgumentAccepted(startArg: Option<Day>, text: string, asDate: Day, today: Day)
    requires AllDigits(text)
    ensures (var r := ResolveRange(startArg, EndText(text, asDate), today);
      && r.Success?
      && r.value.last - r.value.first == 7 * DecimalValue(text)
      && IsoWeekday(r.value.last) == IsoWeekday(r.value.first))
  {
    WeekdayShift(StartDay(startArg, today), DecimalValue(text));
  }

  /** With no arguments the range is the 365 days ending today. */
  lemma DefaultRange(today: Day)
    ensures ResolveRange(None, NoEnd, today) == Success(Window(today - 364, today))
  {
  }

  /** A date argument (not all digits) before the start is rejected. */
  lemma EarlyEndRejected(startArg: Option<Day>, text: string, asDate: Day, today: Day)
    requires !AllDigits(text) && asDate < StartDay(startArg, today)
    ensures ResolveRange(startArg, EndText(text, asDate), today) == Failure(RangeError)
  {
  }

  /** `main`: the arguments resolved and, when the range is valid, the
      schedule built over it by the loop as written; a rejected range
      schedules nothing. */
  method Plan(startArg: Option<Day>, endArg: EndArg, today: Day) returns (r: Result<seq<Timestamp>, string>)
    ensures r.Failure? <==> ResolveRange(startArg, endArg, today).Failure?
    ensures r.Failure? ==> r.error == RangeError
    ensures r.Success? ==> (var w := ResolveRange(startArg, endArg, today).value;
      && Sorted(r.value)
      && (forall t :: t in r.value ==> w.first <= t.day <= w.last && ValidTime(t))
      && (forall d :: OnDay(r.value, d) <= 3)
      && (forall t :: t in r.value ==> exists v :: v in WindowsAsWritten(w.first, w.last) && v.first <= t.day <= v.last)
      && (forall v :: v in WindowsAsWritten(w.first, w.last) && Length(v) >= 3 ==>
            3 <= |ActiveDays(r.value, v.first, v.last)| <= Min(6, Length(v))))
  {
    var range := ResolveRange(startArg, endArg, today);
    if range.Failure? {
      return Failure(range.error);
    }
    var commits, weeks := BuildScheduleAsWritten(range.value.first, range.value.last);
    r := Success(commits);
  }

  /** `main` with the corrected schedule: every ISO week that meets a valid
      range gets its 3 to 6 days. */
  method PlanCorrected(startArg: Option<Day>, endArg: EndArg, today: Day) returns (r: Result<seq<Timestamp>, string>)
    ensures r.Failure? <==> ResolveRange(startArg, endArg, today).Failure?
    ensures r.Failure? ==> r.error == RangeError
    ensures r.Success? ==> (var w := ResolveRange(startArg, endArg, today).value;
      && Sorted(r.value)
      && (forall t :: t in r.value ==> w.first <= t.day <= w.last && ValidTime(t))
      && (forall d :: OnDay(r.value, d) <= 3)
      && (forall t :: t in r.value ==> exists v :: v in Windows(w.first, w.last) && v.first <= t.day <= v.last)
      && (forall v :: v in Windows(w.first, w.last) && Length(v) >= 3 ==>
            3 <= |ActiveDays(r.value, v.first, v.last)| <= Min(6, Length(v))))
  {
    var range := ResolveRange(startArg, endArg, today);
    if range.Failure? {
      return Failure(range.error);
    }
    var commits, weeks := BuildSchedule(range.value.first, range.value.last);
    r := Success(commits);
  }
}

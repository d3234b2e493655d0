/**
 * Calendar days, ISO-8601 weeks and commit timestamps.
 *
 * A day is an integer: the number of days since 1970-01-01, which was a
 * Thursday (negative numbers are earlier days). A timestamp is a day plus a
 * time of day; timestamps are ordered lexicographically, which is the order
 * in which their textual renderings sort while the year has four digits
 * (years 0 to 9999).
 */
module Calendar {

  type Day = int

  /** ISO-8601 weekday: Monday = 1, ..., Sunday = 7. Day 4, 1970-01-05,
      was a Monday, and day 3 a Sunday. */
  function IsoWeekday(d: Day): (w: int)
    ensures 1 <= w <= 7
    ensures w == 1 <==> (d - 4) % 7 == 0
    ensures w == 7 <==> (d - 3) % 7 == 0
  {
    (d + 3) % 7 + 1
  }

  /** The Monday that starts the ISO week containing d. */
  function IsoWeekStart(d: Day): (m: Day)
    ensures m <= d < m + 7
    ensures IsoWeekday(m) == 1
  {
    d - (d + 3) % 7
  }

  /** The Sunday that ends the ISO week containing d. */
  function IsoWeekEnd(d: Day): (s: Day)
    ensures d <= s < d + 7
    ensures IsoWeekday(s) == 7
    ensures IsoWeekStart(s) == IsoWeekStart(d)
  {
    IsoWeekStart(d) + 6
  }

  /** The ISO-week Monday of d is the only Monday at most six days before d. */
  lemma IsoWeekStartUnique(d: Day, m: Day)
    requires m <= d < m + 7
    requires IsoWeekday(m) == 1
    ensures m == IsoWeekStart(d)
  {
    var k := (d + 3) / 7;
    assert d + 3 == 7 * k + (d + 3) % 7;
    var j := (m + 3) / 7;
    assert m + 3 == 7 * j;
  }

  /** Two days share an ISO week exactly when the later one is at most the
      Sunday of the earlier one's week. */
  lemma SameIsoWeek(a: Day, b: Day)
    requires a <= b
    ensures IsoWeekStart(a) == IsoWeekStart(b) <==> b <= IsoWeekEnd(a)
  {
    if b <= IsoWeekEnd(a) {
      IsoWeekStartUnique(b, IsoWeekStart(a));
    }
  }

  /** Adding whole weeks keeps the weekday. */
  lemma WeekdayShift(d: Day, n: int)
    ensures IsoWeekday(d + 7 * n) == IsoWeekday(d)
  {
    var q := (d + 3) / 7;
    assert d + 3 == 7 * q + (d + 3) % 7;
    assert d + 7 * n + 3 == 7 * (q + n) + (d + 3) % 7;
  }

  /** A commit time: a day and hour, minute and second within it. */
  datatype Timestamp = Timestamp(day: Day, hour: int, minute: int, second: int)

  /** The start of a day, as a whole-day date renders. */
  function Midnight(d: Day): Timestamp
  {
    Timestamp(d, 0, 0, 0)
  }

  /** Lexicographic order: day, then hour, then minute, then second. */
  predicate LessEq(a: Timestamp, b: Timestamp)
  {
    a.day < b.day || (a.day == b.day &&
      (a.hour < b.hour || (a.hour == b.hour &&
        (a.minute < b.minute || (a.minute == b.minute && a.second <= b.second)))))
  }

  /** The order is total and antisymmetric, so ordering timestamps is
      choosing an order of equal-free keys. */
  lemma LessEqTotalOrder(a: Timestamp, b: Timestamp, c: Timestamp)
    ensures LessEq(a, b) || LessEq(b, a)
    ensures LessEq(a, b) && LessEq(b, a) ==> a == b
    ensures LessEq(a, b) && LessEq(b, c) ==> LessEq(a, c)
  {
  }

  /** Ascending order, pairwise. */
  ghost predicate Sorted(s: seq<Timestamp>)
  {
    forall i, j :: 0 <= i < j < |s| ==> LessEq(s[i], s[j])
  }

  /** Places x in front of the first element it does not exceed. */
  function Insert(x: Timestamp, s: seq<Timestamp>): (r: seq<Timestamp>)
    ensures multiset(r) == multiset(s) + multiset{x}
    ensures |r| == |s| + 1
  {
    if s == [] then [x]
    else if LessEq(x, s[0]) then [x] + s
    else
      assert s == [s[0]] + s[1..];
      [s[0]] + Insert(x, s[1..])
  }

  /** Inserting into an ascending list keeps it ascending. */
  lemma {:induction false} InsertSorted(x: Timestamp, s: seq<Timestamp>)
    requires Sorted(s)
    ensures Sorted(Insert(x, s))
  {
    if s == [] {
    } else if LessEq(x, s[0]) {
      forall e | e in s
        ensures LessEq(x, e)
      {
        SortedHead(s, e);
        LessEqTotalOrder(x, s[0], e);
      }
      SortedCons(x, s);
    } else {
      var tail := s[1..];
      assert Sorted(tail) by {
        forall i, j | 0 <= i < j < |tail|
          ensures LessEq(tail[i], tail[j])
        {
          assert tail[i] == s[i + 1] && tail[j] == s[j + 1];
        }
      }
      InsertSorted(x, tail);
      var rest := Insert(x, tail);
      forall e | e in rest
        ensures LessEq(s[0], e)
      {
        InsertMembers(x, tail, e);
        if e == x {
          LessEqTotalOrder(x, s[0], x);
        } else {
          var k :| 0 <= k < |tail| && tail[k] == e;
          assert s[k + 1] == e;
        }
      }
      SortedCons(s[0], rest);
    }
  }

  /** What Insert returns holds x and the elements of s, nothing else. */
  lemma {:induction false} InsertMembers(x: Timestamp, s: seq<Timestamp>, e: Timestamp)
    ensures e in Insert(x, s) ==> e == x || e in s
  {
    if s != [] && !LessEq(x, s[0]) {
      InsertMembers(x, s[1..], e);
      assert s == [s[0]] + s[1..];
    }
  }

  /** A head at most every element of an ascending tail gives an ascending list. */
  lemma SortedCons(h: Timestamp, t: seq<Timestamp>)
    requires Sorted(t)
    requires forall e :: e in t ==> LessEq(h, e)
    ensures Sorted([h] + t)
  {
    var r := [h] + t;
    forall i, j | 0 <= i < j < |r|
      ensures LessEq(r[i], r[j])
    {
      assert r[j] == t[j - 1];
      if i > 0 {
        assert r[i] == t[i - 1];
      }
    }
  }

  /** The ascending rearrangement of a list of timestamps (insertion sort). */
  function SortStamps(s: seq<Timestamp>): (r: seq<Timestamp>)
    ensures Sorted(r)
    ensures multiset(r) == multiset(s)
    ensures |r| == |s|
    ensures forall e :: e in r <==> e in s
  {
    if s == [] then []
    else
      var init := s[..|s| - 1];
      assert s == init + [s[|s| - 1]];
      var r := SortStamps(init);
      InsertSorted(s[|s| - 1], r);
      var out := Insert(s[|s| - 1], r);
      assert forall e :: e in out <==> e in multiset(out);
      assert forall e :: e in s <==> e in multiset(s);
      out
  }

  /** A sorted list is determined by its multiset, so every correct sort of
      the same timestamps yields the same list. */
  lemma {:induction false} SortedUnique(a: seq<Timestamp>, b: seq<Timestamp>)
    requires Sorted(a) && Sorted(b)
    requires multiset(a) == multiset(b)
    ensures a == b
  {
    assert |a| == |multiset(a)| == |multiset(b)| == |b|;
    if a != [] {
      SortedHead(a, b[0]);
      SortedHead(b, a[0]);
      LessEqTotalOrder(a[0], b[0], a[0]);
      assert a == [a[0]] + a[1..] && b == [b[0]] + b[1..];
      TailMultiset(a);
      TailMultiset(b);
      SortedUnique(a[1..], b[1..]);
    }
  }

  /** The head of an ascending list is at most any of its elements. */
  lemma SortedHead(s: seq<Timestamp>, x: Timestamp)
    requires Sorted(s) && x in multiset(s)
    ensures LessEq(s[0], x)
  {
    var k :| 0 <= k < |s| && s[k] == x;
    if k == 0 {
      LessEqTotalOrder(x, x, x);
    }
  }

  lemma TailMultiset(s: seq<Timestamp>)
    requires s != []
    ensures multiset(s[1..]) == multiset(s) - multiset{s[0]}
  {
    assert s == [s[0]] + s[1..];
    assert multiset(s) == multiset{s[0]} + multiset(s[1..]);
  }

  /** A list that is already ascending is its own sort. */
  lemma SortOfSorted(s: seq<Timestamp>)
    requires Sorted(s)
    ensures SortStamps(s) == s
  {
    SortedUnique(SortStamps(s), s);
  }

  /** The number of timestamps on day d. */
  function OnDay(s: seq<Timestamp>, d: Day): (n: nat)
    ensures n <= |s|
  {
    if s == [] then 0
    else OnDay(s[..|s| - 1], d) + (if s[|s| - 1].day == d then 1 else 0)
  }

  lemma {:induction false} OnDayAppend(a: seq<Timestamp>, b: seq<Timestamp>, d: Day)
    ensures OnDay(a + b, d) == OnDay(a, d) + OnDay(b, d)
  {
    if b != [] {
      assert (a + b)[..|a + b| - 1] == a + b[..|b| - 1];
      OnDayAppend(a, b[..|b| - 1], d);
    } else {
      assert a + b == a;
    }
  }

  /** Rearranging timestamps keeps how many fall on each day; in particular
      sorting does. */
  lemma {:induction false} OnDayPermutation(a: seq<Timestamp>, b: seq<Timestamp>, d: Day)
    requires multiset(a) == multiset(b)
    ensures OnDay(a, d) == OnDay(b, d)
  {
    if a == [] {
      assert |b| == |multiset(b)| == 0;
    } else {
      var init, x := a[..|a| - 1], a[|a| - 1];
      assert a == init + [x];
      assert multiset(init) == multiset(a) - multiset{x};
      assert x in multiset(b);
      var k :| 0 <= k < |b| && b[k] == x;
      var rest := b[..k] + b[k + 1..];
      RemoveAtMultiset(b, k);
      OnDayPermutation(init, rest, d);
      OnDayAppend(init, [x], d);
      OnDayRemoveAt(b, k, d);
    }
  }

  /** Dropping the element at k removes one copy of it from the multiset. */
  lemma RemoveAtMultiset(s: seq<Timestamp>, k: nat)
    requires k < |s|
    ensures multiset(s[..k] + s[k + 1..]) == multiset(s) - multiset{s[k]}
  {
    assert s == s[..k] + [s[k]] + s[k + 1..];
  }

  /** Dropping the element at k lowers the count of its day by one. */
  lemma OnDayRemoveAt(s: seq<Timestamp>, k: nat, d: Day)
    requires k < |s|
    ensures OnDay(s, d) == OnDay(s[..k] + s[k + 1..], d) + (if s[k].day == d then 1 else 0)
  {
    assert s == s[..k] + [s[k]] + s[k + 1..];
    OnDayAppend(s[..k] + [s[k]], s[k + 1..], d);
    OnDayAppend(s[..k], [s[k]], d);
    OnDayAppend(s[..k], s[k + 1..], d);
    assert [s[k]][..0] == [];
  }

  /** A list with no timestamp on d counts none there. */
  lemma {:induction false} OnDayNone(s: seq<Timestamp>, d: Day)
    requires forall t :: t in s ==> t.day != d
    ensures OnDay(s, d) == 0
  {
    if s != [] {
      assert forall t :: t in s[..|s| - 1] ==> t in s;
      OnDayNone(s[..|s| - 1], d);
    }
  }

  /** A list with every timestamp on d counts all of them there. */
  lemma {:induction false} OnDayAll(s: seq<Timestamp>, d: Day)
    requires forall t :: t in s ==> t.day == d
    ensures OnDay(s, d) == |s|
  {
    if s != [] {
      assert forall t :: t in s[..|s| - 1] ==> t in s;
      OnDayAll(s[..|s| - 1], d);
    }
  }
}

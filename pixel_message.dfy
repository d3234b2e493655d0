/**
 * write-message.js: writes a text onto the contribution graph with a 2-wide,
 * 7-tall bitmap font. Character i of the text occupies graph columns 2i and
 * 2i + 1; coordinate (x, y) is committed on day base + 7x + y, base being
 * read from the clock at each commit; the commits run one after another
 * until a data-file write fails, which calls back with the error, or a git
 * add or commit fails, which never calls back.
 */
module PixelMessage {
  import opened Results
  import opened Calendar

  /** A graph coordinate: x is the week column, y the row (0..6). */
  datatype Point = Point(x: int, y: int)

  /** Glyph width in columns; column arithmetic below writes it as the
      literal 2, so that it stays linear. */
  const Width := 2
  const Height := 7

  /** The glyphs, as lists of (column, row) cells: the font object, looked
      up by character. */
  function Font(ch: char): (r: Option<seq<Point>>)
    ensures r.Some? ==> |r.value| <= Width * Height
  {
    match ch
    case ' ' => Some([])
    case 'E' => Some([Point(0, 0), Point(0, 1), Point(0, 2), Point(0, 3), Point(0, 4), Point(0, 5), Point(0, 6),
      Point(1, 0), Point(1, 3), Point(1, 6)])
    case 'V' => Some([Point(0, 0), Point(0, 1), Point(0, 2), Point(0, 3), Point(0, 4), Point(1, 5), Point(1, 6)])
    case 'e' => Some([Point(0, 1), Point(0, 2), Point(0, 3), Point(0, 4), Point(0, 5), Point(1, 1), Point(1, 2),
      Point(1, 3), Point(1, 4), Point(1, 5)])
    case 'r' => Some([Point(0, 0), Point(0, 1), Point(0, 2), Point(0, 3), Point(0, 4), Point(0, 5), Point(0, 6),
      Point(1, 0), Point(1, 1)])
    case 't' => Some([Point(0, 0), Point(1, 0), Point(1, 1), Point(1, 2), Point(1, 3), Point(1, 4), Point(1, 5),
      Point(1, 6)])
    case 'h' => Some([Point(0, 0), Point(0, 1), Point(0, 2), Point(0, 3), Point(0, 4), Point(0, 5), Point(0, 6),
      Point(1, 3), Point(1, 4), Point(1, 5), Point(1, 6)])
    case 'i' => Some([Point(0, 0), Point(0, 1), Point(0, 2), Point(0, 3), Point(0, 4), Point(0, 5), Point(0, 6)])
    case 'n' => Some([Point(0, 0), Point(0, 1), Point(0, 2), Point(0, 3), Point(0, 4), Point(0, 5), Point(0, 6),
      Point(1, 0), Point(1, 1), Point(1, 2), Point(1, 3), Point(1, 6)])
    case 'g' => Some([Point(0, 1), Point(0, 2), Point(0, 3), Point(0, 4), Point(0, 5), Point(1, 0), Point(1, 1),
      Point(1, 5), Point(1, 6)])
    case 's' => Some([Point(0, 0), Point(0, 1), Point(0, 3), Point(0, 4), Point(0, 5), Point(0, 6), Point(1, 0),
      Point(1, 1), Point(1, 3), Point(1, 4), Point(1, 5), Point(1, 6)])
    case 'p' => Some([Point(0, 0), Point(0, 1), Point(0, 2), Point(0, 3), Point(0, 4), Point(0, 5), Point(0, 6),
      Point(1, 0), Point(1, 1), Point(1, 2), Point(1, 3)])
    case 'o' => Some([Point(0, 1), Point(0, 2), Point(0, 3), Point(0, 4), Point(0, 5), Point(1, 1), Point(1, 2),
      Point(1, 3), Point(1, 4), Point(1, 5)])
    case 'b' => Some([Point(0, 0), Point(0, 1), Point(0, 2), Point(0, 3), Point(0, 4), Point(0, 5), Point(0, 6),
      Point(1, 0), Point(1, 1), Point(1, 2), Point(1, 3), Point(1, 5), Point(1, 6)])
    case 'l' => Some([Point(0, 0), Point(0, 1), Point(0, 2), Point(0, 3), Point(0, 4), Point(0, 5), Point(0, 6)])
    case _ => None
  }

  /** The text the program writes. */
  const Message := "Everything is possible"

  ghost predicate Distinct(ps: seq<Point>)
  {
    forall i, j :: 0 <= i < j < |ps| ==> ps[i] != ps[j]
  }

  /** Cell p comes strictly before cell q, column first. */
  predicate Before(p: Point, q: Point)
  {
    p.x < q.x || (p.x == q.x && p.y < q.y)
  }

  /** The cells are strictly ascending, column first. */
  ghost predicate Ascending(ps: seq<Point>)
  {
    forall i, j :: 0 <= i < j < |ps| ==> Before(ps[i], ps[j])
  }

  /** A glyph's cells lie in its 2 x 7 box, strictly ascending, so none
      repeats. */
  ghost predicate GoodGlyph(g: seq<Point>)
  {
    && (forall p :: p in g ==> 0 <= p.x < Width && 0 <= p.y < Height)
    && Ascending(g)
    && Distinct(g)
  }

  /** A font maps a character to its glyph, or to nothing. */
  type FontMap = char -> Option<seq<Point>>

  /** The font has a blank glyph to fall back on. */
  predicate HasBlank(font: FontMap)
  {
    font(' ').Some?
  }

  /** A usable font: every glyph good, and a blank glyph to fall back on. */
  ghost predicate GoodFont(font: FontMap)
  {
    && HasBlank(font)
    && forall ch :: font(ch).Some? ==> GoodGlyph(font(ch).value)
  }

  /** From index i on, the cells are in the box and strictly ascending; a
      check that evaluates on a written-out glyph. */
  predicate CheckFrom(g: seq<Point>, i: nat)
    decreases |g| - i
  {
    i >= |g| ||
      (&& 0 <= g[i].x < Width && 0 <= g[i].y < Height
       && (i + 1 == |g| || Before(g[i], g[i + 1]))
       && CheckFrom(g, i + 1))
  }

  predicate CheckGlyph(g: seq<Point>)
  {
    CheckFrom(g, 0)
  }

  lemma {:induction false} CheckFromSound(g: seq<Point>, i: nat)
    requires CheckFrom(g, i)
    ensures forall j :: i <= j < |g| ==> 0 <= g[j].x < Width && 0 <= g[j].y < Height
    ensures forall j, k :: i <= j < k < |g| ==> Before(g[j], g[k])
    decreases |g| - i
  {
    if i < |g| {
      CheckFromSound(g, i + 1);
    }
  }

  /** A glyph that passes the check is good. */
  lemma CheckGlyphSound(g: seq<Point>)
    requires CheckGlyph(g)
    ensures GoodGlyph(g)
  {
    CheckFromSound(g, 0);
    forall p | p in g
      ensures 0 <= p.x < Width && 0 <= p.y < Height
    {
      var j :| 0 <= j < |g| && g[j] == p;
    }
  }

  /** Every glyph the program's font lists passes the check. */
  lemma FontChecked(ch: char)
    requires Font(ch).Some?
    ensures CheckGlyph(Font(ch).value)
  {
    if ch in " EVerthi" {
      FontCheckedFirst(ch);
    } else {
      FontCheckedRest(ch);
    }
  }

  lemma FontCheckedFirst(ch: char)
    requires ch in " EVerthi"
    ensures Font(ch).Some? && CheckGlyph(Font(ch).value)
  {
    match ch
    case ' ' => assert CheckGlyph(Font(' ').value);
    case 'E' => assert CheckGlyph(Font('E').value);
    case 'V' => assert CheckGlyph(Font('V').value);
    case 'e' => assert CheckGlyph(Font('e').value);
    case 'r' => assert CheckGlyph(Font('r').value);
    case 't' => assert CheckGlyph(Font('t').value);
    case 'h' => assert CheckGlyph(Font('h').value);
    case 'i' => assert CheckGlyph(Font('i').value);
  }

  lemma FontCheckedRest(ch: char)
    requires Font(ch).Some? && ch !in " EVerthi"
    ensures CheckGlyph(Font(ch).value)
  {
    match ch
    case 'n' => assert CheckGlyph(Font('n').value);
    case 'g' => assert CheckGlyph(Font('g').value);
    case 's' => assert CheckGlyph(Font('s').value);
    case 'p' => assert CheckGlyph(Font('p').value);
    case 'o' => assert CheckGlyph(Font('o').value);
    case 'b' => assert CheckGlyph(Font('b').value);
    case 'l' => assert CheckGlyph(Font('l').value);
  }

  /** The program's font is usable, and its blank draws nothing. */
  lemma FontGood()
    ensures GoodFont(Font)
    ensures Font(' ') == Some([])
  {
    forall ch | Font(ch).Some?
      ensures GoodGlyph(Font(ch).value)
    {
      FontChecked(ch);
      CheckGlyphSound(Font(ch).value);
    }
  }

  /** `font[ch] ?? font[" "]`: the character's own glyph when the font
      lists it, the blank's otherwise. */
  function Glyph(font: FontMap, ch: char): (g: seq<Point>)
    requires HasBlank(font)
    ensures font(ch).Some? ==> g == font(ch).value
    ensures font(ch).None? ==> g == font(' ').value
  {
    if font(ch).Some? then font(ch).value else font(' ').value
  }

  /** In a usable font every glyph, the fallback included, is good. */
  lemma GlyphGood(font: FontMap, ch: char)
    requires GoodFont(font)
    ensures GoodGlyph(Glyph(font, ch))
  {
  }

  /** The points moved right by dx columns. */
  function Shift(ps: seq<Point>, dx: int): (r: seq<Point>)
    ensures |r| == |ps|
    ensures forall k :: 0 <= k < |ps| ==> r[k] == Point(ps[k].x + dx, ps[k].y)
  {
    seq(|ps|, k requires 0 <= k < |ps| => Point(ps[k].x + dx, ps[k].y))
  }

  /** The coordinates of a text: each character's glyph moved to the
      character's two columns, in character order. */
  function Layout(font: FontMap, text: string): (ps: seq<Point>)
    requires HasBlank(font)
    ensures |ps| == GlyphCells(font, text)
  {
    if text == [] then []
    else
      var n := |text| - 1;
      Layout(font, text[..n]) + Shift(Glyph(font, text[n]), 2 * n)
  }

  /** `textToCoords(text)`: the character loop; the glyph loop is PushGlyph. */
  method TextToCoords(font: FontMap, text: string) returns (coords: seq<Point>)
    requires HasBlank(font)
    ensures coords == Layout(font, text)
  {
    coords := [];
    var i := 0;
    while i < |text|
      invariant 0 <= i <= |text|
      invariant coords == Layout(font, text[..i])
    {
      var glyph := Glyph(font, text[i]);
      coords := PushGlyph(coords, glyph, 2 * i);
      assert text[..i + 1][..i] == text[..i];
      i := i + 1;
    }
    assert text[..i] == text;
  }

  /** The inner loop of textToCoords: one coordinate per glyph cell, moved
      right by startX. */
  method PushGlyph(coords: seq<Point>, glyph: seq<Point>, startX: int) returns (out: seq<Point>)
    ensures out == coords + Shift(glyph, startX)
  {
    out := coords;
    var k := 0;
    while k < |glyph|
      invariant 0 <= k <= |glyph|
      invariant out == coords + Shift(glyph[..k], startX)
    {
      assert glyph[..k + 1] == glyph[..k] + [glyph[k]];
      ShiftConcat(glyph[..k], [glyph[k]], startX);
      out := out + [Point(startX + glyph[k].x, glyph[k].y)];
      k := k + 1;
    }
    assert glyph[..k] == glyph;
  }

  /** The total number of glyph cells of a text. */
  function GlyphCells(font: FontMap, text: string): nat
    requires HasBlank(font)
  {
    if text == [] then 0 else GlyphCells(font, text[..|text| - 1]) + |Glyph(font, text[|text| - 1])|
  }

  /** One coordinate per glyph cell. */
  lemma {:induction false} LayoutLength(font: FontMap, text: string)
    requires HasBlank(font)
    ensures |Layout(font, text)| == GlyphCells(font, text)
  {
    if text != [] {
      LayoutLength(font, text[..|text| - 1]);
    }
  }

  lemma ShiftShift(ps: seq<Point>, a: int, b: int)
    ensures Shift(Shift(ps, a), b) == Shift(ps, a + b)
  {
  }

  lemma ShiftConcat(ps: seq<Point>, qs: seq<Point>, dx: int)
    ensures Shift(ps + qs, dx) == Shift(ps, dx) + Shift(qs, dx)
  {
  }

  /** Appending a character appends its glyph, moved to its columns. */
  lemma LayoutSnoc(font: FontMap, s: string, c: char)
    requires HasBlank(font)
    ensures Layout(font, s + [c]) == Layout(font, s) + Shift(Glyph(font, c), 2 * |s|)
  {
    assert (s + [c])[..|s|] == s;
    assert (s + [c])[|s|] == c;
  }

  /** The layout of a + b is a's layout followed by b's layout moved right
      by two columns per character of a. */
  lemma {:induction false} LayoutAppend(font: FontMap, a: string, b: string)
    requires HasBlank(font)
    ensures Layout(font, a + b) == Layout(font, a) + Shift(Layout(font, b), 2 * |a|)
  {
    if b == [] {
      assert a + b == a;
    } else {
      var n := |b| - 1;
      var b0, c := b[..n], b[n];
      var ab0 := a + b0;
      assert b == b0 + [c];
      assert a + b == ab0 + [c];
      var gl := Glyph(font, c);
      LayoutSnoc(font, ab0, c);
      assert Layout(font, a + b) == Layout(font, ab0) + Shift(gl, 2 * |ab0|);
      LayoutSnoc(font, b0, c);
      assert Layout(font, b) == Layout(font, b0) + Shift(gl, 2 * n);
      LayoutAppend(font, a, b0);
      ShiftRegroup(Layout(font, a), Layout(font, b0), gl, |a|, n, |ab0|);
    }
  }

  /** The sequence algebra of LayoutAppend's step. */
  lemma ShiftRegroup(la: seq<Point>, lb: seq<Point>, g: seq<Point>, na: int, n: int, m: int)
    requires m == na + n
    ensures (la + Shift(lb, 2 * na)) + Shift(g, 2 * m)
      == la + Shift(lb + Shift(g, 2 * n), 2 * na)
  {
    ShiftConcat(lb, Shift(g, 2 * n), 2 * na);
    ShiftShift(g, 2 * n, 2 * na);
    assert (la + Shift(lb, 2 * na)) + Shift(g, 2 * m) == la + (Shift(lb, 2 * na) + Shift(g, 2 * m));
  }

  /** Every coordinate comes from a glyph cell of the character whose two
      columns it lies in. */
  lemma {:induction false} LayoutSource(font: FontMap, text: string, p: Point)
    requires GoodFont(font)
    requires p in Layout(font, text)
    ensures 0 <= p.x < 2 * |text| && 0 <= p.y < Height
    ensures (var i := p.x / 2; Point(p.x - 2 * i, p.y) in Glyph(font, text[i]))
  {
    var n := |text| - 1;
    var init := text[..n];
    if p in Layout(font, init) {
      LayoutSource(font, init, p);
      assert text[p.x / 2] == init[p.x / 2];
    } else {
      var g := Glyph(font, text[n]);
      GlyphGood(font, text[n]);
      var q := Point(p.x - 2 * n, p.y);
      ShiftSource(g, 2 * n, p);
      assert 0 <= q.x < Width && 0 <= q.y < Height;
      assert p.x == 2 * n + q.x;
      assert p.x / 2 == n;
    }
  }

  /** A moved point comes from the point dx columns to its left. */
  lemma ShiftSource(ps: seq<Point>, dx: int, p: Point)
    requires p in Shift(ps, dx)
    ensures Point(p.x - dx, p.y) in ps
  {
    var k :| 0 <= k < |ps| && Shift(ps, dx)[k] == p;
    assert ps[k] == Point(p.x - dx, p.y);
  }

  /** Every glyph cell of every character appears in the layout. */
  lemma {:induction false} LayoutComplete(font: FontMap, text: string, i: nat, q: Point)
    requires HasBlank(font)
    requires i < |text| && q in Glyph(font, text[i])
    ensures Point(q.x + 2 * i, q.y) in Layout(font, text)
  {
    var n := |text| - 1;
    var init := text[..n];
    if i < n {
      assert init[i] == text[i];
      LayoutComplete(font, init, i, q);
    } else {
      var g := Glyph(font, text[n]);
      var k :| 0 <= k < |g| && g[k] == q;
      assert Shift(g, 2 * n)[k] == Point(q.x + 2 * i, q.y);
    }
  }

  /** No two coordinates of a layout coincide. */
  lemma {:induction false} LayoutDistinct(font: FontMap, text: string)
    requires GoodFont(font)
    ensures Distinct(Layout(font, text))
  {
    if text != [] {
      var n := |text| - 1;
      var init := text[..n];
      LayoutDistinct(font, init);
      var head := Layout(font, init);
      var g := Glyph(font, text[n]);
      GlyphGood(font, text[n]);
      var tail := Shift(g, 2 * n);
      assert Distinct(tail) by {
        forall a, b | 0 <= a < b < |tail|
          ensures tail[a] != tail[b]
        {
          assert g[a] != g[b];
        }
      }
      forall a, b | 0 <= a < |head| && 0 <= b < |tail|
        ensures head[a] != tail[b]
      {
        LayoutSource(font, init, head[a]);
        assert g[b] in g;
      }
      DistinctConcat(head, tail);
    }
  }

  /** The layout lists the coordinates in ascending order, column first:
      the order in which their days follow one another. */
  lemma {:induction false} LayoutAscending(font: FontMap, text: string)
    requires GoodFont(font)
    ensures Ascending(Layout(font, text))
  {
    if text != [] {
      var n := |text| - 1;
      var init := text[..n];
      LayoutAscending(font, init);
      var head := Layout(font, init);
      var g := Glyph(font, text[n]);
      GlyphGood(font, text[n]);
      var tail := Shift(g, 2 * n);
      assert Ascending(tail) by {
        forall a, b | 0 <= a < b < |tail|
          ensures Before(tail[a], tail[b])
        {
          assert Before(g[a], g[b]);
        }
      }
      forall a, b | 0 <= a < |head| && 0 <= b < |tail|
        ensures Before(head[a], tail[b])
      {
        LayoutSource(font, init, head[a]);
        assert g[b] in g;
      }
      AscendingConcat(head, tail);
    }
  }

  lemma AscendingConcat(head: seq<Point>, tail: seq<Point>)
    requires Ascending(head) && Ascending(tail)
    requires forall a, b :: 0 <= a < |head| && 0 <= b < |tail| ==> Before(head[a], tail[b])
    ensures Ascending(head + tail)
  {
    var s := head + tail;
    forall a, b | 0 <= a < b < |s|
      ensures Before(s[a], s[b])
    {
      if b < |head| {
        assert s[a] == head[a] && s[b] == head[b];
      } else if a >= |head| {
        assert s[a] == tail[a - |head|] && s[b] == tail[b - |head|];
      } else {
        assert s[a] == head[a] && s[b] == tail[b - |head|];
      }
    }
  }

  lemma DistinctConcat(head: seq<Point>, tail: seq<Point>)
    requires Distinct(head) && Distinct(tail)
    requires forall a, b :: 0 <= a < |head| && 0 <= b < |tail| ==> head[a] != tail[b]
    ensures Distinct(head + tail)
  {
    var s := head + tail;
    forall a, b | 0 <= a < b < |s|
      ensures s[a] != s[b]
    {
      if b < |head| {
        assert s[a] == head[a] && s[b] == head[b];
      } else if a >= |head| {
        assert s[a] == tail[a - |head|] && s[b] == tail[b - |head|];
      } else {
        assert s[a] == head[a] && s[b] == tail[b - |head|];
      }
    }
  }

  /** A character the font does not list draws the blank glyph, so when
      the blank is empty its two columns stay empty. */
  lemma UnlistedColumnEmpty(font: FontMap, text: string, i: nat, p: Point)
    requires GoodFont(font) && font(' ') == Some([])
    requires i < |text| && font(text[i]).None?
    requires p in Layout(font, text)
    ensures p.x / 2 != i
  {
    LayoutSource(font, text, p);
  }

  /** The message's 'v' (character 1) and 'y' (character 4) are not in the
      program's font. */
  lemma MessageUnlisted()
    ensures Font(Message[1]).None? && Font(Message[4]).None?
  {
    assert Message[1] == 'v' && Message[4] == 'y';
  }

  /** So the columns of 'v' and 'y' stay empty. */
  lemma MessageGaps(p: Point)
    requires p in Layout(Font, Message)
    ensures p.x / 2 != 1 && p.x / 2 != 4
  {
    FontGood();
    MessageUnlisted();
    UnlistedColumnEmpty(Font, Message, 1, p);
    UnlistedColumnEmpty(Font, Message, 4, p);
  }

  // ---------------------------------------------------------------------
  // Commit dates and the sequential driver

  /** The day markCommit dates coordinate (x, y): x weeks and y days after
      base, base being one day after the same date a year ago. */
  function MarkDate(base: Day, p: Point): (d: Day)
    ensures 0 <= p.y < Height ==> (d - base) / 7 == p.x && (d - base) % 7 == p.y
  {
    base + 7 * p.x + p.y
  }

  /** Coordinates with rows 0..6 get distinct days. */
  lemma MarkDateInjective(base: Day, p: Point, q: Point)
    requires 0 <= p.y < Height && 0 <= q.y < Height
    ensures MarkDate(base, p) == MarkDate(base, q) <==> p == q
  {
    if MarkDate(base, p) == MarkDate(base, q) {
      assert 7 * (p.x - q.x) == q.y - p.y;
    }
  }

  /** The commits of a text's layout all fall on different days. */
  lemma LayoutDatesDistinct(font: FontMap, base: Day, text: string, a: nat, b: nat)
    requires GoodFont(font)
    requires a < b < |Layout(font, text)|
    ensures MarkDate(base, Layout(font, text)[a]) != MarkDate(base, Layout(font, text)[b])
  {
    var ps := Layout(font, text);
    LayoutDistinct(font, text);
    assert ps[a] in ps && ps[b] in ps;
    LayoutSource(font, text, ps[a]);
    LayoutSource(font, text, ps[b]);
    MarkDateInjective(base, ps[a], ps[b]);
  }

  /** What becomes of one markCommit call. WriteFailed: the data-file write
      fails and the callback gets the error. GitFailed: the write succeeds
      but git add or commit fails; simple-git then skips the chained push,
      so the push callback, the only way on, never runs. Committed: add and
      commit succeed and the push callback runs, whether or not the push
      itself succeeded, since it ignores its argument. */
  datatype Outcome = WriteFailed | GitFailed | Committed

  /** What the run reports: a commit made for coordinate index on date, or
      the final callback, with the index of the failed write if any. */
  datatype Event = Commit(index: nat, date: Day) | Done(failedAt: Option<nat>)

  /** `runSequentially(coords, index, done)` as a recursion. markCommit
      reads the clock on every call, so step i has its own base day
      bases[i]; outcomes[i] is what becomes of that call. A git failure
      ends the run without calling done. */
  function RunFrom(coords: seq<Point>, bases: seq<Day>, outcomes: seq<Outcome>, index: nat): (t: seq<Event>)
    requires |bases| == |coords| && |outcomes| == |coords|
    ensures index <= |coords| ==> |t| <= |coords| - index + 1
    decreases |coords| - index
  {
    if index >= |coords| then [Done(None)]
    else
      match outcomes[index]
      case WriteFailed => [Done(Some(index))]
      case GitFailed => []
      case Committed => [Commit(index, MarkDate(bases[index], coords[index]))] + RunFrom(coords, bases, outcomes, index + 1)
  }

  /** The driver as a loop over the steps. */
  method RunSequentially(coords: seq<Point>, bases: seq<Day>, outcomes: seq<Outcome>) returns (trace: seq<Event>)
    requires |bases| == |coords| && |outcomes| == |coords|
    ensures trace == RunFrom(coords, bases, outcomes, 0)
  {
    trace := [];
    var index := 0;
    while index < |coords|
      invariant 0 <= index <= |coords|
      invariant trace + RunFrom(coords, bases, outcomes, index) == RunFrom(coords, bases, outcomes, 0)
    {
      var date := MarkDate(bases[index], coords[index]);
      match outcomes[index]
      case WriteFailed =>
        trace := trace + [Done(Some(index))];
        return;
      case GitFailed =>
        // the push callback never runs, and neither does done
        assert trace + [] == trace;
        return;
      case Committed =>
        trace := trace + [Commit(index, date)];
        index := index + 1;
    }
    trace := trace + [Done(None)];
  }

  /** The first step from index on whose markCommit does not reach its push
      callback, or |outcomes| when every one does. */
  function FirstStop(outcomes: seq<Outcome>, index: nat): (k: nat)
    requires index <= |outcomes|
    ensures index <= k <= |outcomes|
    ensures forall j :: index <= j < k ==> outcomes[j].Committed?
    ensures k < |outcomes| ==> !outcomes[k].Committed?
    decreases |outcomes| - index
  {
    if index == |outcomes| || !outcomes[index].Committed? then index
    else FirstStop(outcomes, index + 1)
  }

  /** The commits of steps lo .. hi - 1, in order. */
  function Commits(coords: seq<Point>, bases: seq<Day>, lo: nat, hi: nat): seq<Event>
    requires lo <= hi <= |coords| && |bases| == |coords|
  {
    seq(hi - lo, j requires 0 <= j < hi - lo => Commit(lo + j, MarkDate(bases[lo + j], coords[lo + j])))
  }

  /** How the run ends after the commits before step k: done with success,
      done with the failed write, or, after a git failure, nothing. */
  function Ending(outcomes: seq<Outcome>, k: nat): seq<Event>
    requires k <= |outcomes|
  {
    if k == |outcomes| then [Done(None)]
    else if outcomes[k].WriteFailed? then [Done(Some(k))]
    else []
  }

  /** From step index on, the run commits the steps in order up to the first
      step that does not reach its push callback; it then calls done once,
      reporting success or the failed write, or, when git failed, never. */
  lemma {:induction false} RunFromShape(coords: seq<Point>, bases: seq<Day>, outcomes: seq<Outcome>, index: nat)
    requires |bases| == |coords| && |outcomes| == |coords| && index <= |coords|
    ensures var k := FirstStop(outcomes, index);
      RunFrom(coords, bases, outcomes, index) == Commits(coords, bases, index, k) + Ending(outcomes, k)
    decreases |coords| - index
  {
    var k := FirstStop(outcomes, index);
    if index < |coords| && outcomes[index].Committed? {
      RunFromShape(coords, bases, outcomes, index + 1);
      var c := Commit(index, MarkDate(bases[index], coords[index]));
      assert [c] + Commits(coords, bases, index + 1, k) == Commits(coords, bases, index, k);
    }
  }

  /** done is never called exactly when the first step that does not reach
      its push callback is a git failure. */
  lemma RunStalls(coords: seq<Point>, bases: seq<Day>, outcomes: seq<Outcome>)
    requires |bases| == |coords| && |outcomes| == |coords|
    ensures var k := FirstStop(outcomes, 0);
      (forall e :: e in RunFrom(coords, bases, outcomes, 0) ==> e.Commit?)
        <==> k < |coords| && outcomes[k].GitFailed?
  {
    var k := FirstStop(outcomes, 0);
    RunFromShape(coords, bases, outcomes, 0);
    var t := RunFrom(coords, bases, outcomes, 0);
    var cs := Commits(coords, bases, 0, k);
    assert forall e :: e in cs ==> e.Commit?;
    if !(k < |coords| && outcomes[k].GitFailed?) {
      assert t[|t| - 1] in t;
    }
  }

  /** Every coordinate is committed, in order, and done reports success,
      exactly when every markCommit reaches its push callback. */
  lemma RunAllCommitted(coords: seq<Point>, bases: seq<Day>, outcomes: seq<Outcome>)
    requires |bases| == |coords| && |outcomes| == |coords|
    ensures RunFrom(coords, bases, outcomes, 0) == Commits(coords, bases, 0, |coords|) + [Done(None)]
      <==> forall j :: 0 <= j < |coords| ==> outcomes[j].Committed?
  {
    RunFromShape(coords, bases, outcomes, 0);
    var k := FirstStop(outcomes, 0);
    if k < |coords| {
      assert |Commits(coords, bases, 0, k) + Ending(outcomes, k)| <= k + 1;
    }
  }

  /** Coordinates in layout order with rows 0..6: a cell before another
      lies on an earlier day. */
  lemma BeforeEarlier(base: Day, p: Point, q: Point)
    requires 0 <= p.y < Height && 0 <= q.y < Height
    requires Before(p, q)
    ensures MarkDate(base, p) < MarkDate(base, q)
  {
  }

  /** When the clock never runs backwards, the commits of a run over
      ascending coordinates fall on strictly increasing days, even when the
      run crosses midnight. */
  lemma RunDatesIncrease(coords: seq<Point>, bases: seq<Day>, outcomes: seq<Outcome>)
    requires |bases| == |coords| && |outcomes| == |coords|
    requires Ascending(coords) && forall p :: p in coords ==> 0 <= p.y < Height
    requires forall i, j :: 0 <= i <= j < |bases| ==> bases[i] <= bases[j]
    ensures var t := RunFrom(coords, bases, outcomes, 0);
      forall a, b :: 0 <= a < b < |t| && t[b].Commit? ==> t[a].Commit? && t[a].date < t[b].date
  {
    var k := FirstStop(outcomes, 0);
    RunFromShape(coords, bases, outcomes, 0);
    var t := RunFrom(coords, bases, outcomes, 0);
    forall a, b | 0 <= a < b < |t| && t[b].Commit?
      ensures t[a].Commit? && t[a].date < t[b].date
    {
      assert b < k;
      assert coords[a] in coords && coords[b] in coords;
      BeforeEarlier(bases[a], coords[a], coords[b]);
    }
  }

  /** The program: lay out the message and commit it. */
  method WriteMessage(bases: seq<Day>, outcomes: seq<Outcome>) returns (coords: seq<Point>, trace: seq<Event>)
    requires |bases| == |Layout(Font, Message)| && |outcomes| == |Layout(Font, Message)|
    ensures coords == Layout(Font, Message)
    ensures trace == RunFrom(coords, bases, outcomes, 0)
  {
    coords := TextToCoords(Font, Message);
    trace := RunSequentially(coords, bases, outcomes);
  }

  /** The message's commits fall on strictly increasing days while the
      clock never runs backwards. */
  lemma MessageDatesIncrease(bases: seq<Day>, outcomes: seq<Outcome>)
    requires |bases| == |Layout(Font, Message)| && |outcomes| == |Layout(Font, Message)|
    requires forall i, j :: 0 <= i <= j < |bases| ==> bases[i] <= bases[j]
    ensures var t := RunFrom(Layout(Font, Message), bases, outcomes, 0);
      forall a, b :: 0 <= a < b < |t| && t[b].Commit? ==> t[a].Commit? && t[a].date < t[b].date
  {
    var ps := Layout(Font, Message);
    FontGood();
    LayoutAscending(Font, Message);
    forall p | p in ps
      ensures 0 <= p.y < Height
    {
      LayoutSource(Font, Message, p);
    }
    RunDatesIncrease(ps, bases, outcomes);
  }
}

/**
 * write-graph-message.js: draws a 7-row picture from a CSV file onto the
 * contribution graph. Column c of the picture is week c after a Monday
 * anchor, row 0 is that week's preceding Sunday and row r (1..6) is the
 * anchor's weekday r; every marked cell becomes COMMITS_PER_DAY commits
 * dated at the start of its day.
 */
module GraphMessage {
  import opened Results
  import opened Calendar
  import opened Text

  /** Column 0's Monday: the ISO-week Monday of the start argument, or of the
      day 52 weeks before today. */
  function Anchor(startArg: Option<Day>, today: Day): (m: Day)
    ensures IsoWeekday(m) == 1
    ensures (var base := if startArg.Some? then startArg.value else today - 7 * 52;
      m <= base < m + 7)
  {
    IsoWeekStart(if startArg.Some? then startArg.value else today - 7 * 52)
  }

  // ---------------------------------------------------------------------
  // Loading the grid

  /** The picture: its rows of on/off cells and the width of its first row. */
  datatype Grid = Grid(cells: seq<seq<bool>>, numCols: nat)

  /** The file does not have seven lines; got is how many it has. */
  datatype GridError = RowCount(got: nat)

  /** The trimmed comma-separated fields of one line: one more than its
      commas (each field is trimmed by Trim, whose contract says what that
      removes). */
  function Fields(line: string): (fs: seq<string>)
    ensures |fs| == Occurrences(line, ',') + 1
  {
    var parts := Split(line, ',');
    seq(|parts|, i requires 0 <= i < |parts| => Trim(parts[i]))
  }

  /** A line's cells: on exactly where the field reads as the number 1, one
      cell per field. */
  function ParseRow(line: string): (row: seq<bool>)
    ensures |row| == Occurrences(line, ',') + 1
  {
    var fs := Fields(line);
    seq(|fs|, i requires 0 <= i < |fs| => NumberIsOne(fs[i]))
  }

  /** `loadGrid()` on the file's text: the trimmed text must have seven
      lines; the width is the number of fields of the first line. */
  function LoadGrid(raw: string): (r: Result<Grid, GridError>)
    ensures r.Failure? <==> Occurrences(Trim(raw), '\n') != 6
    ensures r.Failure? ==> r.error == RowCount(Occurrences(Trim(raw), '\n') + 1)
    ensures r.Success? ==> |r.value.cells| == 7 && 1 <= r.value.numCols == |r.value.cells[0]|
  {
    var lines := Split(Trim(raw), '\n');
    if |lines| != 7 then Failure(RowCount(|lines|))
    else
      var cells := seq(7, i requires 0 <= i < 7 => ParseRow(lines[i]));
      Success(Grid(cells, |cells[0]|))
  }

  /** A cell written the way the CSV files write it. */
  function CellText(b: bool): string
  {
    if b then "1" else "0"
  }

  function RenderRow(row: seq<bool>): string
  {
    Join(seq(|row|, i requires 0 <= i < |row| => CellText(row[i])), ',')
  }

  /** A picture written as CSV: "0"/"1" fields, one line per row. */
  function RenderGrid(cells: seq<seq<bool>>): string
  {
    Join(seq(|cells|, i requires 0 <= i < |cells| => RenderRow(cells[i])), '\n')
  }

  /** A written cell has no whitespace, no separator, and reads back. */
  lemma CellTextReads(b: bool)
    ensures Trim(CellText(b)) == CellText(b)
    ensures NumberIsOne(CellText(b)) == b
    ensures CellText(b) == "0" || CellText(b) == "1"
  {
    NumberIsOneBasic();
    TrimNoSpaces(CellText(b));
  }

  lemma RenderRowShape(row: seq<bool>)
    requires |row| >= 1
    ensures var s := RenderRow(row);
      |s| >= 1 && s[0] in "01" && s[|s| - 1] in "01" && '\n' !in s
  {
    var texts := seq(|row|, i requires 0 <= i < |row| => CellText(row[i]));
    forall i | 0 <= i < |texts|
      ensures texts[i] == "0" || texts[i] == "1"
    {
    }
    JoinEnds(texts, ',');
    forall p | p in texts
      ensures '\n' !in p
    {
      var i :| 0 <= i < |texts| && texts[i] == p;
    }
    JoinAvoids(texts, ',', '\n');
  }

  /** The fields of a written row are the written cells. */
  lemma FieldsRendered(row: seq<bool>)
    requires |row| >= 1
    ensures Fields(RenderRow(row)) == seq(|row|, i requires 0 <= i < |row| => CellText(row[i]))
  {
    var texts := seq(|row|, i requires 0 <= i < |row| => CellText(row[i]));
    SplitRendered(row);
    var fs := Fields(RenderRow(row));
    forall i | 0 <= i < |row|
      ensures fs[i] == texts[i]
    {
      CellTextReads(row[i]);
    }
  }

  /** Splitting a written row at its commas gives the written cells. */
  lemma SplitRendered(row: seq<bool>)
    requires |row| >= 1
    ensures Split(RenderRow(row), ',') == seq(|row|, i requires 0 <= i < |row| => CellText(row[i]))
  {
    var texts := seq(|row|, i requires 0 <= i < |row| => CellText(row[i]));
    forall p | p in texts
      ensures ',' !in p
    {
      var i :| 0 <= i < |texts| && texts[i] == p;
      CellTextReads(row[i]);
    }
    SplitJoin(texts, ',');
  }

  lemma ParseRendered(row: seq<bool>)
    requires |row| >= 1
    ensures ParseRow(RenderRow(row)) == row
  {
    FieldsRendered(row);
    var fs := Fields(RenderRow(row));
    assert |fs| == |row|;
    forall i | 0 <= i < |row|
      ensures NumberIsOne(fs[i]) == row[i]
    {
      assert fs[i] == CellText(row[i]);
      CellTextReads(row[i]);
    }
    assert ParseRow(RenderRow(row)) == seq(|fs|, i requires 0 <= i < |fs| => NumberIsOne(fs[i]));
  }

  /** The lines of a written picture are its written rows. */
  lemma LinesRendered(cells: seq<seq<bool>>)
    requires |cells| >= 1 && forall i :: 0 <= i < |cells| ==> |cells[i]| >= 1
    ensures Split(Trim(RenderGrid(cells)), '\n') == seq(|cells|, i requires 0 <= i < |cells| => RenderRow(cells[i]))
  {
    var lines := seq(|cells|, i requires 0 <= i < |cells| => RenderRow(cells[i]));
    forall i | 0 <= i < |cells|
      ensures |lines[i]| >= 1 && lines[i][0] in "01" && lines[i][|lines[i]| - 1] in "01" && '\n' !in lines[i]
    {
      RenderRowShape(cells[i]);
    }
    forall p | p in lines
      ensures '\n' !in p
    {
      var i :| 0 <= i < |lines| && lines[i] == p;
    }
    var raw := RenderGrid(cells);
    JoinEnds(lines, '\n');
    TrimNoSpaces(raw);
    SplitJoin(lines, '\n');
  }

  /** Loading a written seven-row picture gives the picture back. */
  lemma LoadRendered(cells: seq<seq<bool>>)
    requires |cells| == 7 && forall i :: 0 <= i < 7 ==> |cells[i]| >= 1
    ensures LoadGrid(RenderGrid(cells)) == Success(Grid(cells, |cells[0]|))
  {
    var lines := seq(7, i requires 0 <= i < 7 => RenderRow(cells[i]));
    LinesRendered(cells);
    forall i | 0 <= i < 7
      ensures ParseRow(lines[i]) == cells[i]
    {
      ParseRendered(cells[i]);
    }
    LoadLines(RenderGrid(cells), lines, cells);
  }

  lemma LoadLines(raw: string, lines: seq<string>, cells: seq<seq<bool>>)
    requires Split(Trim(raw), '\n') == lines && |lines| == 7 && |cells| == 7
    requires forall i :: 0 <= i < 7 ==> ParseRow(lines[i]) == cells[i]
    ensures LoadGrid(raw) == Success(Grid(cells, |cells[0]|))
  {
    LoadSevenLines(raw, lines);
    ParsedLines(lines, cells);
  }

  lemma LoadSevenLines(raw: string, lines: seq<string>)
    requires Split(Trim(raw), '\n') == lines && |lines| == 7
    ensures LoadGrid(raw) == Success(Grid(seq(7, i requires 0 <= i < 7 => ParseRow(lines[i])), |ParseRow(lines[0])|))
  {
  }

  lemma ParsedLines(lines: seq<string>, cells: seq<seq<bool>>)
    requires |lines| == 7 && |cells| == 7
    requires forall i :: 0 <= i < 7 ==> ParseRow(lines[i]) == cells[i]
    ensures seq(7, i requires 0 <= i < 7 => ParseRow(lines[i])) == cells
  {
  }

  // ---------------------------------------------------------------------
  // Commit dates

  /** A position in the picture. */
  datatype Cell = Cell(col: nat, row: nat)

  /** Row row, column col is marked; a short row has its missing columns
      unmarked. */
  predicate IsOn(grid: seq<seq<bool>>, row: nat, col: nat): (b: bool)
    requires |grid| == 7
    ensures row < 7 && col < |grid[row]| ==> (b <==> grid[row][col])
    ensures row >= 7 || col >= |grid[row]| ==> !b
  {
    row < 7 && col < |grid[row]| && grid[row][col]
  }

  /** Slot k of the column-by-column scan is column k / 7, row k % 7. */
  function SlotCell(k: nat): Cell
  {
    Cell(k / 7, k % 7)
  }

  predicate SlotOn(grid: seq<seq<bool>>, k: nat)
    requires |grid| == 7
  {
    IsOn(grid, k % 7, k / 7)
  }

  /** The marked cells among the first k slots, in scan order. */
  function Marked(grid: seq<seq<bool>>, k: nat): seq<Cell>
    requires |grid| == 7
  {
    if k == 0 then []
    else Marked(grid, k - 1) + (if SlotOn(grid, k - 1) then [SlotCell(k - 1)] else [])
  }

  /** Only marked cells of the first k slots are listed. */
  lemma {:induction false} MarkedSound(grid: seq<seq<bool>>, k: nat, c: Cell)
    requires |grid| == 7
    requires c in Marked(grid, k)
    ensures c.row < 7 && 7 * c.col + c.row < k && IsOn(grid, c.row, c.col)
  {
    if c in Marked(grid, k - 1) {
      MarkedSound(grid, k - 1, c);
    } else {
      assert c == SlotCell(k - 1);
    }
  }

  /** Every marked cell in the first k slots is listed. */
  lemma {:induction false} MarkedComplete(grid: seq<seq<bool>>, k: nat, c: Cell)
    requires |grid| == 7
    requires c.row < 7 && 7 * c.col + c.row < k && IsOn(grid, c.row, c.col)
    ensures c in Marked(grid, k)
  {
    if 7 * c.col + c.row < k - 1 {
      MarkedComplete(grid, k - 1, c);
    } else {
      assert SlotCell(k - 1) == c;
    }
  }

  /** The day of a cell: anchor plus col weeks plus (row - 1) days, so a
      cell of rows 0..6 lies in the Sunday-to-Saturday week of its column. */
  function CellDay(anchor: Day, c: Cell): (d: Day)
    ensures c.row < 7 ==> anchor - 1 + 7 * c.col <= d <= anchor + 5 + 7 * c.col
  {
    anchor + 7 * c.col + c.row - 1
  }

  /** Row 0 falls on a Sunday, row r on ISO weekday r, and every row of a
      column lies in the Sunday-first graph week that starts the day before
      that column's Monday. */
  lemma CellPosition(anchor: Day, c: Cell)
    requires IsoWeekday(anchor) == 1 && c.row < 7
    ensures IsoWeekday(CellDay(anchor, c)) == (if c.row == 0 then 7 else c.row)
    ensures (CellDay(anchor, c) - (anchor - 1)) / 7 == c.col
    ensures (CellDay(anchor, c) - (anchor - 1)) % 7 == c.row
  {
    WeekdayShift(anchor - 1, c.col);
    var d := CellDay(anchor, c);
    assert d - (anchor - 1) == 7 * c.col + c.row;
    assert (anchor + 3) % 7 == 0;
  }

  /** Distinct cells of the seven rows fall on distinct days. */
  lemma CellDayInjective(anchor: Day, c1: Cell, c2: Cell)
    requires c1.row < 7 && c2.row < 7
    ensures CellDay(anchor, c1) == CellDay(anchor, c2) <==> c1 == c2
  {
    if CellDay(anchor, c1) == CellDay(anchor, c2) {
      assert 7 * (c1.col - c2.col) == c2.row - c1.row;
    }
  }

  /** n copies of t. */
  function Repeat(t: Timestamp, n: int): (r: seq<Timestamp>)
    ensures |r| == Max(0, n)
    ensures forall x :: x in r ==> x == t
  {
    if n <= 0 then [] else Repeat(t, n - 1) + [t]
  }

  /** What the scan of the first k slots pushes: perDay copies of each marked
      slot's day, in scan order. */
  function Scan(grid: seq<seq<bool>>, k: nat, anchor: Day, perDay: int): (ts: seq<Timestamp>)
    requires |grid| == 7
    ensures forall t :: t in ts ==> t == Midnight(t.day) && anchor - 1 <= t.day < anchor + k - 1
  {
    if k == 0 then []
    else Scan(grid, k - 1, anchor, perDay) + (if SlotOn(grid, k - 1) then Repeat(Midnight(anchor + k - 2), perDay) else [])
  }

  /** The innermost loop: `COMMITS_PER_DAY` pushes of the same date. */
  method PushCopies(pushed: seq<Timestamp>, date: Timestamp, perDay: int) returns (out: seq<Timestamp>)
    ensures out == pushed + Repeat(date, perDay)
  {
    out := pushed;
    var n := 0;
    while n < perDay
      invariant 0 <= n <= Max(0, perDay)
      invariant out == pushed + Repeat(date, n)
    {
      out := out + [date];
      n := n + 1;
    }
  }

  /** `getCommitDates(grid, numCols)`: scans the columns left to right and
      each column top to bottom, pushing perDay copies of each marked cell's
      day, then sorts. The scan already produces ascending days, so the
      result is exactly the scan's output. */
  method GetCommitDates(grid: seq<seq<bool>>, numCols: nat, anchor: Day, perDay: int) returns (dates: seq<Timestamp>)
    requires |grid| == 7
    ensures dates == Scan(grid, 7 * numCols, anchor, perDay)
    ensures Sorted(dates)
  {
    var pushed := ScanColumns(grid, numCols, anchor, perDay);
    ScanSorted(grid, 7 * numCols, anchor, perDay);
    dates := SortStamps(pushed);
    SortOfSorted(pushed);
  }

  /** The column loop of getCommitDates, before the sort. */
  method ScanColumns(grid: seq<seq<bool>>, numCols: nat, anchor: Day, perDay: int) returns (pushed: seq<Timestamp>)
    requires |grid| == 7
    ensures pushed == Scan(grid, 7 * numCols, anchor, perDay)
  {
    pushed := [];
    var col := 0;
    while col < numCols
      invariant 0 <= col <= numCols
      invariant pushed == Scan(grid, 7 * col, anchor, perDay)
    {
      pushed := ScanColumn(grid, col, anchor, perDay, pushed);
      col := col + 1;
    }
  }

  /** The row loop of one column: the seven rows top to bottom. */
  method ScanColumn(grid: seq<seq<bool>>, col: nat, anchor: Day, perDay: int, pushed: seq<Timestamp>) returns (out: seq<Timestamp>)
    requires |grid| == 7
    requires pushed == Scan(grid, 7 * col, anchor, perDay)
    ensures out == Scan(grid, 7 * col + 7, anchor, perDay)
  {
    out := pushed;
    var row := 0;
    while row < 7
      invariant 0 <= row <= 7
      invariant out == Scan(grid, 7 * col + row, anchor, perDay)
    {
      out := ScanCell(grid, col, row, anchor, perDay, out);
      row := row + 1;
    }
  }

  /** One cell of the row loop: perDay copies of its day when it is on. */
  method ScanCell(grid: seq<seq<bool>>, col: nat, row: nat, anchor: Day, perDay: int, pushed: seq<Timestamp>)
    returns (out: seq<Timestamp>)
    requires |grid| == 7 && row < 7
    requires pushed == Scan(grid, 7 * col + row, anchor, perDay)
    ensures out == Scan(grid, 7 * col + row + 1, anchor, perDay)
  {
    ScanStep(grid, col, row, anchor, perDay);
    out := pushed;
    if col < |grid[row]| && grid[row][col] {
      var date := Midnight(anchor + 7 * col + (row - 1));
      out := PushCopies(out, date, perDay);
    }
  }

  /** Slot 7 * col + row of the scan is row row of column col. */
  lemma ScanStep(grid: seq<seq<bool>>, col: nat, row: nat, anchor: Day, perDay: int)
    requires |grid| == 7 && row < 7
    ensures Scan(grid, 7 * col + row + 1, anchor, perDay)
      == Scan(grid, 7 * col + row, anchor, perDay)
       + (if IsOn(grid, row, col) then Repeat(Midnight(anchor + 7 * col + (row - 1)), perDay) else [])
  {
    var k := 7 * col + row;
    assert k % 7 == row && k / 7 == col;
  }

  /** Appending a later sorted list keeps the order. */
  lemma SortedConcat(a: seq<Timestamp>, b: seq<Timestamp>)
    requires Sorted(a) && Sorted(b)
    requires forall x, y :: x in a && y in b ==> LessEq(x, y)
    ensures Sorted(a + b)
  {
    var s := a + b;
    forall i, j | 0 <= i < j < |s|
      ensures LessEq(s[i], s[j])
    {
      if j < |a| {
        assert s[i] == a[i] && s[j] == a[j];
      } else if i >= |a| {
        assert s[i] == b[i - |a|] && s[j] == b[j - |a|];
      } else {
        assert s[i] in a && s[j] in b;
      }
    }
  }

  lemma RepeatSorted(t: Timestamp, n: int)
    ensures Sorted(Repeat(t, n))
  {
    var rep := Repeat(t, n);
    forall i, j | 0 <= i < j < |rep|
      ensures LessEq(rep[i], rep[j])
    {
      assert rep[i] in rep && rep[j] in rep;
    }
  }

  /** The scan of the first k slots is ascending. */
  lemma {:induction false} ScanSorted(grid: seq<seq<bool>>, k: nat, anchor: Day, perDay: int)
    requires |grid| == 7
    ensures Sorted(Scan(grid, k, anchor, perDay))
  {
    if k > 0 {
      var prev := Scan(grid, k - 1, anchor, perDay);
      ScanSorted(grid, k - 1, anchor, perDay);
      var t0 := Midnight(anchor + k - 2);
      var rep := if SlotOn(grid, k - 1) then Repeat(t0, perDay) else [];
      RepeatSorted(t0, perDay);
      forall x, y | x in prev && y in rep
        ensures LessEq(x, y)
      {
        assert x.day < anchor + k - 2 && y == t0;
      }
      SortedConcat(prev, rep);
    }
  }

  /** Each marked cell contributes max(0, perDay) dates. */
  lemma {:induction false} ScanLength(grid: seq<seq<bool>>, k: nat, anchor: Day, perDay: int)
    requires |grid| == 7
    ensures |Scan(grid, k, anchor, perDay)| == Max(0, perDay) * |Marked(grid, k)|
  {
    if k > 0 {
      ScanLength(grid, k - 1, anchor, perDay);
      var m, n := Max(0, perDay), |Marked(grid, k - 1)|;
      var prev := Scan(grid, k - 1, anchor, perDay);
      assert |prev| == m * n;
      if SlotOn(grid, k - 1) {
        assert |Scan(grid, k, anchor, perDay)| == |prev| + m;
        assert |Marked(grid, k)| == n + 1;
        MulSucc(m, n);
      } else {
        assert Scan(grid, k, anchor, perDay) == prev + [];
        assert |Marked(grid, k)| == n;
      }
    }
  }

  /** Kept apart so the product is proved without the scan in context. */
  lemma MulSucc(m: int, n: int)
    ensures m * (n + 1) == m * n + m
  {
  }

  /** The dates on day d: max(0, perDay) when d is the day of a marked slot
      among the first k, none otherwise. */
  lemma {:induction false} ScanOnDay(grid: seq<seq<bool>>, k: nat, anchor: Day, perDay: int, d: Day)
    requires |grid| == 7
    ensures (var slot := d - anchor + 1;
      OnDay(Scan(grid, k, anchor, perDay), d)
        == if 0 <= slot < k && SlotOn(grid, slot) then Max(0, perDay) else 0)
  {
    if k > 0 {
      var prev := Scan(grid, k - 1, anchor, perDay);
      ScanOnDay(grid, k - 1, anchor, perDay, d);
      if SlotOn(grid, k - 1) {
        var rep := Repeat(Midnight(anchor + k - 2), perDay);
        OnDayAppend(prev, rep, d);
        if d == anchor + k - 2 {
          OnDayAll(rep, d);
        } else {
          OnDayNone(rep, d);
        }
      } else {
        assert Scan(grid, k, anchor, perDay) == prev;
      }
    }
  }

  /** The slot whose day is d, when marked, is a listed cell of day d. */
  lemma MarkedSlot(grid: seq<seq<bool>>, k: nat, anchor: Day, d: Day)
    requires |grid| == 7
    ensures (var slot := d - anchor + 1;
      0 <= slot < k && SlotOn(grid, slot) ==>
        SlotCell(slot) in Marked(grid, k) && CellDay(anchor, SlotCell(slot)) == d)
  {
    var slot := d - anchor + 1;
    if 0 <= slot < k && SlotOn(grid, slot) {
      var c := SlotCell(slot);
      assert 7 * c.col + c.row == slot;
      MarkedComplete(grid, k, c);
    }
  }

  /** A marked cell of the picture gets max(0, perDay) dates on its day. */
  lemma MarkedDayCount(grid: seq<seq<bool>>, numCols: nat, anchor: Day, perDay: int, c: Cell)
    requires |grid| == 7
    requires c.row < 7 && c.col < numCols && IsOn(grid, c.row, c.col)
    ensures OnDay(Scan(grid, 7 * numCols, anchor, perDay), CellDay(anchor, c)) == Max(0, perDay)
  {
    ScanOnDay(grid, 7 * numCols, anchor, perDay, CellDay(anchor, c));
    var slot := 7 * c.col + c.row;
    assert slot % 7 == c.row && slot / 7 == c.col;
  }

  /** A day that is no marked cell's day gets no dates. */
  lemma UnmarkedDayEmpty(grid: seq<seq<bool>>, numCols: nat, anchor: Day, perDay: int, d: Day)
    requires |grid| == 7
    requires forall c :: c in Marked(grid, 7 * numCols) ==> CellDay(anchor, c) != d
    ensures OnDay(Scan(grid, 7 * numCols, anchor, perDay), d) == 0
  {
    ScanOnDay(grid, 7 * numCols, anchor, perDay, d);
    MarkedSlot(grid, 7 * numCols, anchor, d);
  }

  /** `main()` up to the commits: load the grid (an error stops everything),
      then compute the commit dates from the anchor Monday. */
  method GraphDates(raw: string, startArg: Option<Day>, today: Day, perDay: int) returns (r: Result<seq<Timestamp>, GridError>)
    ensures r.Failure? <==> LoadGrid(raw).Failure?
    ensures r.Failure? ==> r.error == LoadGrid(raw).error
    ensures r.Success? ==> (var g := LoadGrid(raw).value;
      && Sorted(r.value)
      && r.value == Scan(g.cells, 7 * g.numCols, Anchor(startArg, today), perDay))
  {
    var loaded := LoadGrid(raw);
    if loaded.Failure? {
      return Failure(loaded.error);
    }
    var dates := GetCommitDates(loaded.value.cells, loaded.value.numCols, Anchor(startArg, today), perDay);
    r := Success(dates);
  }
}

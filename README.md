# Backdated commit schedules, verified in Dafny

This project models the date logic of a small tool that fills a
contribution calendar with backdated version-control commits. It has three
generators:

- **random-commits.js** builds a random schedule. Its loop starts a window
  at the start day, clamps it to the end of that day's ISO week and of the
  range, and then moves its cursor seven days on. So every window begins on
  the start day's weekday, and after a start that is not a Monday each
  window is shorter than a week. In each window it picks 3 to 6 of the days
  (when the window offers at least 3). Each picked day gets 1 to 3 commits
  at a random hour from 9 to 20 and a random minute. The schedule is then
  sorted (module `RandomCommits`). The loop is modelled as written
  (`BuildScheduleAsWritten`); `BuildSchedule` is the corrected loop, which
  walks the range one ISO week at a time (see Findings).
- **write-graph-message.js** reads a 7-row CSV picture. Each marked cell
  `(row, col)` becomes `COMMITS_PER_DAY` commits on day
  `anchor + 7·col + row − 1`, where `anchor` is an ISO Monday
  (module `GraphMessage`).
- **write-message.js** lays a text out in a 2×7 bitmap font. Coordinate
  `(x, y)` is committed on day `base + 7x + y`, where `base` is the day
  after the same date a year ago, read from the clock at each commit. The
  commits run one after another. A failed data-file write ends the run
  with an error; a failed git add or commit ends it without ever calling
  back (module `PixelMessage`).

Shared pieces:

- `Calendar` holds days, ISO weeks and timestamps.
- `Text` holds the JavaScript string operations the CSV reader and the
  argument parser use.
- `Results` holds `Option`/`Result`.

Modelling choices:

- **Days.** A date is an integer day number counted from 1970-01-01, which
  was a Thursday. `IsoWeekday` is 1 for Monday through 7 for Sunday, and
  `IsoWeekStart` gives the Monday of a day's ISO week.
- **Timestamps.** A timestamp is `(day, hour, minute, second)`, ordered
  lexicographically. For years 0 to 9999, where `format()` writes the year
  with exactly four digits, that is the order in which the program's date
  strings sort, so `Array.prototype.sort` on those strings is
  `SortStamps`. `SortedUnique` shows that every correct sort gives the same
  list.
- **Randomness.** `random.int(lo, hi)` is a nondeterministic choice
  (`RandomInt`). Every property below holds whatever the random source
  returns.
- **In-place shuffle.** The Fisher–Yates shuffle works in place on an
  `array`. Its ghost result records the partner drawn at each step.
- **Loops.** The loops of `buildSchedule`, `getCommitDates`, `textToCoords`
  and `runSequentially` are `while` loops. Each one is proved equal to a
  reference function (`WindowsAsWritten` or, for the corrected loop,
  `Windows`; `Scan`; `Layout`; `RunFrom`). The properties are proved about
  those functions.
- **Outside world.** The clock and parsed dates are parameters (`today`,
  `asDate`, and `bases`, one base day per commit of write-message.js). So
  is what becomes of each `markCommit` call (`outcomes`): the data-file
  write fails; or git add or commit fails, and simple-git then skips the
  chained push together with its callback; or the push callback runs,
  which happens whether or not the push itself succeeded.

Points where the code does something other than its comments or a quick
reading suggest:

- The header comment of random-commits.js (lines 2 and 63) promises 3–6
  days per week. The loop as written moves its cursor seven days from the
  start day (random-commits.js:99), so after a Sunday start every window is
  a single Sunday (see Findings).
- A grid cell is on when `Number(v) === 1` (write-graph-message.js:45), so
  `"01"`, `"+1"` and `"1.0"` are on as well as `"1"`.
- `COMMITS_PER_DAY` is used as parsed (write-graph-message.js:30). A zero
  or negative value gives no commits.
- In write-message.js a failed data-file write reaches `done` with the
  error. A failed git add or commit never reaches `done`, and a failed
  push is ignored.

## Model

| member | source | states |
|---|---|---|
| Calendar.IsoWeekStart | random-commits.js:72-73 | the ISO-week Monday is a Monday at most six days before the day |
| Calendar.IsoWeekday | random-commits.js:72 | the ISO weekday is 1 to 7; it is 1 exactly on the days 7k + 4 (Mondays, day 4 being 1970-01-05) and 7 exactly on the days 7k + 3 (Sundays) |
| Calendar.IsoWeekEnd | random-commits.js:73 | the week's Sunday is 0–6 days after the day, is a Sunday and is in the same ISO week |
| Calendar.IsoWeekStartUnique | random-commits.js:72 | that Monday is the only Monday within six days before the day |
| Calendar.SameIsoWeek | random-commits.js:72-77 | two days share an ISO week iff the later one is at most the earlier one's Sunday |
| Calendar.WeekdayShift | random-commits.js:40 | adding whole weeks keeps the weekday |
| Calendar.SortStamps | random-commits.js:102 | `sort()` on the date strings of years 0–9999: the result is ascending and is a permutation of its input |
| Calendar.SortedUnique | random-commits.js:102 | two ascending lists with the same multiset are equal, so any correct sort gives this result |
| Calendar.SortOfSorted | write-graph-message.js:66 | sorting a list that is already ascending returns it unchanged |
| Calendar.OnDayPermutation | random-commits.js:102 | reordering keeps the number of commits on each day |
| Text.Trim | write-graph-message.js:38 | `trim()` strips leading and trailing whitespace and nothing else; its result has no whitespace at either end |
| Text.IsJsSpace | write-graph-message.js:38-40 | the characters `trim()` removes (ECMAScript WhiteSpace and LineTerminator) include no digit, comma, '.', '+' or '-', so trimming never removes part of a number or a separator |
| Text.TrimIdempotent | write-graph-message.js:38-40 | trimming twice is trimming once |
| Text.Split | write-graph-message.js:39-40 | `split(sep)` gives one piece more than the separators, no piece holds a separator, and joining the pieces restores the text |
| Text.SplitJoin | write-graph-message.js:39-40 | split undoes join for separator-free pieces |
| Text.AllDigits | random-commits.js:39 | `/^\d+$/` accepts only non-empty texts, and an accepted text has no '-', no '.' and no leading whitespace, so a date text such as "2025-01-01" is never taken for a number of weeks |
| Text.DecimalValue | random-commits.js:40 | `parseInt(s, 10)` of a digit string is 0 iff every digit is '0' |
| Text.NumberIsOne | write-graph-message.js:45 | on a plain digit string, `Number(v) === 1` holds iff the digits are worth 1 |
| Text.DecimalValueOne | write-graph-message.js:45 | a digit string reads as 1 iff it is zeros followed by a final '1' |
| Text.NumberIsOneBasic | write-graph-message.js:45 | `"1"` is on; `"0"` and `""` are off |
| Text.NumberIsOneVariants | write-graph-message.js:45 | `"01"` and `"+1"` are on; `"11"` and `"-1"` are off |
| Text.NumberIsOneFraction | write-graph-message.js:45 | `"1.0"` is on |
| RandomCommits.RandomInt | random-commits.js:55 | `random.int(lo, hi)` returns a value in `[lo, hi]` when `lo <= hi` |
| RandomCommits.SwapStep | random-commits.js:56 | the destructuring swap exchanges `arr[i]` and `arr[j]` in place |
| RandomCommits.SwapAt | random-commits.js:56 | the destructuring swap on a list: same length, `arr[j]` now at i and `arr[i]` at j |
| RandomCommits.SwapPermutes | random-commits.js:56 | a swap keeps the multiset of elements |
| RandomCommits.Shuffle | random-commits.js:53-59 | Fisher–Yates in place: for an array of length n it takes max(n − 1, 0) steps; step k swaps position n − 1 − k with a draw in `[0, n − 1 − k]`; the result is a permutation of the input |
| RandomCommits.ApplyFirstPermutes | random-commits.js:54-57 | any sequence of such swaps keeps the multiset |
| RandomCommits.ApplyFirstDistinct | random-commits.js:54-57 | any sequence of such swaps keeps a repeat-free list repeat-free |
| RandomCommits.ShuffledKeys | random-commits.js:86 | shuffling `[0, k)` gives each of `0..k−1` exactly once |
| RandomCommits.PickOffsets | random-commits.js:86 | `shuffle(keys).slice(0, numDays)` gives distinct offsets in `[0, k)`; there are `min(numDays, k)` of them for `numDays >= 0` |
| RandomCommits.SliceEnd | random-commits.js:86 | `slice(0, end)` keeps `min(end, len)` elements for `end >= 0`, and never more than `len` |
| RandomCommits.DayCommits | random-commits.js:90-96 | one to three commits, all on the given day, with hour in [9, 20], minute in [0, 59] and second 0 |
| RandomCommits.PushDays | random-commits.js:88-97 | the commits of the picked days are pushed in order: for each picked day, its 1–3 valid commits on `rangeStart + offset`; between one and three times as many commits as picked days |
| RandomCommits.FillWindow | random-commits.js:85-97 | one iteration's picks: when the window has k >= 3 days, 3 to min(6, k) distinct days are picked, each with 1–3 commits; every pushed commit lies inside the window at a valid time |
| RandomCommits.Windows | random-commits.js:71-99 | corrected loop: the windows visited from the cursor, each a non-empty run of days inside [cursor, through] |
| RandomCommits.WindowsAsWritten | random-commits.js:71-99 | loop as written: the windows visited from the cursor, each a non-empty run of days inside [cursor, through] |
| RandomCommits.WindowsPartition | random-commits.js:71-77 | corrected loop: the windows cut [from, through] into consecutive pieces, from `from` to `through`, and there are none iff from > through |
| RandomCommits.WindowsInWeeks | random-commits.js:72-79 | corrected loop: each window lies in one ISO week and has 1–7 days; later windows start on a Monday; earlier windows end on a Sunday |
| RandomCommits.WindowsDisjoint | random-commits.js:71-99 | corrected loop: windows are increasing and never overlap |
| RandomCommits.WindowsCover | random-commits.js:71-77 | corrected loop: every day of the range lies in some window |
| RandomCommits.WindowsCount | random-commits.js:71-99 | corrected loop: one iteration per ISO week that meets the range |
| RandomCommits.WindowsOrdered | random-commits.js:71-99 | corrected loop: the windows lie inside the range and are ordered and disjoint |
| RandomCommits.WindowsAsWrittenShape | random-commits.js:71-99 | loop as written: window i starts at from + 7i, lies in one ISO week and ends at or before `through`; there are (through − from)/7 + 1 of them |
| RandomCommits.WindowsAsWrittenOrdered | random-commits.js:71-99 | loop as written: windows are inside the range, increasing and disjoint, so no day is picked twice |
| RandomCommits.SundayStartAsWritten | random-commits.js:72-99 | loop as written: from a Sunday, every window is one Sunday |
| RandomCommits.AsWrittenMissesDays | random-commits.js:99 | counterexample: from a Sunday through the next Saturday, the loop as written offers only the Sunday, while ISO weeks also offer Monday to Saturday |
| RandomCommits.MondayStartAgrees | random-commits.js:71-99 | from a Monday, the loop as written and the corrected loop visit the same windows |
| RandomCommits.OneFullWeek | random-commits.js:71-79 | Monday through Sunday is a single 7-day window |
| RandomCommits.ClampWeek | random-commits.js:72-83 | the clamped window starts at the cursor (max(cursor, weekStart) is the cursor), ends at min(through, the cursor's Sunday) and has 1 to 7 days, so the `daysInWeek === 0` branch is dead |
| RandomCommits.VisitWindow | random-commits.js:72-97 | corrected loop, one iteration: the week recorded is the next window's, well formed, and its commits are appended to what was pushed |
| RandomCommits.VisitWeeks | random-commits.js:71-100 | corrected loop: one iteration per window, in window order; pushes everything each iteration produced |
| RandomCommits.VisitWindowAsWritten | random-commits.js:72-97 | loop as written, one iteration: the same record for the next window of WindowsAsWritten |
| RandomCommits.VisitWeeksAsWritten | random-commits.js:71-100 | loop as written, cursor + 7: one iteration per window of WindowsAsWritten, pushing everything each produced |
| RandomCommits.BuildSchedule | random-commits.js:67-103 | corrected schedule: ascending and a permutation of everything pushed; every commit in [from, through] at a valid time and inside one of the visited windows; at most 3 commits a day; 3 to min(6, k) active days in each window of k >= 3 days |
| RandomCommits.BuildScheduleAsWritten | random-commits.js:67-103 | the same promises for the loop as written, over its windows: in particular every commit lies inside one of the windows WindowsAsWritten lists, so a day no as-written window covers gets no commit |
| RandomCommits.ScheduleInRange | random-commits.js:71-89 | over any ordered windows in range, every scheduled day lies in [from, through] at a valid time |
| RandomCommits.ScheduleInWindows | random-commits.js:71-99 | every scheduled commit lies inside one of the windows the loop visited |
| RandomCommits.SchedulePerDay | random-commits.js:88-97 | no day gets more than three commits, because windows are disjoint and offsets distinct |
| RandomCommits.SchedulePerWeek | random-commits.js:85-86 | every window of k >= 3 days has between 3 and min(6, k) distinct days with commits |
| RandomCommits.WeekActiveDays | random-commits.js:85-97 | the days of a week that get commits are exactly its picked days `rangeStart + offset`, one per picked offset, so 3 to min(6, k) of them when the window has k >= 3 days |
| RandomCommits.OnDayPushed | random-commits.js:88-99 | across the whole loop a day gets at most three commits, and none outside every window |
| RandomCommits.StartDay | random-commits.js:32-34 | the start argument, or 52 weeks before today, which is earlier than today and on today's weekday |
| RandomCommits.EndDay | random-commits.js:36-43 | an all-digit end argument never ends before the start, ends a whole number of weeks after it and on its weekday |
| RandomCommits.ResolveRange | random-commits.js:32-48 | start is the argument or today − 52 weeks; end is today, start + 7n for an all-digit n, or the date; the result is an error iff end < start |
| RandomCommits.WeeksArgumentAccepted | random-commits.js:39-40 | an all-digit end argument n is never rejected: the range spans 7n days and ends on the start's weekday |
| RandomCommits.DefaultRange | random-commits.js:32-38 | with no arguments the range is the 365 days ending today |
| RandomCommits.EarlyEndRejected | random-commits.js:41-48 | an end date before the start is rejected with the range message |
| RandomCommits.Plan | random-commits.js:32-114 | `main` with the loop as written: a rejected range schedules nothing; otherwise the schedule is sorted, in range, at valid times, only on days inside the as-written windows, with at most 3 commits a day and 3 to min(6, k) active days in each as-written window of k >= 3 days |
| RandomCommits.PlanCorrected | random-commits.js:113-114 | `main` with the corrected loop: the same promises, with every commit inside an ISO week's window and 3 to min(6, k) active days in each |
| GraphMessage.Anchor | write-graph-message.js:25-27 | START_DATE is a Monday at most six days before the given start, or before today − 52 weeks |
| GraphMessage.LoadGrid | write-graph-message.js:35-47 | fails with the row count iff the trimmed text does not split into 7 lines; otherwise 7 rows and `numCols` = width of row 0 |
| GraphMessage.Fields | write-graph-message.js:40 | `line.split(",").map((v) => v.trim())` gives one field more than the line has commas |
| GraphMessage.ParseRow | write-graph-message.js:40-45 | a line gives one cell per field, so one more than its commas |
| GraphMessage.LoadRendered | write-graph-message.js:35-47 | loading a 7-row grid written as 0/1 CSV returns that grid |
| GraphMessage.ParseRendered | write-graph-message.js:40-45 | a row written as 0/1 fields parses back to itself |
| GraphMessage.MarkedSound | write-graph-message.js:51-53 | the scan lists only cells that are on, with row < 7; cells past a short row's end are off |
| GraphMessage.MarkedComplete | write-graph-message.js:51-53 | the scan lists every on-cell with col < numCols; cells beyond numCols are never scanned |
| GraphMessage.IsOn | write-graph-message.js:53 | `grid[row][col]` is the stored cell inside the grid; past the end of a short row, or below row 6, it reads as off |
| GraphMessage.CellDay | write-graph-message.js:55-58 | for rows 0 to 6, a cell of column col falls in the seven days from the Sunday before anchor + 7·col |
| GraphMessage.CellPosition | write-graph-message.js:54-59 | row 0 falls on the Sunday before the column's Monday, row r on weekday r, and the cell is recovered from its day |
| GraphMessage.CellDayInjective | write-graph-message.js:55-58 | for rows 0..6, two cells share a day iff they are the same cell |
| GraphMessage.Repeat | write-graph-message.js:60-62 | max(0, n) copies, every one equal to the date |
| GraphMessage.PushCopies | write-graph-message.js:60-62 | the innermost loop appends exactly the COMMITS_PER_DAY copies |
| GraphMessage.Scan | write-graph-message.js:51-63 | every date of the scan of the first k slots is a midnight, on a day from anchor − 1 to anchor + k − 2 |
| GraphMessage.ScanColumns | write-graph-message.js:51-65 | the column loop pushes exactly the column-by-column scan of the first numCols columns |
| GraphMessage.ScanCell | write-graph-message.js:53-63 | one cell extends the scan by one slot: COMMITS_PER_DAY copies of its day when it is on, nothing otherwise |
| GraphMessage.ScanColumn | write-graph-message.js:52-64 | the row loop extends the scan by one column |
| GraphMessage.GetCommitDates | write-graph-message.js:49-67 | the result is the column-by-column scan and is ascending |
| GraphMessage.ScanSorted | write-graph-message.js:51-66 | the scan already visits days in ascending order |
| GraphMessage.ScanLength | write-graph-message.js:60-62 | the output length is max(0, COMMITS_PER_DAY) × the number of on-cells |
| GraphMessage.ScanOnDay | write-graph-message.js:51-62 | a day gets max(0, COMMITS_PER_DAY) dates if its slot is an on-cell within the scanned columns, and none otherwise |
| GraphMessage.MarkedDayCount | write-graph-message.js:53-62 | each on-cell's date appears exactly max(0, COMMITS_PER_DAY) times |
| GraphMessage.UnmarkedDayEmpty | write-graph-message.js:53-62 | a day that is no on-cell's day gets no dates |
| GraphMessage.GraphDates | write-graph-message.js:77-79 | a malformed file is an error with its row count; otherwise the dates are the sorted scan from the anchor Monday |
| PixelMessage.FontChecked | write-message.js:11-27 | every glyph of the font is in its 2×7 box and strictly ascending |
| PixelMessage.Font | write-message.js:11-27 | the font object: every glyph it lists has at most 14 cells, the size of the 2×7 box |
| PixelMessage.FontGood | write-message.js:11-27 | every glyph of the font is in its box, strictly ascending with no repeated cell, and the blank glyph is empty |
| PixelMessage.CheckGlyphSound | write-message.js:11-27 | a glyph that passes the check is in its box, strictly ascending and without repeats |
| PixelMessage.GlyphGood | write-message.js:61 | `font[ch] ?? font[" "]` is always a good glyph in a good font |
| PixelMessage.Glyph | write-message.js:61 | `font[ch] ?? font[" "]`: the character's own glyph when the font lists it, the blank's otherwise |
| PixelMessage.PushGlyph | write-message.js:63-65 | the glyph loop appends the glyph's cells moved right by startX, in glyph order |
| PixelMessage.Layout | write-message.js:57-68 | the coordinates of a text, one per glyph cell of its characters |
| PixelMessage.TextToCoords | write-message.js:57-68 | the character loop computes the layout of the text |
| PixelMessage.LayoutLength | write-message.js:57-68 | the number of coordinates is the sum of the glyph sizes |
| PixelMessage.LayoutSnoc | write-message.js:59-65 | appending a character to a text of length n appends its glyph at columns 2n and 2n + 1 |
| PixelMessage.LayoutAppend | write-message.js:58-66 | layout(a + b) is layout(a) followed by layout(b) shifted right by twice the length of a |
| PixelMessage.LayoutSource | write-message.js:62-64 | every coordinate has x in [0, 2·length) and y in [0, 6], and comes from a glyph cell of character x/2 |
| PixelMessage.LayoutComplete | write-message.js:62-64 | every glyph cell of character i appears at (2i + cx, cy) |
| PixelMessage.LayoutDistinct | write-message.js:11-64 | no two coordinates of a message coincide |
| PixelMessage.LayoutAscending | write-message.js:59-66 | the coordinates come out in ascending order, column first, because glyphs are ascending and character i owns columns 2i and 2i + 1 |
| PixelMessage.UnlistedColumnEmpty | write-message.js:57-66 | a character missing from the font draws nothing in its two columns |
| PixelMessage.MessageUnlisted | write-message.js:87 | the message's 'v' and 'y' are missing from the font |
| PixelMessage.MessageGaps | write-message.js:87-88 | so the message has no coordinate in the columns of 'v' and 'y' |
| PixelMessage.MarkDate | write-message.js:33-38 | for y in [0, 6] the day gives back the coordinate: (day − base) div 7 is x and (day − base) mod 7 is y |
| PixelMessage.MarkDateInjective | write-message.js:33-38 | for y in [0, 6], (x, y) ↦ base + 7x + y is injective |
| PixelMessage.LayoutDatesDistinct | write-message.js:32-38 | with one base day, the commits of a layout all fall on different days |
| PixelMessage.RunFrom | write-message.js:70-85 | the recursive driver from step index: at most one event per remaining step, plus the final one |
| PixelMessage.RunSequentially | write-message.js:70-85 | the loop produces exactly the trace of the recursive driver, each step dated from its own base day |
| PixelMessage.RunFromShape | write-message.js:42-85 | the steps are committed in index order up to the first step that does not reach its push callback; the run then calls `done()` if there is no such step, `done(err)` if that step's write failed, and nothing at all if its git add or commit failed |
| PixelMessage.RunStalls | write-message.js:48-53 | `done` is never called iff the first step that does not reach its push callback failed in git add or commit |
| PixelMessage.RunAllCommitted | write-message.js:70-85 | every coordinate is committed in order and then `done()` is called, iff every step's write succeeds and its add and commit succeed |
| PixelMessage.RunDatesIncrease | write-message.js:32-85 | while the clock does not run backwards, the commits of ascending coordinates fall on strictly increasing days, even when the run crosses midnight |
| PixelMessage.WriteMessage | write-message.js:87-94 | the program lays out its message and runs the driver over it |
| PixelMessage.MessageDatesIncrease | write-message.js:87-94 | the message's commits fall on strictly increasing days while the clock does not run backwards |

## Findings

| source | as written | input that shows it | evidently intended | confidence | as-written member | corrected member |
|---|---|---|---|---|---|---|
| random-commits.js:99 | `cursor.add(1, "week")` moves the cursor seven days from where it is. Every window then starts on the start date's weekday, so in each later week the days from Monday up to that weekday are never offered | start on a Sunday (day 3 = 1970-01-04), end the next Saturday: the only window is that Sunday. A Sunday start offers only Sundays, and `random.int(3, 1)` runs every week | move the cursor to the next ISO Monday, so the range is cut into ISO weeks as the header comment ("3–6 days per week") and the clamp at line 76 suggest | medium; not executed | RandomCommits.AsWrittenMissesDays | RandomCommits.BuildSchedule |

`RandomCommits.BuildScheduleAsWritten` and `RandomCommits.VisitWeeksAsWritten`
keep the loop exactly as written. `RandomCommits.MondayStartAgrees` shows that
the two loops agree whenever the range starts on a Monday. `RandomCommits.Plan`
runs the loop as written, as `main` does; `RandomCommits.PlanCorrected` runs
the corrected schedule.

## Left out

- RandomCommits.RandomInt: nothing is said about `random.int(lo, hi)` when `lo > hi`, because the library defines that result. `random.int(3, k)` for a window of k < 3 days is such a call, so `FillWindow` and the schedule promise nothing about the number of days of such a window beyond the slice bound.
- Uniformity of the random source is not modelled. Only the ranges of the drawn values are.
- Calendar.SortStamps, RandomCommits.ResolveRange: days are unbounded integers, so the model matches the program only for dates in years 0 to 9999. From year 10000 on, `format()` writes five year digits and the string sort at random-commits.js:102 and write-graph-message.js:66 no longer orders by date; and past the end of the JavaScript date range (about year 275760, reached by a weeks argument of about 14.3 million), or for a weeks argument above 2^53, where `parseInt` loses precision, `add(n, "weeks")` no longer gives start + 7n days. `WeeksArgumentAccepted` and `Plan` assume it does, and `GetCommitDates` assumes the sort keeps the scan's date order.
- Parsing date strings with `moment(...)`, time zones, daylight-saving time and the text of `format()` are left out. Dates are day numbers given as parameters (`today`, `asDate`, `base`). Timestamps are compared as tuples, which is how their text sorts while the year has four digits.
- `markCommit`'s "one year ago plus one day" is calendar arithmetic on the clock, so it is left out. `MarkDate` takes that day as `base`, and the run takes one such day per step (`bases`), since the clock is read anew at every call.
- Writing `data.json`, `git add`, `git commit`, `git push`, `readFileSync`, console output, dry-run previews and their truncation, progress lines and `process.exit` are I/O and are left out. Their outcomes are parameters (`outcomes`, the CSV text `raw`).
- TextToCoords: characters are Unicode scalar values, while `text.length` and `text[i]` count UTF-16 code units. A character outside the Basic Multilingual Plane takes two blank glyphs in the program and one in the model. The program's message is ASCII, where the two agree.
- `makeCommit` and the commit loop of `main` in random-commits.js and write-graph-message.js are I/O over the finished schedule, so they are left out.
- The asynchronous callback timing of write-message.js is left out. The driver is a loop producing the sequence of events in the order they happen.
- `COMMITS_PER_DAY` is an integer parameter (`perDay`). Reading it with `parseInt` from the environment (default 20) is left out, and so is a NaN result. The comment at write-graph-message.js:11 says the default is 10 while the code (line 30) uses 20.
- Text.NumberIsOne: it covers decimal cells: an optional '+', digits worth 1, and an optional fraction of zeros. Other spellings that `Number(v)` also reads as 1 are left out: exponents such as "1e0", ".1e1"; "0x1", "0b1", "0o1"; and decimals that round to the double 1.0, such as "1.00000000000000001" and "0.99999999999999999999".
- RandomCommits.Shuffle: the draws are a ghost record of the random values. The method proves that the result is a permutation and equals those swaps applied. Uniformity of the shuffle is not modelled.

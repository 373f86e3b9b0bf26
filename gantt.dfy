/**
  The timeline layout of the Gantt chart of a project (src/components/GanttChart.tsx).

  Dates are ISO 8601 calendar dates ("YYYY-MM-DD"), represented here as day numbers: parsing a
  date-only string gives midnight of that day, so `startOfDay` is the identity and
  `differenceInDays(a, b)` between two such dates is `a - b`. The clock's `new Date()` also has a
  time of day (`Instant`), and there `differenceInDays` counts full days, truncated toward zero.
  The percentages of the bar styles are exact reals.
 */
module GanttChart {

  /** A calendar date, as a number of days from a fixed epoch. */
  type Day = int

  datatype Task = Task(id: string, titre: string, complete: bool, dateDebut: Day, dateFin: Day)

  datatype Phase = Phase(id: string, nom: string, dateDebut: Day, dateFin: Day, taches: seq<Task>)

  datatype Project = Project(
    id: string,
    nom: string,
    description: string,
    progression: int,
    dateLimite: string,
    phases: seq<Phase>)

  /** Number of tasks over all phases. */
  function TaskCount(phases: seq<Phase>): nat
  {
    if phases == [] then 0 else |phases[0].taches| + TaskCount(phases[1..])
  }

  /** True when `d` is the start or the end date of some task in `ts`. */
  ghost predicate IsTaskDate(ts: seq<Task>, d: Day)
  {
    exists t :: t in ts && (d == t.dateDebut || d == t.dateFin)
  }

  /** True when `d` is the start or end date of phase `p` or of one of its tasks. */
  ghost predicate IsPhaseDate(p: Phase, d: Day)
  {
    d == p.dateDebut || d == p.dateFin || IsTaskDate(p.taches, d)
  }

  // ---------------------------------------------------------------------------
  // allDates

  /** The start and end date of every task, task by task, in order. */
  function TaskDates(ts: seq<Task>): (r: seq<Day>)
    ensures |r| == 2 * |ts|
    ensures forall k :: 0 <= k < |ts| ==> r[2 * k] == ts[k].dateDebut && r[2 * k + 1] == ts[k].dateFin
  {
    if ts == [] then [] else [ts[0].dateDebut, ts[0].dateFin] + TaskDates(ts[1..])
  }

  /** What one phase contributes to `allDates`: its start, its end, then its tasks' dates. */
  function PhaseDates(p: Phase): (r: seq<Day>)
    ensures |r| == 2 + 2 * |p.taches|
    ensures r[0] == p.dateDebut && r[1] == p.dateFin && r[2..] == TaskDates(p.taches)
  {
    [p.dateDebut, p.dateFin] + TaskDates(p.taches)
  }

  /** `allDates`: the phases' contributions, phase by phase, in order. */
  function AllDates(phases: seq<Phase>): (r: seq<Day>)
    ensures |r| == 2 * (|phases| + TaskCount(phases))
    ensures r == [] <==> phases == []
  {
    if phases == [] then [] else PhaseDates(phases[0]) + AllDates(phases[1..])
  }

  lemma {:induction false} TaskDatesMembers(ts: seq<Task>, d: Day)
    ensures d in TaskDates(ts) <==> IsTaskDate(ts, d)
  {
    if ts != [] {
      TaskDatesMembers(ts[1..], d);
      assert TaskDates(ts) == [ts[0].dateDebut, ts[0].dateFin] + TaskDates(ts[1..]);
      if IsTaskDate(ts, d) {
        var t :| t in ts && (d == t.dateDebut || d == t.dateFin);
        if t != ts[0] {
          assert t in ts[1..];
        }
      }
      if IsTaskDate(ts[1..], d) {
        var t :| t in ts[1..] && (d == t.dateDebut || d == t.dateFin);
        assert t in ts;
      }
    }
  }

  /** Every date in `allDates` is a phase or task date of some phase, and every such date is in it. */
  lemma {:induction false} AllDatesMembers(phases: seq<Phase>, d: Day)
    ensures d in AllDates(phases) <==> exists i :: 0 <= i < |phases| && IsPhaseDate(phases[i], d)
  {
    if phases != [] {
      AllDatesMembers(phases[1..], d);
      TaskDatesMembers(phases[0].taches, d);
      assert AllDates(phases) == PhaseDates(phases[0]) + AllDates(phases[1..]);
      assert d in PhaseDates(phases[0]) <==> IsPhaseDate(phases[0], d);
      if exists i :: 0 <= i < |phases| && IsPhaseDate(phases[i], d) {
        var i :| 0 <= i < |phases| && IsPhaseDate(phases[i], d);
        if i > 0 {
          assert IsPhaseDate(phases[1..][i - 1], d);
        }
      }
      if exists i :: 0 <= i < |phases| - 1 && IsPhaseDate(phases[1..][i], d) {
        var i :| 0 <= i < |phases| - 1 && IsPhaseDate(phases[1..][i], d);
        assert IsPhaseDate(phases[i + 1], d);
      }
    }
  }

  /** Appending a phase appends its contribution: `allDates` keeps phase order. */
  lemma {:induction false} AllDatesAppend(phases: seq<Phase>, p: Phase)
    ensures AllDates(phases + [p]) == AllDates(phases) + PhaseDates(p)
  {
    if phases == [] {
      assert AllDates([p]) == PhaseDates(p) + AllDates([]);
    } else {
      assert (phases + [p])[1..] == phases[1..] + [p];
      AllDatesAppend(phases[1..], p);
    }
  }

  // ---------------------------------------------------------------------------
  // The window

  /** `Math.min(...dates)` */
  function Earliest(dates: seq<Day>): (m: Day)
    requires dates != []
    ensures m in dates
    ensures forall d :: d in dates ==> m <= d
  {
    if |dates| == 1 then dates[0]
    else
      var rest := Earliest(dates[1..]);
      assert forall d :: d in dates ==> d == dates[0] || d in dates[1..];
      if dates[0] <= rest then dates[0] else rest
  }

  /** `Math.max(...dates)` */
  function Latest(dates: seq<Day>): (m: Day)
    requires dates != []
    ensures m in dates
    ensures forall d :: d in dates ==> d <= m
  {
    if |dates| == 1 then dates[0]
    else
      var rest := Latest(dates[1..]);
      assert forall d :: d in dates ==> d == dates[0] || d in dates[1..];
      if rest <= dates[0] then dates[0] else rest
  }

  /** The day-granular horizontal axis of the chart. */
  datatype Window = Window(startDate: Day, endDate: Day)
  {
    /** Every window computed from a non-empty list of dates has this shape. */
    predicate Valid()
    {
      startDate <= endDate
    }

    /** `differenceInDays(endDate, startDate) + 1`: the number of days shown, both ends included. */
    function TotalDays(): int
    {
      endDate - startDate + 1
    }
  }

  /** What the component renders from: nothing, or a window and its header days. */
  datatype Timeline = NoData | Chart(window: Window, dates: seq<Day>)

  /** `Array.from({ length: totalDays }, (_, i) => addDays(startDate, i))` */
  function HeaderDates(w: Window): (r: seq<Day>)
    requires w.Valid()
    ensures |r| == w.TotalDays() >= 1
    ensures r[0] == w.startDate && r[|r| - 1] == w.endDate
    ensures forall i :: 0 < i < |r| ==> r[i] == r[i - 1] + 1
  {
    seq(w.TotalDays(), i => w.startDate + i)
  }

  /** The window and header of a project's chart, or `NoData` when there is nothing to show. */
  function ComputeTimeline(p: Project): (r: Timeline)
    ensures r.NoData? <==> p.phases == []
    ensures r.Chart? ==> r.window.Valid() && r.window.TotalDays() >= 1
    ensures r.Chart? ==> r.window.startDate in AllDates(p.phases) && r.window.endDate in AllDates(p.phases)
    ensures r.Chart? ==> forall d :: d in AllDates(p.phases) ==> r.window.startDate <= d <= r.window.endDate
    ensures r.Chart? ==> r.dates == HeaderDates(r.window)
  {
    var allDates := AllDates(p.phases);
    if |allDates| == 0 then NoData
    else
      var w := Window(Earliest(allDates), Latest(allDates));
      Chart(w, HeaderDates(w))
  }

  // ---------------------------------------------------------------------------
  // Bars and the today marker

  /** `(a / n) * 100`, exactly. */
  function Percent(a: int, n: int): real
    requires n > 0
  {
    (a as real / n as real) * 100.0
  }

  lemma PercentZero(n: int)
    requires n > 0
    ensures Percent(0, n) == 0.0
  {
  }

  lemma PercentWhole(n: int)
    requires n > 0
    ensures Percent(n, n) == 100.0
  {
    assert n as real / n as real == 1.0;
  }

  lemma PercentAdd(a: int, b: int, n: int)
    requires n > 0
    ensures Percent(a, n) + Percent(b, n) == Percent(a + b, n)
  {
    assert a as real / n as real + b as real / n as real == (a + b) as real / n as real;
  }

  lemma PercentStrictlyIncreasing(a: int, b: int, n: int)
    requires n > 0 && a < b
    ensures Percent(a, n) < Percent(b, n)
  {
    var x, y := a as real / n as real, b as real / n as real;
    assert x * n as real == a as real;
    assert y * n as real == b as real;
    assert x < y;
  }

  lemma PercentMonotone(a: int, b: int, n: int)
    requires n > 0 && a <= b
    ensures Percent(a, n) <= Percent(b, n)
  {
    if a < b {
      PercentStrictlyIncreasing(a, b, n);
    }
  }

  /** The `left` and `width` of a bar, as percentages of the window. */
  datatype BarStyle = BarStyle(left: real, width: real)

  /** The share of the timeline area one day takes, as a percentage: one `totalDays`-th of it. */
  function ColumnWidth(w: Window): real
    requires w.Valid()
  {
    100.0 / w.TotalDays() as real
  }

  /** `a` days of a window `n` days wide. */
  lemma PercentColumns(a: int, n: int)
    requires n > 0
    ensures Percent(a, n) == a as real * (100.0 / n as real)
  {
    var x := a as real / n as real;
    assert x * n as real == a as real;
    assert (100.0 / n as real) * n as real == 100.0;
  }

  /**
    `getBarStyles(start, end)`: the bar starts one day-share of the timeline area per day after
    `startDate`, and is one day-share wide per day from `start` to `end`, both included.
   */
  function GetBarStyles(w: Window, start: Day, end: Day): (r: BarStyle)
    requires w.Valid()
    ensures r.left == (start - w.startDate) as real * ColumnWidth(w)
    ensures r.width == (end - start + 1) as real * ColumnWidth(w)
  {
    PercentColumns(start - w.startDate, w.TotalDays());
    PercentColumns(end - start + 1, w.TotalDays());
    BarStyle(Percent(start - w.startDate, w.TotalDays()), Percent(end - start + 1, w.TotalDays()))
  }

  /** A bar whose dates lie in the window, in order, is drawn inside the chart and is never empty. */
  lemma BarInsideWindow(w: Window, start: Day, end: Day)
    requires w.Valid()
    requires w.startDate <= start <= end <= w.endDate
    ensures 0.0 <= GetBarStyles(w, start, end).left < 100.0
    ensures GetBarStyles(w, start, end).width > 0.0
    ensures GetBarStyles(w, start, end).left + GetBarStyles(w, start, end).width <= 100.0
  {
    var n := w.TotalDays();
    PercentZero(n);
    PercentWhole(n);
    PercentMonotone(0, start - w.startDate, n);
    PercentStrictlyIncreasing(start - w.startDate, n, n);
    PercentStrictlyIncreasing(0, end - start + 1, n);
    PercentAdd(start - w.startDate, end - start + 1, n);
    PercentMonotone(end - w.startDate + 1, n, n);
  }

  /** A one-day bar is exactly one `totalDays`-th of the timeline area wide. */
  lemma SingleDayBar(w: Window, day: Day)
    requires w.Valid()
    ensures GetBarStyles(w, day, day).width == 100.0 / w.TotalDays() as real
  {
    var n := w.TotalDays() as real;
    assert (1.0 / n) * 100.0 == 100.0 / n;
  }

  /** A bar spanning the whole window fills the chart. */
  lemma FullWindowBar(w: Window)
    requires w.Valid()
    ensures GetBarStyles(w, w.startDate, w.endDate) == BarStyle(0.0, 100.0)
  {
    PercentWhole(w.TotalDays());
  }

  /** When every date is the same day the window is one day wide and no division by zero occurs. */
  lemma SingleDayWindow(w: Window)
    requires w.startDate == w.endDate
    ensures w.Valid() && w.TotalDays() == 1
    ensures GetBarStyles(w, w.startDate, w.startDate) == BarStyle(0.0, 100.0)
  {
  }

  /** The left offset depends on the start only; the width grows strictly with the end. */
  lemma BarMonotone(w: Window, start: Day, end1: Day, end2: Day)
    requires w.Valid() && end1 < end2
    ensures GetBarStyles(w, start, end1).left == GetBarStyles(w, start, end2).left
    ensures GetBarStyles(w, start, end1).width < GetBarStyles(w, start, end2).width
  {
    PercentStrictlyIncreasing(end1 - start + 1, end2 - start + 1, w.TotalDays());
  }

  /** Every bar the chart renders whose own start is not after its end lies inside the chart. */
  lemma RenderedBarsInside(p: Project, w: Window, phase: Phase, start: Day, end: Day)
    requires ComputeTimeline(p).Chart? && w == ComputeTimeline(p).window
    requires phase in p.phases
    requires (start == phase.dateDebut && end == phase.dateFin)
          || (exists t :: t in phase.taches && start == t.dateDebut && end == t.dateFin)
    requires start <= end
    ensures 0.0 <= GetBarStyles(w, start, end).left < 100.0
    ensures GetBarStyles(w, start, end).width > 0.0
    ensures GetBarStyles(w, start, end).left + GetBarStyles(w, start, end).width <= 100.0
  {
    var i :| 0 <= i < |p.phases| && p.phases[i] == phase;
    assert IsPhaseDate(p.phases[i], start) && IsPhaseDate(p.phases[i], end);
    AllDatesMembers(p.phases, start);
    AllDatesMembers(p.phases, end);
    BarInsideWindow(w, start, end);
  }

  /**
    A fifteen-day window and a bar over its last eight days: the bar starts seven day-shares in
    and is eight day-shares wide.
   */
  lemma FifteenDayExample(w: Window)
    requires w.Valid() && w.endDate == w.startDate + 14
    ensures GetBarStyles(w, w.startDate + 7, w.endDate) == BarStyle(700.0 / 15.0, 800.0 / 15.0)
  {
    assert w.TotalDays() == 15;
  }

  /** Milliseconds in a day. */
  const MsPerDay: int := 86_400_000

  /** An instant of the clock: a day and the milliseconds elapsed since its midnight. */
  datatype Instant = Instant(day: Day, millis: int)
  {
    predicate Valid()
    {
      0 <= millis < MsPerDay
    }

    /** Milliseconds since midnight of day 0. */
    function Time(): int
    {
      day * MsPerDay + millis
    }
  }

  /**
    `differenceInDays(now, from)` for a date `from` at midnight: the number of full days from
    `from` to `now`, truncated toward zero.
   */
  function DifferenceInDays(now: Instant, from: Day): (k: int)
    requires now.Valid()
    ensures var x := now.Time() - from * MsPerDay;
      (x >= 0 ==> k * MsPerDay <= x < (k + 1) * MsPerDay) &&
      (x < 0 ==> (k - 1) * MsPerDay < x <= k * MsPerDay)
  {
    if now.day >= from || now.millis == 0 then now.day - from else now.day - from + 1
  }

  /**
    The "today" marker, `(differenceInDays(new Date(), startDate) / totalDays) * 100`, not clamped.
    On a day of the window it is the same percentage as the left offset of a one-day bar on that day.
   */
  function TodayMarker(w: Window, now: Instant): (r: real)
    requires w.Valid() && now.Valid()
    ensures w.startDate <= now.day <= w.endDate ==> r == GetBarStyles(w, now.day, now.day).left
  {
    Percent(DifferenceInDays(now, w.startDate), w.TotalDays())
  }

  /**
    The marker is off the chart to the left exactly when the clock is at least one full day
    before the window starts; during the day before the start it is at 0. Inside the window it
    is in [0, 100), after it at least 100.
   */
  lemma TodayMarkerPosition(w: Window, now: Instant)
    requires w.Valid() && now.Valid()
    ensures TodayMarker(w, now) < 0.0 <==> now.Time() <= (w.startDate - 1) * MsPerDay
    ensures now.day == w.startDate - 1 && now.millis > 0 ==> TodayMarker(w, now) == 0.0
    ensures w.startDate <= now.day <= w.endDate ==> 0.0 <= TodayMarker(w, now) < 100.0
    ensures w.endDate < now.day ==> TodayMarker(w, now) >= 100.0
  {
    var n := w.TotalDays();
    var k := DifferenceInDays(now, w.startDate);
    PercentZero(n);
    PercentWhole(n);
    if k < 0 {
      PercentStrictlyIncreasing(k, 0, n);
    } else if k < n {
      PercentMonotone(0, k, n);
      PercentStrictlyIncreasing(k, n, n);
    } else {
      PercentMonotone(n, k, n);
    }
  }

  /** On the last day of the window, at any time, the marker is `100 * (totalDays - 1) / totalDays`. */
  lemma TodayMarkerLastDay(w: Window, now: Instant)
    requires w.Valid() && now.Valid() && now.day == w.endDate
    ensures TodayMarker(w, now) == 100.0 * (w.TotalDays() - 1) as real / w.TotalDays() as real
  {
    var n := w.TotalDays() as real;
    assert DifferenceInDays(now, w.startDate) == w.TotalDays() - 1;
    assert ((n - 1.0) / n) * 100.0 == 100.0 * (n - 1.0) / n;
  }
}

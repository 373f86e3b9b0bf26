# Project tracking: project list state and Gantt timeline layout

A Dafny model of two pieces of the project-tracking web client.

- **The project list of the main screen** (`src/App.tsx`), module `App`. The component's state
  is a list of projects, each with a flat list of tasks, the "new project" form and the flag
  that shows its modal. This state is the class `App.AppState`, with one field per piece of
  state and one method per handler. `handleAddProject` appends the form as a new project with
  id `length + 1`, but only when the name, description and deadline are all non-empty.
  `toggleTask` flips the completion flag of the matching tasks of the matching project. It then
  recomputes that project's `progression` as `Math.round(completed / total * 100)`. The new
  lists these handlers build are pure functions (`AddProject`, `ToggleProjects`,
  `ToggleTaches`, `TaskProgression`), and the lemmas are stated about them. The class keeps an
  invariant (`Valid`): ids are `1..n` in list order, so the id given to a new project is always
  fresh. Every progression is in `0..100`, or `NaN` for a project without tasks.
- **The Gantt chart's timeline** (`src/components/GanttChart.tsx`), module `GanttChart`. It
  collects every phase and task date of a project (`allDates`), in phase order. It then takes
  their minimum and maximum as the window, counts `totalDays`, both ends included, and lists
  the header days. Each bar gets a left offset and a width, as percentages of the window, and
  the "today" marker gets an offset. The model proves that the window contains every date and
  that `totalDays >= 1`. It also proves that every rendered bar whose start is not after its
  end stays within `[0, 100]` with a positive width, and that a one-day window needs no
  division by zero.

Dates are ISO 8601 calendar-date strings in the source. Here they are integer day numbers, so
`startOfDay` is the identity, and between two such dates `differenceInDays(a, b)` is `a - b`.
The clock (`new Date()`) also carries a time of day. The model gives it as an `Instant` (a day and
the milliseconds since its midnight), and `DifferenceInDays` counts full days, truncated toward
zero, as `differenceInDays` does. Percentages are exact
`real`s. For a non-negative argument `Math.round` rounds half up. Over integers, that makes
`Math.round(c / n * 100)` equal to `(200c + n) / (2n)` with floor division.
`RoundedPercentIsNearest` proves this is the integer nearest to `c / n * 100`, with ties
rounding up.

Points where the code's behaviour may be unexpected; the model follows the code:

- Positions are divided by `totalDays`, the inclusive day count.
  So the window's last day sits at `100 * (totalDays - 1) / totalDays`, not at 100
  (`TodayMarkerLastDay`). A one-day window needs no special case, because `totalDays` is 1.
- The today marker truncates toward zero. During the day before the window starts it is at 0,
  not negative. Only from one full day before the start is it off the chart to the left
  (`TodayMarkerPosition`).
- The today marker's percentage is measured across a different box than the bars'. The marker is
  positioned inside the whole chart, which includes the name column on the left. The bars are
  positioned inside the timeline area to the right of that column. So equal percentages are not
  at the same place on screen; they coincide only at 100%.
- With zero tasks the code computes `Math.round(0 / 0 * 100)`, which is `NaN`, not 0.
  `Progression` therefore has a `NaN` case. The UI only calls `toggleTask` from a task's click
  handler, so in practice the project has a task.
- The seeded project stores `progression: 65` for 2 of 3 tasks complete. The formula gives 67,
  so "progression matches the tasks" is not an invariant. Toggling a seeded task twice gives
  back its tasks with progression 67 (`SeedToggleTwice`).

## Model

| member | source | states |
|---|---|---|
| `GanttChart.TaskDates` | src/components/GanttChart.tsx:39 | each task contributes its start then its end, in task order; length is twice the task count |
| `GanttChart.PhaseDates` | src/components/GanttChart.tsx:36-40 | a phase contributes its start, its end, then its tasks' dates |
| `GanttChart.AllDates` | src/components/GanttChart.tsx:36-40 | `allDates` has length 2·(#phases + #tasks) and is empty exactly when there are no phases |
| `GanttChart.TaskDatesMembers` | src/components/GanttChart.tsx:39 | a date is among the task dates iff it is the start or end of some task |
| `GanttChart.AllDatesMembers` | src/components/GanttChart.tsx:36-40 | a date is in `allDates` iff it is a start or end date of some phase or of one of its tasks |
| `GanttChart.AllDatesAppend` | src/components/GanttChart.tsx:36-40 | `allDates` keeps phase order: a phase added last contributes its dates last |
| `GanttChart.Earliest` | src/components/GanttChart.tsx:51 | `Math.min` over the dates is one of them and no later than any of them |
| `GanttChart.Latest` | src/components/GanttChart.tsx:52 | `Math.max` over the dates is one of them and no earlier than any of them |
| `GanttChart.HeaderDates` | src/components/GanttChart.tsx:53-56 | the header is `totalDays >= 1` consecutive days, the first `startDate` and the last `endDate` |
| `GanttChart.ComputeTimeline` | src/components/GanttChart.tsx:36-56 | no-data exactly when there are no phases; otherwise start and end are among the dates, every date lies between them, `totalDays >= 1`, and the header is the window's days |
| `GanttChart.GetBarStyles` | src/components/GanttChart.tsx:58-65 | `left` is `100 / totalDays` (one `totalDays`-th of the timeline area) per day from `startDate` to the bar's start; `width` is `100 / totalDays` per day from start to end, both included |
| `GanttChart.BarInsideWindow` | src/components/GanttChart.tsx:58-65 | a bar with `startDate <= start <= end <= endDate` has `0 <= left < 100`, `width > 0`, `left + width <= 100` |
| `GanttChart.RenderedBarsInside` | src/components/GanttChart.tsx:100-116 | every phase or task bar of the computed chart whose start is not after its end is drawn inside the chart |
| `GanttChart.SingleDayBar` | src/components/GanttChart.tsx:60 | a one-day bar is exactly `100 / totalDays` wide |
| `GanttChart.FullWindowBar` | src/components/GanttChart.tsx:53-60 | a bar over the whole window has left 0 and width 100 |
| `GanttChart.SingleDayWindow` | src/components/GanttChart.tsx:53-60 | when all dates are equal, `totalDays` is 1 and the bar has left 0 and width 100 |
| `GanttChart.BarMonotone` | src/components/GanttChart.tsx:59-60 | the left offset does not depend on the end; the width is strictly increasing in the end |
| `GanttChart.FifteenDayExample` | src/components/GanttChart.tsx:58-65 | in a 15-day window, a bar over the last 8 days has left 700/15 and width 800/15 |
| `GanttChart.DifferenceInDays` | src/components/GanttChart.tsx:129 | the day difference from a midnight date to the clock is the number of full days between them, truncated toward zero |
| `GanttChart.TodayMarker` | src/components/GanttChart.tsx:129 | on a day of the window the marker has the same percentage as the left offset of a one-day bar on that day |
| `GanttChart.TodayMarkerPosition` | src/components/GanttChart.tsx:129 | the unclamped marker is negative exactly when the clock is at least one full day before the window; it is 0 during the day before, in `[0, 100)` inside the window and at least 100 after it |
| `GanttChart.TodayMarkerLastDay` | src/components/GanttChart.tsx:129 | on the window's last day, at any time, the marker is at `100 * (totalDays - 1) / totalDays` |
| `App.SeedProjects` | src/App.tsx:20-33 | the initial list is one project, with id 1 and a progression in range, so it meets the list invariant |
| `App.FormComplete` | src/App.tsx:43 | the guard of `handleAddProject`: name, description and deadline all non-empty (truthy strings) |
| `App.CompletedCount` | src/App.tsx:61 | the number of completed tasks is at most the number of tasks |
| `App.RoundedPercent` | src/App.tsx:61 | `NaN` exactly for `0 / 0`; otherwise a value in `0..100` with `2n·r <= 200c + n < 2n·(r + 1)` |
| `App.RoundedPercentIsNearest` | src/App.tsx:61 | the rounded value is the integer nearest to `c / n * 100`, ties rounding up (`Math.round`) |
| `App.TaskProgression` | src/App.tsx:61 | the recomputed progression is `NaN` exactly for an empty task list, otherwise in `0..100` |
| `App.ToggleTaches` | src/App.tsx:58-60 | same length; every task keeps its id and title; `complete` flips exactly for tasks whose id is `taskId` |
| `App.ToggleProject` | src/App.tsx:56-64 | another project comes back unchanged; the target keeps id, name, description and deadline, gets the toggled tasks and their recomputed progression |
| `App.ToggleProjects` | src/App.tsx:55-66 | same length and order, same ids; projects with another id unchanged; the target's tasks toggled and progression recomputed |
| `App.ToggleTachesTwice` | src/App.tsx:58-60 | toggling the same task twice gives back the task list |
| `App.ToggleProjectsTwice` | src/App.tsx:55-66 | toggling twice gives back every project's tasks and leaves other projects unchanged; the target's progression is the recomputed one |
| `App.ToggleUniqueTaskCount` | src/App.tsx:58-61 | toggling a task with a unique id changes the completed count by exactly one, down if it was complete, up otherwise |
| `App.ToggleAbsentId` | src/App.tsx:58-60 | toggling an id no task has leaves the task list unchanged |
| `App.SeedToggleTwice` | src/App.tsx:20-33 | toggling seeded task 3 twice restores the tasks; the progression becomes 67, not the seeded 65 |
| `App.AddProject` | src/App.tsx:42-49 | with an empty name, description or deadline, nothing changes; otherwise exactly one project is appended, with id `length + 1`, the form's fields, progression 0 and no tasks, and the old projects are kept |
| `App.FreshId` | src/App.tsx:45 | with sequential ids, the new id `length + 1` belongs to no existing project |
| `App.AddProjectKeepsInvariants` | src/App.tsx:20-22 | adding keeps the ids `1..n` in order and every progression in range |
| `App.ToggleKeepsInvariants` | src/App.tsx:55-66 | toggling keeps the ids `1..n` in order and every progression in range |
| `App.AppState.constructor` | src/App.tsx:20-40 | the initial state is the seeded project, modal closed, empty form, with the invariant holding |
| `App.AppState.HandleAddProject` | src/App.tsx:42-53 | the list becomes `AddProject` of the old list and form; on an incomplete form nothing changes; otherwise the modal closes and the form is reset to empty strings; the invariant is kept |
| `App.AppState.ToggleTask` | src/App.tsx:55-66 | the list becomes `ToggleProjects` of the old list; the invariant is kept; nothing else changes |
| `App.AppState.OpenNewProject` | src/App.tsx:113 | the "new project" button opens the modal |
| `App.AppState.CancelNewProject` | src/App.tsx:161 | the cancel button closes the modal and changes nothing else |
| `App.AppState.SetNom` | src/App.tsx:133 | the name field's change handler sets the name and keeps the other form fields |
| `App.AppState.SetDescription` | src/App.tsx:143 | the description field's change handler sets the description and keeps the other form fields |
| `App.AppState.SetDateLimite` | src/App.tsx:155 | the deadline field's change handler sets the deadline and keeps the other form fields |

## Left out

- JSX rendering, CSS class strings, icons and React hook mechanics. The state is class fields, and each handler is a method that runs to completion.
- `parseISO`. Dates are assumed to be valid ISO 8601 date-only strings and are modelled as day numbers.
- Locale formatting of dates (`format(date, 'dd MMM', { locale: fr })`, `toLocaleDateString('fr-FR')`). These produce display text only.
- Reading the clock (`new Date()` for the today marker). The current instant is a parameter of `TodayMarker`.
- Time zones and daylight-saving time. Every day is taken to be 86,400,000 milliseconds long, so a 23- or 25-hour local day is not modelled.
- JavaScript floating-point rounding of the percentages and of `Math.round`. The model uses exact reals and integer arithmetic. The two first differ at 23 of 40 tasks complete: in doubles `23 / 40 * 100` is `57.49999999999999`, so the program shows 57, while `RoundedPercent(23, 40)` is `Rounded(58)`.
- `GanttChart.GetBarStyles`: a bar whose own start is after its end is not covered by the bounds lemmas, because the source does not check that order. Its width can then be zero or negative.
- The percentages are returned as numbers, not as the `"…%"` CSS strings the source builds.

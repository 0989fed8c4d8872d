# Digital Independence Planner, verified

The planner under `site/planner/src` draws a journey from proprietary services to independent
ones: a row of dated switches, two lanes, and two paths that change lanes once. This project
models its calendar and ordering, its layout engine, its editor and its document format, and
proves what the code and its comments promise of them.

| module | models |
|---|---|
| `Text`, `Calendar` | strings, `Date.UTC`, ISO days, quarter and year ends |
| `Sorting`, `Ordering` | the stable chronological sort, "reached as of", moving a node among its peers |
| `Wrapping`, `Measure`, `Plates`, `Layout`, `Curves`, `LanePaths`, `Roadmap` | `computeLayout` and the drawing it makes room for |
| `Spacing`, `Drawing` | every distance and size of the layout, and the lanes, breaks and bend of its paths |
| `Document`, `Json`, `Normalise`, `Fields`, `NormalForm`, `Rendering` | the document, `validateRoadmap`, its fixed points, and that what it accepts can be drawn |
| `Artwork`, `ShareLink` | icon hydration and share links |
| `Library`, `Editor`, `Refinement`, `Marks`, `Runs`, `Undoing`, `Records`, `EditorObject` | the library and the editor as a state machine and as an object |
| `Loading`, `Saving` | the stored library, read and written |

Loops and handlers are methods, each proved equal to a function of its inputs or of the old
state; the theorems are lemmas about those functions. The editor is related to a plain editor
(`Editor.Desk`) that has one document for each plan and no stored copies, timers or
write-backs: a step of the former is a step of the latter, with one exception that is named.

## Assumptions

- Numbers of the original are reals and integers here. A string is a sequence of characters,
  and a character stands for one code unit; `char` has no surrogates, so a character outside
  the basic plane counts once here where the original counts two units, and no cut splits it.
- `localeCompare` on date strings is taken as code-unit order. The days compared are
  `dddd-dd-dd`, or the signed form of the year 10000.
- `uniqueId()` is an argument that is new: not in use, not stored, not the empty string.
- The document that is shared is read back from JSON and LZ-string (`ShareLink.ReadsBack`).
- The clock, `String(x)` and `Number(x)` are arguments; where it matters, a string stays itself
  and so does a number other than zero (`Saving.ReadsText`, `Saving.ReadsStamps`).
- A handler, a timer and the arrival of artwork are one step each; timers may be arbitrarily
  late, and nothing is assumed of the order of steps.
- A quarter or a year before the year 1000 prints with an unpadded year, and what
  `new Date` makes of that string is left to the implementation. `Ordering.Placeable` leaves
  those nodes out; `Rendering.LooseIsDrawableExactly` says that among validated documents they
  are all that is left out. An exact date only needs the shape of a date: the control for the
  year can make one of no existing day, and everything holds of it too.

## What the proofs found

- A period that ends on 31 December 9999 has a successor that prints as `+010000-01`, sorts
  before every date and counts as reached from the start; it is the only exception
  (`Ordering.PeriodReachedAfterLastDay`).
- Icons leave the rounded ends of their plate from sizes on that are well below its height: up
  to a drawn size of 57 they never do, one of 60 can, and the settings go to 110
  (`Plates.IconsInsideExactly`, `Plates.SixtyStandsOut`, `Plates.LargestIconStandsOut`).
- A label line of more than 33 characters, always a single word, can be wider than its column
  (`Measure.ColumnHoldsItsPrintExactly`), and long legend labels can leave a social canvas
  (`Roadmap.LegendStaysInsideExactly`).
- On a social canvas title and subtitle are 58 apart at every text scale, so large type runs
  together (`Layout.HeaderLinesKeepApartExactly`).
- The comment that hiding the title takes its space back fails without the subtitle when the
  margin is larger than the title band (`Roadmap.HidingOnlyTitleLowersExactly`).
- A name that is unused can stop being so when it is cleaned, exactly unless the base is
  trimmed and has one to 45 characters (`Library.CleanedNameStaysUnusedExactly`).
- `validateRoadmap` is not idempotent for an icon without a name and with an id over 200,
  since the fallback name is not cut (`NormalForm.OnePassSuffices`); two passes always suffice.
- Two icons of one id with different artwork cannot both come back from a link
  (`Artwork.RestorableExactly`).
- The comment at `site/planner/src/lib/roadmap-library.ts:107-108` says that opening a plan is
  no edit; the plan that is left is stamped all the same, and a pending edit can stamp the plan
  opened after it (`Runs.OpeningStampsThePlanLeft`, `Runs.PendingEditStampsTheNextPlan`).
- A stored library can mark a plan as the example of any template, and a reset puts the first
  template's document into it. That breaks the promise that an example is never edited, and
  nothing else does (`Marks.StepKeepsMarksExactly`, `Loading.StoredMarkIsOverwritten`); an
  edit before the next save then brings the stored document back (`Refinement.CommitRefinesExactly`). A
  library that marks the first template alone is safe (`Runs.StarterMarksAreNeverSpoiled`).
- A reset keeps all of the past, so one at a full past makes the history longer than 80, and
  nothing else does (`Runs.RunStaysInCapExactly`, `Runs.EditsFillThePast`).
- The editor lets a plan have more nodes than the validator accepts; such a plan is saved and
  then dropped at the next reload (`Saving.PlanSurvivesExactly`, `Saving.OneNodeTooMany`).
- A year set by hand moves an exact 29 February to a day that does not exist in a common year
  (`Ordering.SetYearKeepsTheDayExactly`).
- Stored plans that share an id both stay, and writing one back overwrites the other
  (`Loading.ParsedLibraryExactly`, `Loading.SharedIdLosesAPlan`).

## Model

| member | source | states |
|---|---|---|
| `Roadmap.PathsMeetAtMostOnce` | site/planner/src/lib/roadmap-layout.ts:366-373 | The two category paths, as sets of points, share at most one point, and share one exactly when some switches are done and some are not; of the exact paths and of the rounded ones |
| `Roadmap.CrossoverFollowsDone` | site/planner/src/lib/roadmap-layout.ts:366-373 | The list of crossovers is exactly the gap after the last finished switch, or empty when none or all are finished |
| `Roadmap.IndependentIsOnTopOfDone` | site/planner/src/lib/roadmap-model.ts:626-641 | The independent side is on the top lane of exactly the first Done nodes of the row |
| `Roadmap.MeetingPointIsTheGapMiddle` | site/planner/src/lib/roadmap-layout.ts:486-501 | Before rounding the meeting point is the middle of the gap between the facing plates and half way between the lanes |
| `Roadmap.MarkerSplitsTheRow` | site/planner/src/lib/roadmap-layout.ts:451-460 | The viewing marker lies strictly right of every finished node and strictly left of every other |
| `Roadmap.PathsBreakAtTheirPlates` | site/planner/src/lib/roadmap-layout.ts:462-512 | Each path runs left to right from margin to margin, no point of it lies under one of its own plates or outside the margins, and its segments span everything else |
| `Roadmap.PathsLeaveNoOtherGap` | site/planner/src/lib/roadmap-layout.ts:462-512 | At every abscissa none of its plates covers, the path has points as near as one likes |
| `Roadmap.ColumnsHaveTheirRoom` | site/planner/src/lib/roadmap-layout.ts:375-441 | Neighbouring columns are the clamped spacing apart, all lie inside the margins, and an exact-size canvas with two nodes or more is filled exactly to its right margin |
| `Roadmap.ContentSpansTheTopPlates` | site/planner/src/lib/roadmap-layout.ts:442-450 | The content starts and ends exactly with the outer top plates: neither clamp to the margins ever bites on a row that has nodes |
| `Roadmap.WiderSpacingOnlyMovesRight` | site/planner/src/lib/roadmap-layout.ts:378-441 | On a canvas that follows its content a larger node spacing moves no node left and never narrows the canvas |
| `Roadmap.SceneIsLaid` | site/planner/src/lib/roadmap-layout.ts:375-441 | What the engine hands to the path builder has plates of 54 at least, columns apart and inside, and 120 at least of run at every crossover |
| `Roadmap.ComputeLayout` | site/planner/src/lib/roadmap-layout.ts:276-540 | The loops return, field by field, the layout that `Spacing` and `Drawing` pin down: distances, bands, canvas, paths and marker |
| `Roadmap.FindCrossovers` | site/planner/src/lib/roadmap-layout.ts:369-373 | The loop collects exactly the intervals whose ends have different categories on top |
| `Roadmap.PlaceNodes` | site/planner/src/lib/roadmap-layout.ts:431-441 | The running cursor puts each node at the start plus the sum of the gaps before it |
| `Roadmap.BuildRow` | site/planner/src/lib/roadmap-layout.ts:402-441 | Width, spread and nodes of the row together, whose distances `Spacing.NeighboursStandExactly` and `Spacing.CanvasIsLeast` give as equalities |
| `Spacing.NeighboursStandExactly` | site/planner/src/lib/roadmap-layout.ts:375-430 | As laid out, spread aside: neighbouring columns stand the clamped spacing apart and no further, and where the lanes change places the gap is the least that also leaves the run of the crossover between the wider plates |
| `Spacing.CanvasIsLeast` | site/planner/src/lib/roadmap-layout.ts:402-423 | The width is the least whole number that holds the bottom row and the columns, and on an exact-size canvas the set width; an empty roadmap opens at 1200 |
| `Spacing.RowBeginsAtTheMargin` | site/planner/src/lib/roadmap-layout.ts:402-433 | The first column begins at the margin, and nothing is spread on an automatic canvas or with fewer than two nodes |
| `Spacing.ColumnsAreMeasured` | site/planner/src/lib/roadmap-layout.ts:228-266 | Each column of the layout is as wide as the widest of plates, label lines, date, category text and 86, and each plate as its icons or the set minimum ask for |
| `Spacing.StackIsTight` | site/planner/src/lib/roadmap-layout.ts:325-358 | Lane distance, timeline and legend each stand at the greatest of their stated bounds, taken over the most label lines any node prints, and never lower |
| `Spacing.TopLaneIsTight` | site/planner/src/lib/roadmap-layout.ts:295-324 | The top lane stands exactly where the header, or the margin, and the marker above the lane end, or at its share of an exact height |
| `Spacing.HeightIsLeast` | site/planner/src/lib/roadmap-layout.ts:359-365 | The height is the least whole number that holds the foot of the canvas, or the set height where that holds it |
| `Spacing.TypeGrowsWithTheScale` | site/planner/src/lib/roadmap-layout.ts:85-130 | All sizes are their sizes at scale one times the text scale, offsets from a plate's edge beyond 38; a scale of zero counts as one, and 0.6 and 3 are its ends |
| `Spacing.LegendIsTight` | site/planner/src/lib/roadmap-layout.ts:133-149 | The legend's width is its two swatches, 52 text units, the second label, and the first label or 120 text units, whichever is more |
| `Spacing.MarkerExactly` | site/planner/src/lib/roadmap-layout.ts:451-460 | The marker is at the first node with none finished, at the last with all, half way between the two otherwise, and absent without nodes |
| `Spacing.LayoutTells` | site/planner/src/lib/roadmap-layout.ts:515-540 | The ids are in row order, and `grew` holds exactly if an exact-size canvas exceeds a requested side |
| `Drawing.PathsKeepTheirLanes` | site/planner/src/lib/roadmap-layout.ts:462-512 | Every point of the independent path is on the top lane up to the last finished node and on the bottom lane from the next one on, and the other way round for the proprietary one |
| `Drawing.PathsBreakUnderTheirPlates` | site/planner/src/lib/roadmap-layout.ts:462-512 | Between the margins a path's segments span exactly what is not under a top plate of a node where it is above or a bottom plate of another |
| `Drawing.CurveBendsExactly` | site/planner/src/lib/roadmap-layout.ts:483-501 | Both paths hold the curve between the wider plates, with control points in by the tension's share of the run, bounded by 44 and 0.48 of it |
| `Drawing.ShownIsNearest` | site/planner/src/lib/roadmap-layout.ts:542-544 | A drawn abscissa is the nearest tenth of the exact one, a half upwards |
| `Rendering.LooseIsDrawableExactly` | site/planner/src/lib/roadmap-model.ts:770-778 | A document the validator returns can be laid out exactly when no quarter or year in it lies before the year 1000 |
| `Rendering.AcceptedPlansCrossAtMostOnce` | site/planner/src/lib/roadmap-model.ts:770-778 | Any accepted JSON without such a period draws as two paths with at most one common point, and one exactly while the journey is under way |
| `LanePaths.PathFor` | site/planner/src/lib/roadmap-layout.ts:462-512 | The loop that appends to the path string yields the path defined connection by connection |
| `LanePaths.CurveRunsForward` | site/planner/src/lib/roadmap-layout.ts:486-501 | At a crossover the run is at least 120, the pull lies between 44 and 0.48 of the run, and the control points never fold back, rounded or not |
| `LanePaths.PathTraces` | site/planner/src/lib/roadmap-layout.ts:468-511 | Left of a crossover a path stays on its first lane, in it on the curve, right of it on the other lane |
| `LanePaths.MirroredTracesMeetOnce` | site/planner/src/lib/roadmap-layout.ts:483-501 | Two such traces on opposite lanes have the middle of the curve in common and nothing else |
| `LanePaths.LevelPathsNeverMeet` | site/planner/src/lib/roadmap-layout.ts:479-481 | Without a crossover the two paths have no point in common |
| `LanePaths.CrossingPathsMeetOnce` | site/planner/src/lib/roadmap-layout.ts:483-501 | With one crossover they have exactly one |
| `LanePaths.PathsMeet` | site/planner/src/lib/roadmap-layout.ts:462-512 | Both cases in terms of the number of finished switches |
| `LanePaths.PathBreaksAtItsPlates` | site/planner/src/lib/roadmap-layout.ts:462-512 | Segments follow each other left to right, span exactly what no plate hides, and hold all the path's points there, also after rounding when the margin is a multiple of a tenth |
| `LanePaths.PointsAreCovered` | site/planner/src/lib/roadmap-layout.ts:462-512 | No point of a path lies where the path leaves a gap |
| `LanePaths.CoveredIsApproached` | site/planner/src/lib/roadmap-layout.ts:462-512 | Where a path leaves no gap it has points as near as one likes |
| `LanePaths.PlatesAdvance` | site/planner/src/lib/roadmap-layout.ts:383-441 | The wider plate of a node ends before the wider plate of any later node begins |
| `LanePaths.ShowGrows` | site/planner/src/lib/roadmap-layout.ts:542-544 | The display rounding never exchanges two abscissas |
| `Curves.XAdvances` | site/planner/src/lib/roadmap-layout.ts:499-501 | A cubic whose control points do not fold back runs strictly left to right |
| `Curves.XEnds` | site/planner/src/lib/roadmap-layout.ts:499-501 | It starts and ends at its end points and stays between them |
| `Curves.CurveComesNear` | site/planner/src/lib/roadmap-layout.ts:499-501 | Between its ends it comes as near as one likes to every abscissa |
| `Curves.YIsBlend` | site/planner/src/lib/roadmap-layout.ts:499-501 | The curve level at both ends has the height of a cubic blend of its lanes |
| `Curves.YMeetsLaneOnlyAtEnds` | site/planner/src/lib/roadmap-layout.ts:499-501 | Between its ends it touches neither lane |
| `Curves.HeightsAddUp` | site/planner/src/lib/roadmap-layout.ts:483-501 | At one parameter the heights of the two curves add up to the two lanes |
| `Curves.MirrorMeetsOnce` | site/planner/src/lib/roadmap-layout.ts:483-501 | The two curves of a crossover meet exactly at parameter one half of both |
| `Layout.HeaderClearsTheRoadmap` | site/planner/src/lib/roadmap-layout.ts:295-324 | Title, subtitle, category markers and lane label stand one above the other with the stated room, header or not |
| `Layout.BandsNeverOverlap` | site/planner/src/lib/roadmap-layout.ts:325-365 | Top lane labels, bottom lane, timeline, dates, legend and signature: each band ends before the next begins, down to the bottom edge |
| `Layout.HeaderLinesKeepApartExactly` | site/planner/src/lib/roadmap-layout.ts:297-301 | Subtitle and title keep descender room exactly up to a text scale on a social canvas, where the distance is fixed, and always elsewhere |
| `Roadmap.HidingTitleNeverTallens` | site/planner/src/lib/roadmap-layout.ts:297-318 | As laid out: with the subtitle shown, hiding the title never makes the canvas taller |
| `Roadmap.HidingOnlyTitleLowersExactly` | site/planner/src/lib/roadmap-layout.ts:302-324 | As laid out, on any canvas: without the subtitle, hiding the title lowers no lane exactly while the margin is no more than the title band, or an exact-size canvas places the lanes lower still by proportion |
| `Roadmap.LabelsEndAboveTheNextBand` | site/planner/src/lib/roadmap-layout.ts:325-347 | As laid out and drawn: every node's top label ends above the lower lane's own label, and its bottom label above the timeline's |
| `Roadmap.LegendStaysInsideExactly` | site/planner/src/components/roadmap-canvas.tsx:338-367 | On a social canvas the legend never crosses the left margin, keeps off the right one exactly up to the stated length of its labels, and always with 57 characters in both |
| `Layout.ColumnsNeverCollide` | site/planner/src/lib/roadmap-layout.ts:383-400 | Right edge plus spacing is at most the next left edge, for any columns |
| `Layout.ColumnsStayInside` | site/planner/src/lib/roadmap-layout.ts:402-441 | Every column stands between the margins |
| `Layout.LastColumn` | site/planner/src/lib/roadmap-layout.ts:424-441 | The distributed gaps fill an exact-size canvas exactly and never overrun another |
| `Layout.BottomRowIsClear` | site/planner/src/lib/roadmap-layout.ts:404-423 | On a shared bottom row the legend ends 48 text units before the signature begins |
| `Layout.WiderSpacingNeverShrinks` | site/planner/src/lib/roadmap-layout.ts:378-441 | For fixed columns, node positions and width are monotone in the spacing |
| `Plates.IconsInsideExactly` | site/planner/src/components/roadmap-canvas.tsx:581-611 | Every point of every drawn icon lies on the plate, rounded ends and all, exactly under the stated condition on drawn size, group and plate width |
| `Plates.CornerDecides` | site/planner/src/components/roadmap-canvas.tsx:581-611 | All icons are on the plate exactly when the corner of the group is |
| `Plates.SmallIconsAreInside` | site/planner/src/components/roadmap-canvas.tsx:584-611 | Icons drawn at 57 or less are on the plate whatever its width |
| `Plates.SixtyStandsOut` | site/planner/src/components/roadmap-canvas.tsx:584-611 | One icon of 60 on a plate as wide as it needs stands out at the corners |
| `Plates.LargestIconStandsOut` | site/planner/src/lib/roadmap-model.ts:24-36 | The largest size the settings allow stands out of the plate, with one icon or several |
| `Measure.LabelStaysInReach` | site/planner/src/components/roadmap-canvas.tsx:693-725 | The label block, centred on a one-line label, stays below the plate and within the reach the engine keeps for it |
| `Measure.LabelIsCentred` | site/planner/src/components/roadmap-canvas.tsx:693-725 | The baselines of a label lie evenly about the single baseline, however many lines it prints |
| `Measure.MarkerStaysInReach` | site/planner/src/components/roadmap-canvas.tsx:512-556 | Glyph and text of a category marker keep apart and within the reach the engine clears for them |
| `Measure.LegendKeepsItsPartsApart` | site/planner/src/components/roadmap-canvas.tsx:338-367 | The first label ends before the second swatch, and the second label ends where the reserved width does |
| `Measure.SignatureStaysInRoom` | site/planner/src/components/roadmap-canvas.tsx:434-489 | The signature is exactly as wide as the room kept for it and its two lines are no taller than its mark |
| `Measure.ColumnHoldsItsPrintExactly` | site/planner/src/lib/roadmap-layout.ts:241-267 | A column holds its date and category, and the longest line of either label exactly unless that has more than 33 characters and nothing else in the column is as wide |
| `Wrapping.LongLineIsOneWord` | site/planner/src/lib/roadmap-layout.ts:214-223 | A printed line over the width is a single word |
| `Measure.MostLines` | site/planner/src/lib/roadmap-layout.ts:193-197 | No label of the lane prints more lines than the reach is computed for |
| `Measure.LabelTellsTheDate` | site/planner/src/lib/roadmap-model.ts:694-726 | The printed label spells the day, year or quarter of the node's date in the chosen order, or asks for a date exactly where there is none to tell |
| `Measure.LanesTurnOnTheDay` | site/planner/src/lib/roadmap-model.ts:618-636 | On real days the replacement is on top exactly once the exact day has come or every day of the period has passed; without a date never |
| `Measure.LanesTurnByTheString` | site/planner/src/lib/roadmap-model.ts:618-636 | An exact date that is merely shaped like one turns the lanes by the order of strings |
| `Wrapping.SplitLabel` | site/planner/src/lib/roadmap-layout.ts:205-226 | The nested loops print the greedy lines of each source line, blank ones included, cut at three |
| `Wrapping.SourceLinesLoseNothing` | site/planner/src/lib/roadmap-layout.ts:206-206 | The lines of a label, joined by newlines, are the label without the carriage returns that stand before one, and no line holds a newline |
| `Wrapping.TidyLabelPrintsAsWritten` | site/planner/src/lib/roadmap-layout.ts:205-226 | A label whose lines fit and are words one space apart prints as it is written, up to its third line |
| `Wrapping.WrapWords` | site/planner/src/lib/roadmap-layout.ts:214-223 | The inner loop, with its line being filled, prints exactly the greedy groups |
| `Wrapping.GreedyIsOptimal` | site/planner/src/lib/roadmap-layout.ts:214-223 | Greedy lines keep the words in order, lose none, hold one word or fit, and no other such division uses fewer lines |
| `Wrapping.WordsLoseNothing` | site/planner/src/lib/roadmap-layout.ts:209-209 | The words of a source line, run together, are the line without its white space |
| `Wrapping.WordsOfJoin` | site/planner/src/lib/roadmap-layout.ts:209-217 | Reading a printed line back gives the words it was made of |
| `Calendar.IsoDatesAreRealDays` | site/planner/src/lib/roadmap-model.ts:681-692 | The probe through Date.UTC accepts exactly the strings that name a real day of the years 0100 to 9999; which days those are, by the literal table, is `Calendar.IsoDatesByTheTable` |
| `Calendar.IsoDatesByTheTable` | site/planner/src/lib/roadmap-model.ts:682-692 | Accepted are exactly the strings shaped as dates with a year of 100 on, a month of the twelve and a day within the literal table, February by the leap rule |
| `Calendar.MonthStarts` | site/planner/src/lib/roadmap-model.ts:687-687 | The days before each month are the literal table of section 21.4.1 of ECMA-262, with the leap day from March on |
| `Calendar.DayNumberClosedForm` | site/planner/src/lib/roadmap-model.ts:687-687 | The number of a day is a closed form in its year, month and day that has neither a table of months nor a leap rule |
| `Calendar.StringOrderIsDayOrder` | site/planner/src/lib/roadmap-model.ts:618-655 | On such strings the code-unit order is the order of the days |
| `Calendar.DayFromYearClosedForm` | site/planner/src/lib/roadmap-model.ts:682-692 | Counting days year by year agrees with the closed form of section 21.4.1.3 of ECMA-262 |
| `Calendar.DayNumberInverse` | site/planner/src/lib/roadmap-model.ts:682-692 | Numbering a day and reading a day number back are inverse to each other |
| `Calendar.TomorrowIsSuccessor` | site/planner/src/lib/roadmap-model.ts:740-744 | One more on the day number is the next day of the calendar, across months, leap days and years |
| `Calendar.NextUTCDate` | site/planner/src/lib/roadmap-model.ts:740-744 | setUTCDate with the day plus one gives the following calendar day, whatever the month |
| `Calendar.LastDayOfMonth` | site/planner/src/lib/roadmap-model.ts:728-738 | Day zero of the month after is the last day of a month |
| `Calendar.ProbedPeriodEnd` | site/planner/src/lib/roadmap-model.ts:728-738 | The period end found through Date.UTC is the one the calendar gives: the quarter's last day, 31 December, or the date itself |
| `Calendar.NextDay` | site/planner/src/lib/roadmap-model.ts:740-744 | A Date that is set one day on prints as the calendar's next day, whose number is one more in the closed form of `Calendar.DayNumberClosedForm` |
| `Ordering.MigrationReachedOn` | site/planner/src/lib/roadmap-model.ts:618-624 | What is computed by way of Date.UTC and a Date set on is the day that `Ordering.ExactDateReachedFromThatDay` and `Ordering.PeriodReachedAfterLastDay` pin down |
| `Ordering.ExactDateReachedFromThatDay` | site/planner/src/lib/roadmap-model.ts:618-629 | An exact date is reached from that day on, by the calendar on real days and by the order of strings otherwise; without a date or a viewing date never |
| `Ordering.SetYearKeepsTheDayExactly` | site/planner/src/app/page.tsx:1371-1380 | A year set by hand leaves the node one that can be placed, in that year; its day exists exactly unless an exact 29 February moves to a common year |
| `Ordering.SetYearExactly` | site/planner/src/app/page.tsx:1371-1380 | The date becomes the same month and day of the year for an exact date and 1 January otherwise; precisions as stated, nothing else changes |
| `Calendar.DayAfterPeriodEnd` | site/planner/src/lib/roadmap-model.ts:728-744 | The day after a period end is the next quarter's first day, or the next 1 January |
| `Calendar.SuccessorBoundsPeriod` | site/planner/src/lib/roadmap-model.ts:618-624 | That day is the least one later than every day of the period |
| `Ordering.PeriodReachedAfterLastDay` | site/planner/src/lib/roadmap-model.ts:618-629 | A quarter or year counts as reached exactly when all its days lie before the viewing date, and this holds exactly unless the period ends on 9999-12-31 |
| `Ordering.ChronologicalIsTheStableSort` | site/planner/src/lib/roadmap-model.ts:638-655 | The row is the one permutation that ascends by reached day, undated nodes last, ties in array order |
| `Ordering.RowFollowsTheDays` | site/planner/src/lib/roadmap-model.ts:638-655 | The row rearranges the array: dated before undated, an earlier exact day before a later one, same days and undated nodes in array order |
| `Ordering.ReachedIsAPrefix` | site/planner/src/lib/roadmap-model.ts:638-655 | For every viewing date the reached nodes are exactly a prefix of the row |
| `Ordering.LaterViewExtendsPrefix` | site/planner/src/lib/roadmap-model.ts:626-655 | A later viewing date keeps what was reached and only extends the prefix |
| `Ordering.MoveSwapsOneNeighbour` | site/planner/src/app/page.tsx:424-444 | The earlier and later controls change nothing, or transpose the selected node with one neighbour of the row and leave every other place as it was |
| `Ordering.MoveThereAndBack` | site/planner/src/app/page.tsx:424-444 | A move followed by the opposite one restores the array |
| `Sorting.OrderingIsUnique` | site/planner/src/lib/roadmap-model.ts:643-655 | Two permutations that both ascend with ties in array order are one |
| `Sorting.SwapTransposesNeighbours` | site/planner/src/app/page.tsx:439-442 | Exchanging two tied neighbours in the array exchanges them in the sorted row |
| `Sorting.TargetIsNearest` | site/planner/src/app/page.tsx:431-438 | The target picked from the list of peers is the nearest peer on that side, and there is none exactly when no peer stands there |
| `Normalise.ValidateRoadmap` | site/planner/src/lib/roadmap-model.ts:775-936 | The whole validator computes the outcome that `Normalise.AcceptedExactly` and `Fields` give for every input: refused with the list of problems, or accepted with each field read from its property |
| `Normalise.FindProblems` | site/planner/src/lib/roadmap-model.ts:778-803 | The loop finds the errors in order; each is there exactly for its cause (`Normalise.ProblemsExactly`) |
| `Normalise.AcceptedExactly` | site/planner/src/lib/roadmap-model.ts:775-803 | For every input: accepted exactly if it is an object of schema version 1 whose migrations are a list of at most 60 objects with objects for source and replacement |
| `Normalise.ProblemsExactly` | site/planner/src/lib/roadmap-model.ts:778-803 | For every input and every problem: it is reported exactly when its cause is there |
| `Fields.WordsAreRead` | site/planner/src/lib/roadmap-model.ts:814-841 | Each word of header and labels is the first 200 characters of its own property, or its literal default |
| `Fields.ChoicesAreRead` | site/planner/src/lib/roadmap-model.ts:814-850 | Each flag and choice is what its own property says if that is one of the values there are, or its literal default; the viewing date is the given real day or today |
| `Fields.ColorsAreRead` | site/planner/src/lib/roadmap-model.ts:880-888 | Each color is its property without white space around it and in lower case, if that is a hash sign and six hexadecimal digits, or its literal default |
| `Fields.NumbersAreNearest` | site/planner/src/lib/roadmap-model.ts:888-934 | Each number of the layout is the nearest one in its literal range to the given one, or its literal default where none is given |
| `Fields.FilenameIsRead` | site/planner/src/lib/roadmap-model.ts:939-948 | The filename is the given one with unsafe characters as dashes, without leading dots and dashes, cut to 80, or `roadmap` where nothing is left |
| `Fields.NodesAreRead` | site/planner/src/lib/roadmap-model.ts:851-878 | Node by node: every field from its own property, the first six readable icons of each side, and the id kept by the first node that bears it |
| `Fields.KeptAreTheFirst` | site/planner/src/lib/roadmap-model.ts:1002-1018 | The kept icons are in order, all readable, and a readable one is left out only behind six |
| `Text.TrimIsOnly` | site/planner/src/lib/roadmap-model.ts:984-988 | There is one string without white space at its ends that remains when white space is taken off both, and trimming finds it |
| `Normalise.ReadNodes` | site/planner/src/lib/roadmap-model.ts:851-879 | The loop that grows the set of seen ids gives each node the id it keeps or a new one |
| `Normalise.Service` | site/planner/src/lib/roadmap-model.ts:996-1019 | The loop with its early exit keeps the first six readable icons |
| `Normalise.SafeFilenameIsFixed` | site/planner/src/lib/roadmap-model.ts:939-948 | A file name that was made safe is left as it is |
| `NormalForm.AcceptedIsLoose` | site/planner/src/lib/roadmap-model.ts:770-936 | An accepted document has unique ids that are not empty, at most 60 nodes, at most 6 icons a side, real or empty dates, capped texts and every layout number in range |
| `NormalForm.SecondPassCutsNames` | site/planner/src/lib/roadmap-model.ts:775-936 | Validating a normalised document again accepts it and changes nothing but to cut icon names at 200 |
| `NormalForm.CutIsNormal` | site/planner/src/lib/roadmap-model.ts:1004-1008 | Once the names are cut the document is in normal form, and a document in normal form is left alone by cutting |
| `NormalForm.SecondPassIsFixed` | site/planner/src/lib/roadmap-model.ts:775-936 | The output of a second pass is a fixed point for any input, any clock and any new ids |
| `NormalForm.NormalIsFixed` | site/planner/src/lib/roadmap-model.ts:775-936 | A document in normal form validates to itself |
| `NormalForm.WrittenIsAcceptedExactly` | site/planner/src/lib/roadmap-model.ts:778-803 | Any document whatever, once written, is accepted exactly while it has at most 60 nodes |
| `NormalForm.WrittenIsFixedExactly` | site/planner/src/lib/roadmap-model.ts:775-936 | It comes back as it was exactly when it is in normal form |
| `NormalForm.OnePassSuffices` | site/planner/src/lib/roadmap-model.ts:1004-1008 | One pass gives a fixed point exactly unless a kept icon has no name and an id over 200 |
| `Artwork.StripRehydratableArtwork` | site/planner/src/lib/share-link.ts:19-31 | The nested loops drop the artwork of dashboard icons and touch nothing else |
| `Artwork.ApplyIconArtwork` | site/planner/src/lib/icon-hydration.ts:51-65 | The loops with their changed flag return the hydrated document, or nothing exactly when it would be the same |
| `Artwork.HydrateKeepsTheRest` | site/planner/src/lib/icon-hydration.ts:51-65 | Embedding changes at most the artwork of a dashboard icon that has none |
| `Artwork.StripForgetsHydration` | site/planner/src/lib/share-link.ts:19-31 | Stripping removes whatever embedding may have added |
| `Artwork.FirstArtworkStays` | site/planner/src/lib/icon-hydration.ts:57-62 | Artwork that arrives later never replaces what is embedded: two rounds are one with the earlier map deciding |
| `Artwork.HydrationRestores` | site/planner/src/lib/icon-hydration.ts:51-65 | Embedding undoes the stripping exactly when the artwork agrees with the document's dashboard icons |
| `Artwork.RestorableExactly` | site/planner/src/lib/share-link.ts:16-31 | Some artwork restores a stripped document exactly when its dashboard icons of one id carry one artwork |
| `ShareLink.DecodeOfEncode` | site/planner/src/lib/share-link.ts:33-50 | A link of any normalised document opens as the stripped document with its icon names cut |
| `ShareLink.ShareRoundTrip` | site/planner/src/lib/share-link.ts:33-50 | A link of a document in normal form opens as the stripped document, and artwork makes it whole exactly when it agrees with it |
| `ShareLink.OpenedPlanIsLoose` | site/planner/src/lib/share-link.ts:38-50 | Whatever fragment is followed, the plan it opens meets every cap, range and uniqueness of an accepted document |
| `ShareLink.OpensExactly` | site/planner/src/lib/share-link.ts:38-50 | A fragment opens exactly if it starts with `#plan=`, the rest unpacks, and the value is of the one shape that is accepted |
| `ShareLink.SharedAgainIsTheSame` | site/planner/src/lib/share-link.ts:33-50 | Whoever opens a shared plan and shares it again hands on exactly what they got, whatever the day and the new ids |
| `Library.UniqueProjectName` | site/planner/src/lib/roadmap-library.ts:184-191 | The loop over the suffixes returns the first unused candidate, or the base |
| `Library.UniqueNameExactly` | site/planner/src/lib/roadmap-library.ts:184-191 | The name found is in use exactly when all 99 candidates are, so never with fewer than 99 names in use |
| `Records.UniqueNameIsLeast` | site/planner/src/lib/roadmap-library.ts:184-191 | The name found is the base, or its first free numbering from 2 on |
| `Records.CleanNameIs` | site/planner/src/lib/roadmap-library.ts:48-50 | A cleaned name is the first 48 characters of what is left between its white space, or `Untitled roadmap` for a blank one |
| `Library.CleanedNameStaysUnusedExactly` | site/planner/src/lib/roadmap-library.ts:48-50 | Cleaning the found name keeps it unused, whatever fewer than 99 names are in use, exactly for trimmed bases of one to 45 characters |
| `Library.UntrimmedCollision` | site/planner/src/lib/roadmap-library.ts:48-50 | A base that is empty or not trimmed, as a file name can be, has a name in use it runs into |
| `Library.CutCollision` | site/planner/src/lib/roadmap-library.ts:48-50 | For every longer base, names in use that the cut name runs into |
| `Library.AddedNameIsUnused` | site/planner/src/lib/roadmap-library.ts:174-191 | A plan forked or started under a trimmed base of at most 45 characters gets a name no other plan has |
| `Library.WithActiveDoc` | site/planner/src/lib/roadmap-library.ts:107-124 | Exactly the active plan gets the document, and the stamp when it was an edit |
| `Library.WithoutIsCut` | site/planner/src/lib/roadmap-library.ts:143-155 | Removing by id cuts exactly one place out of the list |
| `Refinement.RemovedParts` | site/planner/src/lib/roadmap-library.ts:143-155 | Deleting the open plan leaves the others in order and opens the one that takes its place, or the seed |
| `Library.WithoutExactly` | site/planner/src/lib/roadmap-library.ts:143-155 | Removing by id keeps exactly the plans of other ids |
| `Loading.ParseLibrary` | site/planner/src/lib/roadmap-library.ts:193-220 | The loop keeps what reads, in order, and opens the stored active plan where it is there |
| `Loading.ParsedLibraryExactly` | site/planner/src/lib/roadmap-library.ts:193-220 | A stored library opens on a plan it holds, marked plans are rebuilt from their template, and ids are unique exactly when no two kept entries share a stored id |
| `Loading.SharedIdLosesAPlan` | site/planner/src/lib/roadmap-library.ts:109-124 | With a shared id, writing the open plan back overwrites the other one too |
| `Loading.LoadedLibraryStartsTheEditor` | site/planner/src/app/page.tsx:148-177 | From a sound library with whatever marks, or none stored, the start has every mark kept, the example in the list, every stored plan, and a shared plan open as a plan of its own |
| `Loading.StartsWithExactly` | site/planner/src/lib/roadmap-library.ts:52-83 | The list is the example in front unless one is there, the stored plans or the seed, and a shared plan open at the end where there is room, each new one stamped and named as stated |
| `Loading.EntryIsReadExactly` | site/planner/src/lib/roadmap-library.ts:193-227 | A stored entry is dropped exactly if it is no object, or stands for no template and its document is refused; else id, name, stamp, mark and document as stated |
| `Loading.LibraryOpensExactly` | site/planner/src/lib/roadmap-library.ts:193-227 | A stored library opens exactly if some entry is kept, with the kept plans, on the plan of the stored active id or else on the first |
| `Loading.ParsedIsSound` | site/planner/src/lib/roadmap-library.ts:193-220 | With no shared id, what is read from storage is a sound library whose marks, of any template, all hold |
| `Loading.StoredExamplesStay` | site/planner/src/lib/roadmap-library.ts:59-83 | From whatever is stored, over every run that resets no example of another shape, each example stays as its template has it and the run is one of the plain editor |
| `Loading.StoredMarkIsOverwritten` | site/planner/src/app/page.tsx:798-808 | A store that fails it: for any template of the catalog whose shape is not the first one's, a stored mark of it, a reset and an autosave leave the first one's document under that mark |
| `Saving.SavedLibraryComesBack` | site/planner/src/lib/roadmap-library.ts:85-95 | Any saved library is read back plan by plan, in order: examples built anew, every other plan through the validator |
| `Saving.PlanSurvivesExactly` | site/planner/src/lib/roadmap-library.ts:193-220 | A saved plan is there after a reload, under its id, exactly when it is an example or has at most 60 nodes |
| `Saving.DocumentStaysExactly` | site/planner/src/lib/roadmap-library.ts:193-220 | The document of a plan that is no example comes back as it was exactly when it is in normal form |
| `Saving.SavedLibraryKeepsExactly` | site/planner/src/lib/roadmap-library.ts:193-220 | After a reload exactly the surviving plans are there, the open one is open again exactly when it survives, and a library without survivors is gone |
| `Saving.OneNodeTooMany` | site/planner/src/app/page.tsx:390-395 | A 61st node, which the editor allows, drops the plan at the next reload |
| `Saving.ReloadShowsWhatWasVisible` | site/planner/src/app/page.tsx:211-224 | After an autosave in time and a reload each plan shows what it showed: an example up to artwork and viewing date, any other one if its document is normal |
| `Saving.NormalLibraryIsStored` | site/planner/src/lib/roadmap-library.ts:85-95 | With clean names and normal documents a save and a reload give back the very library |
| `Editor.UndoRedoMoveTheCursor` | site/planner/src/app/page.tsx:298-322 | Undo and redo leave the line of documents unchanged, move the cursor by one where they can, and undo each other |
| `Editor.UndosThenRedos` | site/planner/src/app/page.tsx:298-322 | n undos and then n redos are the identity |
| `Editor.CommitAndEmbedOnTheLine` | site/planner/src/app/page.tsx:226-296 | A commit cuts the future and appends, and one undo shows the state before it; late artwork alters the cursor's entry alone. What further undos show is `Undoing.OneMoreUndo` |
| `Undoing.OneMoreUndo` | site/planner/src/app/page.tsx:285-322 | After an edit of a plan that is no example, undoing once more, up to 80 times, shows what undoing once less showed before it, and there is nothing to redo |
| `Undoing.EditsAreUndoneOneByOne` | site/planner/src/app/page.tsx:285-322 | After any number of edits, each of up to 80 undos shows the state one edit earlier, and past the first edit what undoing showed before |
| `Undoing.ResetIsUndone` | site/planner/src/app/page.tsx:798-808 | A reset shows the first template with today as its viewing date and keeps the whole way back |
| `Undoing.UndosShow` | site/planner/src/app/page.tsx:298-310 | j undos show the document j places before the present and leave the past before it |
| `Records.RenameWrites` | site/planner/src/lib/roadmap-library.ts:157-172 | The open plan gets its cleaned name and loses its mark; no other field and no other plan changes |
| `Records.ForkWrites` | site/planner/src/app/page.tsx:260-284 | The first edit of an example appends and opens one unmarked, stamped plan named `My roadmap` or its first free numbering; one undo shows the example |
| `Records.FullLibraryKeepsExamples` | site/planner/src/app/page.tsx:258-266 | An example is not edited exactly where 24 plans are kept |
| `Records.StartWrites` | site/planner/src/app/page.tsx:347-361 | A new plan is appended, stamped, unmarked and named; the open one is written back stamped; with 24 plans nothing changes |
| `Records.DeleteWrites` | site/planner/src/app/page.tsx:369-383 | The others stay as they are and the next plan opens, or the one before the last; the only one is followed by the marked example |
| `Records.OpenWrites` | site/planner/src/app/page.tsx:334-345 | The plan that is left is written back stamped, the other one opens with a clean history, and an unknown id changes nothing |
| `Records.AutosaveWrites` | site/planner/src/app/page.tsx:211-224 | A timely autosave stores its document and stamps a pending edit; a stale one changes nothing but the timers |
| `Records.PendingEditExactly` | site/planner/src/app/page.tsx:211-322 | After each step an edit is pending exactly as stated, step by step |
| `Editor.WriteBackIsInvisible` | site/planner/src/lib/roadmap-library.ts:107-124 | Writing the open document back changes no plan as the visitor sees it, and keeps the library sound |
| `Refinement.StepKeepsValid` | site/planner/src/app/page.tsx:209-388 | Every handler, timer and effect keeps ids unique, something open and new ids new, whatever plans are marked |
| `Refinement.CommitRefinesExactly` | site/planner/src/app/page.tsx:258-296 | An edit is an edit of the plain editor exactly unless it forks an example whose stored document has another shape than the one shown |
| `Refinement.OpenRefines` | site/planner/src/app/page.tsx:334-345 | Opening changes no plan and starts a clean history on the one opened |
| `Refinement.StartRefines` | site/planner/src/app/page.tsx:347-362 | Starting adds one plan to a library that is not full and changes no other |
| `Refinement.DeleteRefines` | site/planner/src/app/page.tsx:369-383 | Deleting removes the open plan alone and opens its neighbour |
| `Refinement.StepRefinesExactly` | site/planner/src/app/page.tsx:209-388 | Every step is a step of an editor without stored copies, write-backs and timers, exactly unless it is such a fork; a stale autosave is no step at all |
| `Marks.StepKeepsMarksExactly` | site/planner/src/app/page.tsx:209-388 | A step keeps every marked plan, its pending saves and its history in the shape of its template exactly unless it resets an open example whose template has another shape than the first |
| `Marks.KeptMarksForkPlainly` | site/planner/src/app/page.tsx:258-284 | Where marks are kept, no edit forks an example that was stored otherwise |
| `Marks.ForkLeavesTheRecords` | site/planner/src/lib/roadmap-library.ts:173-182 | A fork leaves every record of the library as it is, the example's too, and adds one unmarked plan under a name no other has |
| `Runs.RunKeepsValid` | site/planner/src/app/page.tsx:209-388 | Every run keeps the library sound and something open |
| `Runs.RunsGoOn` | site/planner/src/app/page.tsx:209-388 | No run gets stuck: any event that can arrive can be taken |
| `Runs.RunKeepsMarks` | site/planner/src/app/page.tsx:209-388 | Every run without such a reset keeps every mark |
| `Runs.ExampleIsNeverEdited` | site/planner/src/app/page.tsx:258-296 | In every state such a run reaches, a plan marked with any template has that template's document up to dashboard artwork and viewing date, through its whole history when open |
| `Runs.StarterMarksAreNeverSpoiled` | site/planner/src/app/page.tsx:798-808 | From a library that marks the first template alone, no run at all spoils a mark |
| `Runs.UnspoiledRunsForkPlainly` | site/planner/src/app/page.tsx:258-284 | A run without such a reset never forks an example that was stored otherwise |
| `Runs.RunRefines` | site/planner/src/app/page.tsx:209-388 | Every run without such a fork is a run of the plain editor |
| `Runs.SpoiledMarkIsStored` | site/planner/src/app/page.tsx:798-808 | Wherever a reset spoils a mark, the autosave after it stores the first template's document under the mark of the other |
| `Runs.StepLeavesOthersAlone` | site/planner/src/app/page.tsx:209-224 | A plain step changes no plan it is not aimed at |
| `Runs.RunLeavesOthersAlone` | site/planner/src/app/page.tsx:209-224 | Over any run with switches, stale timers, late artwork and whatever marks, a plan no edit is aimed at keeps its document |
| `Runs.OpeningShowsThePlan` | site/planner/src/app/page.tsx:334-345 | Opening shows exactly what is visible of the plan, with nothing to undo or redo |
| `Runs.AutosaveStoresWhatIsVisible` | site/planner/src/app/page.tsx:211-224 | An autosave in time leaves every stored document equal to the visible one and changes nothing that can be seen |
| `Runs.StepKeepsCapExactly` | site/planner/src/app/page.tsx:285-322 | From a history of at most 80 a step leaves that cap exactly when it is a reset at a full past, and then by one |
| `Runs.RunStaysInCapExactly` | site/planner/src/app/page.tsx:285-322 | Every state of a run that starts within the cap is within it exactly when no step resets at a full past |
| `Runs.EditsFillThePast` | site/planner/src/app/page.tsx:798-808 | Such a run exists: edits until the past is full, then a reset, leave 81 |
| `Runs.OpeningStampsThePlanLeft` | site/planner/src/app/page.tsx:336-340 | Opening stamps the plan that is left as edited just now, edited or not, and no other |
| `Runs.PendingEditStampsTheNextPlan` | site/planner/src/app/page.tsx:212-224 | The first autosave of a plan that was only opened stamps it exactly when an edit of the plan before was still pending |
| `EditorObject.PlannerEditor.constructor` | site/planner/src/app/page.tsx:170-177 | Any sound library opens on its active plan, with an empty history and nothing pending, whatever it has marked |
| `EditorObject.PlannerEditor.Commit` | site/planner/src/app/page.tsx:258-296 | The new fields are the step whose undo history `Undoing.EditsAreUndoneOneByOne` and whose fork `Records.ForkWrites` give, the invariant kept |
| `EditorObject.PlannerEditor.Undo` | site/planner/src/app/page.tsx:298-310 | The new fields are the specified step, the invariant kept |
| `EditorObject.PlannerEditor.Redo` | site/planner/src/app/page.tsx:311-322 | The new fields are the specified step, the invariant kept |
| `EditorObject.PlannerEditor.Open` | site/planner/src/app/page.tsx:334-345 | The new fields are the specified step, the invariant kept |
| `EditorObject.PlannerEditor.Start` | site/planner/src/app/page.tsx:347-362 | The new fields are the specified step, the invariant kept |
| `EditorObject.PlannerEditor.Delete` | site/planner/src/app/page.tsx:369-383 | The new fields are the specified step, the invariant kept |
| `EditorObject.PlannerEditor.Rename` | site/planner/src/app/page.tsx:385-388 | The new fields are the specified step, the invariant kept |
| `EditorObject.PlannerEditor.Reset` | site/planner/src/app/page.tsx:798-808 | The new fields are the specified step, the invariant kept |
| `EditorObject.PlannerEditor.Embed` | site/planner/src/app/page.tsx:226-244 | The new fields are the specified step, the invariant kept |
| `EditorObject.PlannerEditor.Schedule` | site/planner/src/app/page.tsx:211-224 | The new fields are the specified step, the invariant kept |
| `EditorObject.PlannerEditor.Cancel` | site/planner/src/app/page.tsx:223-224 | The new fields are the specified step, the invariant kept |
| `EditorObject.PlannerEditor.Autosave` | site/planner/src/app/page.tsx:213-222 | The new fields are the specified step, the invariant kept, also when the timer is stale |

## Left out

- Documents are values: the clone a recipe or a loop of the original mutates is a new value here, so aliasing between clone and original is not modelled.
- PathTo and Path build sequences of segments instead of an SVG path string; the printing of numbers is not modelled.
- PathsLeaveNoOtherGap: states nearness, not that a curve takes every abscissa between its ends, which needs the completeness of the reals.
- PathsBreakAtTheirPlates: states the exact path; for the rounded one see `LanePaths.PathBreaksAtItsPlates`, which asks for a margin that rounding keeps.
- PlannerEditor: save state, notices, selection, zoom and the renaming dialog are not fields.
- Host: `String(x)` and `Number(x)` of arbitrary JSON are arguments, not computed.
- Problem: validation errors are a datatype, not their wording.
- Template: `build()` is the template's document with the given day as its viewing date; the shipped documents are not spelled out beyond the defaults validation uses.
- `formatNodeDate` of a full date goes through `Intl`, but is never asked for one; the other labels are modelled.
- The library cap of 24 as an invariant of loading, which `ensureExample` may exceed.
- `setQuarter`, `setExactDate`, adding, duplicating and removing nodes, presets, and adding and removing icons: they are recipes, and the editor's results hold for every recipe.
- `resolveMissingIconArtwork`: the fetches and the record of failed ids; their result arrives as an arbitrary map.
- The internals of LZ-string, JSON text, `localStorage`, the clipboard and URL rewriting.
- SVG sanitising, export and rasterising, and the drawing of glyphs and images.
- The Suite Manager, its catalog and wording, and the backend and system agents.

# ScheduleSelector selection logic in Dafny

A model of the selection-draft logic of the `ScheduleSelector` React component
(react-schedule-selector). The component shows a grid of hourly time slots over
several days, and the user edits a selection of slots by dragging or tapping.
The model lifts that logic out of React into pure functions over integer
timestamps. The source exists twice, once as `src/lib/ScheduleSelector.js` and
once as its Babel output `dist/lib/ScheduleSelector.js`. The two behave the
same, and one model serves both.

- `Clock`: a time is an integer number of minutes, so the date library's
  same-minute test is `==`. `startOfDay`, `addDays` and `addHours` become
  arithmetic on 1440-minute days and 60-minute hours.
- `HourLabel`: `formatHour`, the 12-hour row label such as `"12am"` or `"3pm"`.
  JavaScript's sign-of-dividend `%` is written out, and so is the decimal
  printing of the template literal. A parser for labels is the formatter's
  checked inverse.
- `Grid`: the constructor's nested loop that builds `this.dates`, and the
  ordering facts about the grid it builds.
- `Schemes`: the handler table `selectionSchemeHandlers`. The `linear` and
  `square` geometries are arbitrary functions passed in as a `SchemeLibrary`.
  Nothing is assumed about what they return.
- `Draft`: merging a gesture's region into the committed selection. Add mode
  appends, and remove mode filters by equality.
- `Selector`: the component's state (`selectionDraft`, `selectionType`,
  `selectionStart`, `isTouchDragging`) and its transitions. A `Widget` value
  holds the props, the grid and the state. `setState` is an immediate update.
  A call of `onChange` becomes the `changed` field of a `Step`. A thrown
  `TypeError` becomes a `Failure`, or, for a touch move, the `thrown` field of
  a `Moved` beside the state the handler had already set.

## Behaviour of the source worth knowing

- **Tapping a cell.** The tap branch of `handleTouchEndEvent`
  (src/lib/ScheduleSelector.js:209-215) redrafts with a null end cell, so no
  scheme is called and the region is empty. The tap therefore commits the
  selection unchanged, although the comment there says the draft must now be
  updated. See `Selector.TapCommitsSelectionUnchanged`.
- **Idle touch end.** When no gesture is in progress, `updateAvailabilityDraft`
  returns at src/lib/ScheduleSelector.js:166 before its callback runs. A touch
  end that never moved then never calls `onChange`.
- **Add mode.** src/lib/ScheduleSelector.js:175 appends through a JavaScript
  `Set` of `Date` objects. That `Set` removes duplicates by object identity,
  not by value (see `Draft.MergeAdd` under "Left out").
- **The grid is built once.** `this.dates` is filled only in the constructor
  (src/lib/ScheduleSelector.js:81-90). `componentWillReceiveProps` replaces only
  the draft, so new `startDate`, `numDays`, `minTime` or `maxTime` props do not
  change the grid.
- **Grid ordering.** Nothing bounds `maxTime - minTime`. When a row spans
  less than 24 hours, the grid read day by day is strictly increasing
  (`Grid.FlattenedGridIncreases`). With two or more days the converse holds
  too: when a row spans 24 hours or more, consecutive days overlap
  (`Grid.DaysOverlapWhenRowsSpanADay`). With zero or one day the grid is a
  single row (or none), which is always increasing (`Grid.RowsIncrease`).
- **Unknown scheme name.** `selectionSchemeHandlers[name]` is undefined for any
  name other than "linear" and "square", and calling it throws a `TypeError`.
  The call happens only when an end cell is present. A throw inside
  `updateAvailabilityDraft` happens before its `setState`, so that call leaves
  the state as it was. `handleTouchMoveEvent` sets `isTouchDragging` before
  the call that can throw, so that flag stays set (see `Selector.TouchMove`).
- **Wiring of the cells.** Each cell binds `onResponderGrant` twice
  (src/lib/ScheduleSelector.js:274 and 278), and the later binding, to the
  touch-move handler, wins, so no rendered cell calls
  `handleSelectionStartEvent`. `handleTouchEndEvent` is bound in the
  constructor (line 105) but its `onTouchEnd` attachment is commented out
  (line 285). As shipped, the rendered cells therefore cannot start or end the
  gesture machine modelled here; the model describes the handlers themselves.

## Model

| member | source | states |
|---|---|---|
| `HourLabel.JsRemainder12` | src/lib/ScheduleSelector.js:15 | `hour % 12` as JavaScript computes it: the result lies strictly between -12 and 12, has the sign of the hour, and is congruent to the hour modulo 12 |
| `HourLabel.HourNumber` | src/lib/ScheduleSelector.js:15 | the printed number is JavaScript's `hour % 12` for every hour other than 0, 12 and 24, and congruent to the hour modulo 12 always; for hours 0..24 it lies in 1..12, and it is 12 exactly for hours 0, 12 and 24 |
| `HourLabel.Meridiem` | src/lib/ScheduleSelector.js:16 | the suffix is "am" exactly when the hour is before 12 or is 24, and "pm" otherwise; it is always two characters long |
| `HourLabel.NatToDecimal` | src/lib/ScheduleSelector.js:17 | decimal printing of a number: non-empty, digits only, a single digit exactly below 10, no leading zero |
| `HourLabel.IntToDecimal` | dist/lib/ScheduleSelector.js:54 | printing an integer: the natural-number form for non-negative values, and a minus sign followed by the digits of the magnitude for negative ones |
| `HourLabel.FormatHour` | src/lib/ScheduleSelector.js:14-18 | the label ends in "am" exactly when the hour is before 12 or is 24, and in "pm" otherwise; everything before the suffix is the printed hour number |
| `HourLabel.ParseHourLabel` | src/lib/ScheduleSelector.js:14-18 | reading a label back gives an hour of the day in 0..23, or nothing for text that is not a label |
| `HourLabel.DecimalRoundTrip` | dist/lib/ScheduleSelector.js:54 | reading a printed number gives back the number |
| `HourLabel.LabelRoundTrip` | dist/lib/ScheduleSelector.js:51-55 | every hour 0..23 is recovered from its label, so the labels of one day are pairwise distinct |
| `HourLabel.ParsedLabelIsFormatted` | src/lib/ScheduleSelector.js:14-18 | every label the parser accepts is exactly the label of the hour it returns |
| `HourLabel.EndOfDayLabelsAsMidnight` | dist/lib/ScheduleSelector.js:52-53 | hour 24 and hour 0 both print as "12am" |
| `Clock.StartOfDay` | src/lib/ScheduleSelector.js:81 | the start of the day is a whole-day boundary at or before the time, less than one day earlier |
| `Grid.BuildGrid` | src/lib/ScheduleSelector.js:81-90 | the grid has one row per day (none for a day count of zero or less); every row has `maxTime - minTime + 1` cells (none when `minTime > maxTime`); cell `[d][i]` is the start day plus `d` days plus `minTime + i` hours |
| `Grid.RowsIncrease` | dist/lib/ScheduleSelector.js:176-182 | within a day, cells strictly increase, and cells `i` and `j` are exactly `j - i` hours apart |
| `Grid.FlattenedGridIncreases` | src/lib/ScheduleSelector.js:84-90 | when each row spans less than 24 hours, the whole grid read row by row (day-major) is strictly increasing |
| `Grid.DaysOverlapWhenRowsSpanADay` | dist/lib/ScheduleSelector.js:176-182 | when a row spans 24 hours or more and there are at least two days, the grid read row by row is not strictly increasing, so the 24-hour bound is also necessary |
| `Schemes.HandlerFor` | dist/lib/ScheduleSelector.js:191-194 | the handler table has an entry for exactly the names "linear" and "square", each bound to its own scheme |
| `Draft.AppendNew` | src/lib/ScheduleSelector.js:175 | the existing sequence stays a prefix; the result contains exactly the elements of either input; each appended element comes from the region and was not present before |
| `Draft.MergeAdd` | src/lib/ScheduleSelector.js:174-175 | in add mode the selection is a prefix of the draft; the draft holds exactly the times of the selection and of the region; each time after the prefix is one the selection lacks, and appears only once |
| `Draft.MergeRemove` | src/lib/ScheduleSelector.js:176-177 | in remove mode the draft holds exactly the selected times that equal no region time; it is a subsequence of the selection (original order kept); an empty region leaves the selection unchanged |
| `Draft.MergeRemoveCounts` | dist/lib/ScheduleSelector.js:280-285 | remove mode keeps every occurrence of a time outside the region and none of a time inside it, so with the subsequence fact the filter result is fixed exactly |
| `Draft.Redraft` | src/lib/ScheduleSelector.js:173-178 | the draft is built from the committed selection: in add mode the selection is a prefix, followed by each missing region time once; in remove mode an order-keeping subsequence holding every occurrence of each selected time outside the region and none inside it; the selection itself when the region is empty |
| `Draft.AddThenRemove` | src/lib/ScheduleSelector.js:173-178 | removing a region after adding it gives the selection minus that region |
| `Draft.AddThenRemoveFromEmpty` | dist/lib/ScheduleSelector.js:277-286 | starting from an empty selection, adding a region and then removing it gives the empty selection |
| `Draft.AddTwice` | dist/lib/ScheduleSelector.js:278-279 | adding the same region twice equals adding it once |
| `Draft.RemoveTwice` | dist/lib/ScheduleSelector.js:280-285 | removing the same region twice equals removing it once |
| `Selector.DefaultProps` | dist/lib/ScheduleSelector.js:359-372 | by default the selection is empty, the scheme name resolves to the square handler, there are 7 days, and the hours run from 9 to 23, so 15 cells per day |
| `Selector.Construct` | dist/lib/ScheduleSelector.js:173-189 | the constructor builds the grid from the start of the start date's day; the draft starts as a copy of the selection, no gesture is in progress, and no touch is dragging |
| `Selector.ReceiveProps` | src/lib/ScheduleSelector.js:135-139 | new props reset the draft to exactly the new selection; the grid and the gesture fields are kept |
| `Selector.SelectionStart` | src/lib/ScheduleSelector.js:184-192 | starting a gesture records its start cell; the mode is remove exactly when the committed selection holds the start time and add otherwise; the draft and the touch flag are unchanged |
| `Selector.Region` | src/lib/ScheduleSelector.js:168-171 | with no end cell the region is empty; otherwise it is the named scheme's region, and the lookup fails exactly when the name is neither "linear" nor "square" |
| `Selector.UpdateDraft` | dist/lib/ScheduleSelector.js:264-289 | with no gesture in progress, nothing changes; it fails only for an unknown scheme with an end cell present; only the draft changes; with no end cell the draft becomes the selection; in add mode the selection is a prefix of the draft, the draft holds exactly the times of the selection and of the region, and each time after the prefix is one the selection lacks and appears only once; in remove mode the draft is an order-keeping subsequence of the selection that keeps every occurrence of each time outside the region and none inside it |
| `Selector.EndSelection` | src/lib/ScheduleSelector.js:154-160 | passes the current draft to `onChange` and ends the gesture; the draft and the touch flag are unchanged |
| `Selector.TouchMove` | src/lib/ScheduleSelector.js:194-206 | a touch move always leaves the touch marked as dragging, even when the redraft throws, and keeps the gesture; it throws exactly when there is a cell under the finger, a gesture is in progress and the scheme name is unknown; without a cell, or when it throws, the draft is unchanged; otherwise the draft is the redraft up to that cell |
| `Selector.TouchEnd` | dist/lib/ScheduleSelector.js:315-329 | the touch stops dragging and no gesture remains; whenever it commits, both the mode and the start cell are cleared; `onChange` is called exactly when the touch was dragging or a gesture was in progress; a drag commits the draft as it is; an unmoved touch during a gesture commits the committed selection unchanged and resets the draft to it; an unmoved touch with no gesture changes nothing |
| `Selector.UpdateIdempotent` | src/lib/ScheduleSelector.js:173 | redrafting twice with the same end cell equals redrafting once |
| `Selector.UpdateIgnoresPreviousDraft` | dist/lib/ScheduleSelector.js:277 | the redraft result does not depend on the previous draft |
| `Selector.TapCommitsSelectionUnchanged` | src/lib/ScheduleSelector.js:208-220 | a touch that starts a gesture and ends without moving commits the selection exactly as it was, and no gesture remains |
| `Selector.AddDragThenRemoveDrag` | src/lib/ScheduleSelector.js:154-192 | assuming the scheme names a known handler, the start cell is not selected, and the scheme's region from that cell contains the cell itself: an add drag that is committed and fed back as the selection, followed by a drag over the same cells (now a remove drag), commits the original selection minus the region; from an empty selection, it commits the empty selection |

## Left out

- Rendering: `renderTimeLabels`, `renderDateColumn`, `renderDateCellWrapper`, `renderDateCell`, `render` and both `typography.js` files are styled UI with no selection logic.
- DOM and React wiring: listener registration in `componentDidMount` and `componentWillUnmount`, `preventScroll`, and the responder props are left out. The responder props set `onResponderGrant` twice, so the later binding to the touch-move handler wins.
- The class declares `handleMouseUpEvent`, `handleMouseEnterEvent` and `documentMouseUpHandler` as field types, but the source never defines them, so there is nothing to model.
- Hit-testing: `getTimeFromTouchEvent` only logs and returns nothing. It is the `hit` parameter of `Selector.TouchMove`, which the source always leaves empty. The logging in `handleTouchMoveEvent` is also left out.
- Date library semantics: `startOfDay`, `addDays` and `addHours` use fixed 1440-minute days and 60-minute hours, with no time zones or daylight-saving shifts. Column headers from `formatDate` are not modelled. Times are whole minutes, so sub-minute parts are not modelled.
- The `selection-schemes` module is not part of this model. The linear and square geometries are arbitrary functions, and no property of them is claimed.
- Draft.MergeAdd: removes duplicates by value, and only among region times the selection does not already hold; the selection itself is kept verbatim. A JavaScript `Set` of `Date` objects removes only identical objects, so value-equal but distinct objects survive there, while a `Date` object that occurs twice in the selection keeps only its first occurrence. Membership (the draft holds exactly the selection's and the region's times) holds either way. The prefix fact holds in JavaScript only when the selection has no repeated object, and "each appended time once" only when equal region times are the same object.
- Selector.Region: treats every name other than "linear" and "square" as unknown. In JavaScript, a name inherited from the object prototype (for example "toString") would find a function that is not a scheme.
- JavaScript numbers: `numDays`, `minTime`, `maxTime` and hours are integers. Fractional values and floating-point timestamps are not modelled.
- React scheduling: `setState` is applied at once, and the `updateAvailabilityDraft` callback runs right after it. Batched or deferred updates are not modelled.

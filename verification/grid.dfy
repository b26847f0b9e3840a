/** The days-by-hours grid of selectable times that the component builds once,
    in its constructor: one row per day, one cell per hour from `minTime` to
    `maxTime` inclusive. */
module Grid {
  import opened Clock

  /** The time of the cell for hour `hour` on day `day` after `dayStart`. */
  function CellTime(dayStart: Time, day: int, hour: int): Time
  {
    AddHours(AddDays(dayStart, day), hour)
  }

  /** How many times the day loop runs for a day count of `numDays`. */
  function RowCount(numDays: int): nat
  {
    if numDays > 0 then numDays else 0
  }

  /** How many times the hour loop runs from `minTime` up to `maxTime`. */
  function RowLength(minTime: int, maxTime: int): nat
  {
    if minTime <= maxTime then maxTime - minTime + 1 else 0
  }

  /** `dates` is the grid for these parameters: `RowCount` rows of
      `RowLength` cells, cell `[d][i]` being hour `minTime + i` of day `d`. */
  ghost predicate IsScheduleGrid(dates: seq<seq<Time>>, dayStart: Time, numDays: int, minTime: int, maxTime: int)
  {
    && |dates| == RowCount(numDays)
    && (forall d :: 0 <= d < |dates| ==> |dates[d]| == RowLength(minTime, maxTime))
    && (forall d, i :: 0 <= d < |dates| && 0 <= i < |dates[d]| ==>
          dates[d][i] == CellTime(dayStart, d, minTime + i))
  }

  /** The constructor's nested loop building `this.dates`. */
  method BuildGrid(dayStart: Time, numDays: int, minTime: int, maxTime: int) returns (dates: seq<seq<Time>>)
    ensures IsScheduleGrid(dates, dayStart, numDays, minTime, maxTime)
  {
    dates := [];
    var d := 0;
    while d < numDays
      invariant 0 <= d == |dates|
      invariant d <= RowCount(numDays)
      invariant forall k :: 0 <= k < d ==> |dates[k]| == RowLength(minTime, maxTime)
      invariant forall k, i :: 0 <= k < d && 0 <= i < |dates[k]| ==>
                  dates[k][i] == CellTime(dayStart, k, minTime + i)
      decreases numDays - d
    {
      var currentDay := [];
      var h := minTime;
      while h <= maxTime
        invariant minTime <= h
        invariant minTime <= maxTime ==> h <= maxTime + 1
        invariant maxTime < minTime ==> h == minTime
        invariant |currentDay| == h - minTime
        invariant forall i :: 0 <= i < |currentDay| ==> currentDay[i] == CellTime(dayStart, d, minTime + i)
        decreases maxTime - h
      {
        currentDay := currentDay + [AddHours(AddDays(dayStart, d), h)];
        h := h + 1;
      }
      dates := dates + [currentDay];
      d := d + 1;
    }
  }

  /** Within one day the cells are strictly increasing, an hour apart. */
  lemma RowsIncrease(dates: seq<seq<Time>>, dayStart: Time, numDays: int, minTime: int, maxTime: int,
                     d: int, i: int, j: int)
    requires IsScheduleGrid(dates, dayStart, numDays, minTime, maxTime)
    requires 0 <= d < |dates| && 0 <= i < j < |dates[d]|
    ensures dates[d][j] - dates[d][i] == (j - i) * MinutesPerHour
    ensures dates[d][i] < dates[d][j]
  {
  }

  /** When a row spans a whole day or more and there are two days, the last
      cell of the first day is not before the first cell of the second, so the
      grid read row by row is not strictly increasing. */
  lemma DaysOverlapWhenRowsSpanADay(dates: seq<seq<Time>>, dayStart: Time, numDays: int, minTime: int, maxTime: int)
    requires IsScheduleGrid(dates, dayStart, numDays, minTime, maxTime)
    requires maxTime - minTime >= 24
    requires |dates| >= 2
    ensures !StrictlyIncreasing(Flatten(dates))
  {
    var last := |dates[0]| - 1;
    var all := Flatten(dates);
    assert dates[1..][0] == dates[1] && dates[1..][1..] == dates[2..];
    assert Flatten(dates[1..]) == dates[1] + Flatten(dates[2..]);
    assert all == dates[0] + (dates[1] + Flatten(dates[2..]));
    assert all[last] == dates[0][last];
    assert all[last + 1] == dates[1][0];
  }

  /** The grid read row by row, day-major. */
  function Flatten(dates: seq<seq<Time>>): seq<Time>
  {
    if dates == [] then [] else dates[0] + Flatten(dates[1..])
  }

  predicate StrictlyIncreasing(s: seq<Time>)
  {
    forall i, j :: 0 <= i < j < |s| ==> s[i] < s[j]
  }

  /** The grid without its first day is the grid that starts one day later. */
  lemma DropFirstDay(dates: seq<seq<Time>>, dayStart: Time, numDays: int, minTime: int, maxTime: int)
    requires IsScheduleGrid(dates, dayStart, numDays, minTime, maxTime)
    requires dates != []
    ensures IsScheduleGrid(dates[1..], AddDays(dayStart, 1), numDays - 1, minTime, maxTime)
  {
    forall d, i | 0 <= d < |dates[1..]| && 0 <= i < |dates[1..][d]|
      ensures dates[1..][d][i] == CellTime(AddDays(dayStart, 1), d, minTime + i)
    {
      assert dates[1..][d] == dates[d + 1];
    }
  }

  /** No cell of a grid lies before hour `minTime` of its first day. */
  lemma {:induction false} FlattenLowerBound(dates: seq<seq<Time>>, dayStart: Time, numDays: int, minTime: int, maxTime: int)
    requires IsScheduleGrid(dates, dayStart, numDays, minTime, maxTime)
    ensures forall k :: 0 <= k < |Flatten(dates)| ==> CellTime(dayStart, 0, minTime) <= Flatten(dates)[k]
    decreases |dates|
  {
    if dates != [] {
      DropFirstDay(dates, dayStart, numDays, minTime, maxTime);
      FlattenLowerBound(dates[1..], AddDays(dayStart, 1), numDays - 1, minTime, maxTime);
      var rest := Flatten(dates[1..]);
      forall k | 0 <= k < |Flatten(dates)|
        ensures CellTime(dayStart, 0, minTime) <= Flatten(dates)[k]
      {
        if k >= |dates[0]| {
          assert Flatten(dates)[k] == rest[k - |dates[0]|];
        }
      }
    }
  }

  /** When each row spans less than a whole day, the whole grid read row by
      row is strictly increasing, the ordering the grid is meant to have. */
  lemma {:induction false} FlattenedGridIncreases(dates: seq<seq<Time>>, dayStart: Time, numDays: int, minTime: int, maxTime: int)
    requires IsScheduleGrid(dates, dayStart, numDays, minTime, maxTime)
    requires maxTime - minTime < 24
    ensures StrictlyIncreasing(Flatten(dates))
    decreases |dates|
  {
    if dates != [] {
      DropFirstDay(dates, dayStart, numDays, minTime, maxTime);
      FlattenedGridIncreases(dates[1..], AddDays(dayStart, 1), numDays - 1, minTime, maxTime);
      FlattenLowerBound(dates[1..], AddDays(dayStart, 1), numDays - 1, minTime, maxTime);
      var row := dates[0];
      var rest := Flatten(dates[1..]);
      var all := Flatten(dates);
      assert all == row + rest;
      forall i, j | 0 <= i < j < |all|
        ensures all[i] < all[j]
      {
        if j < |row| {
          assert all[i] == row[i] && all[j] == row[j];
        } else if i >= |row| {
          assert all[i] == rest[i - |row|] && all[j] == rest[j - |row|];
        } else {
          assert all[i] == row[i] <= CellTime(dayStart, 0, maxTime);
          assert all[j] == rest[j - |row|];
        }
      }
    }
  }
}

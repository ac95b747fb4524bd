/**
 * Calendar navigation (src/lib/date-utils.ts): quarters of 13 weeks, the weeks of a
 * year, and stepping to the previous or next week across year boundaries.
 * The week count of a year is the parameter `weeksIn`. The source passes
 * `getISOWeeksInYear(new Date(y, 0, 1))`: the number of weeks (52 or 53) of the
 * ISO 8601 week-numbering year that holds 1 January of `y`, which is `y - 1` when
 * 1 January is a Friday, Saturday or Sunday. The last section models that count
 * (`JanFirstWeeks`) beside the week count of ISO year `y` itself (`IsoWeeksInYear`).
 */
module DateUtils {
  import opened Arith

  /** `{ year, weekNumber }`. */
  datatype YearWeek = YearWeek(year: int, weekNumber: int)

  /** Every ISO 8601 week-numbering year has 52 or 53 weeks. */
  ghost predicate IsoCalendar(weeksIn: int -> int)
  {
    forall y :: weeksIn(y) == 52 || weeksIn(y) == 53
  }

  /** `Array.from({ length: n }, (_, i) => first + i)`: a negative length gives no elements. */
  function Range(first: int, n: int): (r: seq<int>)
    ensures |r| == if n < 0 then 0 else n
    ensures forall i :: 0 <= i < |r| ==> r[i] == first + i
    ensures forall w :: w in r <==> first <= w < first + n
  {
    var r := seq(if n < 0 then 0 else n, i => first + i);
    forall w | first <= w < first + n ensures w in r {
      assert r[w - first] == w;
    }
    r
  }

  // ---------------------------------------------------------------------------
  // Quarters

  /** `getQuarterFromWeek`, as written: `Math.ceil(weekNumber / 13)`. */
  function QuarterFromWeek(weekNumber: int): (q: int)
    ensures 13 * (q - 1) < weekNumber <= 13 * q
  {
    CeilDiv(weekNumber, 13)
  }

  /** The first week of quarter `quarter`. */
  function QuarterStart(quarter: int): int
  {
    (quarter - 1) * 13 + 1
  }

  /** The last week of quarter `quarter`: the fourth quarter takes every remaining week. */
  function QuarterEnd(year: int, quarter: int, weeksIn: int -> int): int
  {
    if quarter == 4 then weeksIn(year) else if quarter * 13 < weeksIn(year) then quarter * 13 else weeksIn(year)
  }

  /** `getWeeksInQuarter`: the consecutive weeks from the quarter's start to its end. */
  function WeeksInQuarter(year: int, quarter: int, weeksIn: int -> int): (r: seq<int>)
    ensures forall i :: 0 <= i < |r| ==> r[i] == QuarterStart(quarter) + i
    ensures forall w :: w in r <==> QuarterStart(quarter) <= w <= QuarterEnd(year, quarter, weeksIn)
  {
    var first := QuarterStart(quarter);
    Range(first, QuarterEnd(year, quarter, weeksIn) - first + 1)
  }

  /** `getAllWeeksInYear`: weeks 1 to the year's week count. */
  function AllWeeksInYear(year: int, weeksIn: int -> int): (r: seq<int>)
    ensures forall i :: 0 <= i < |r| ==> r[i] == i + 1
    ensures forall w :: w in r <==> 1 <= w <= weeksIn(year)
  {
    Range(1, weeksIn(year))
  }

  /** Weeks 1-13 are quarter 1, 14-26 quarter 2, 27-39 quarter 3, 40-52 quarter 4, and week 53 is quarter 5. */
  lemma QuarterBands(weekNumber: int)
    requires 1 <= weekNumber <= 53
    ensures QuarterFromWeek(weekNumber) == (if weekNumber <= 13 then 1 else if weekNumber <= 26 then 2
      else if weekNumber <= 39 then 3 else if weekNumber <= 52 then 4 else 5)
  {
  }

  /** Two consecutive ranges make one. */
  lemma {:induction false} RangeConcat(first: int, m: nat, n: nat)
    ensures Range(first, m) + Range(first + m, n) == Range(first, m + n)
  {
    var a, b, c := Range(first, m), Range(first + m, n), Range(first, m + n);
    assert |a + b| == |c|;
    forall i | 0 <= i < |c| ensures (a + b)[i] == c[i] {
      if i < m {
        assert (a + b)[i] == a[i];
      } else {
        assert (a + b)[i] == b[i - m];
      }
    }
  }

  /** In a 52- or 53-week year the four quarters, in order, are exactly the weeks of the year. */
  lemma {:induction false} QuartersCoverYear(year: int, weeksIn: int -> int)
    requires weeksIn(year) == 52 || weeksIn(year) == 53
    ensures WeeksInQuarter(year, 1, weeksIn) + WeeksInQuarter(year, 2, weeksIn)
      + WeeksInQuarter(year, 3, weeksIn) + WeeksInQuarter(year, 4, weeksIn)
      == AllWeeksInYear(year, weeksIn)
  {
    var total := weeksIn(year);
    assert WeeksInQuarter(year, 1, weeksIn) == Range(1, 13);
    assert WeeksInQuarter(year, 2, weeksIn) == Range(14, 13);
    assert WeeksInQuarter(year, 3, weeksIn) == Range(27, 13);
    assert WeeksInQuarter(year, 4, weeksIn) == Range(40, total - 39);
    RangeConcat(1, 13, 13);
    RangeConcat(1, 26, 13);
    RangeConcat(1, 39, total - 39);
  }

  /** Every week of quarter 1-4 up to week 52 has that quarter as its quarter. */
  lemma QuarterOfItsWeeks(year: int, quarter: int, weeksIn: int -> int, w: int)
    requires 1 <= quarter <= 4 && w in WeeksInQuarter(year, quarter, weeksIn) && w <= 52
    ensures QuarterFromWeek(w) == quarter
  {
  }

  /** As written, week 53 lies in the fourth quarter's weeks but is given quarter 5. */
  lemma Week53OutsideItsQuarter(year: int, weeksIn: int -> int)
    requires weeksIn(year) == 53
    ensures 53 in WeeksInQuarter(year, 4, weeksIn) && QuarterFromWeek(53) == 5
  {
  }

  /** The quarter a week belongs to, with week 53 in the fourth quarter as `getWeeksInQuarter` has it. */
  function QuarterOfWeek(weekNumber: int): (q: int)
    ensures q <= 4
    ensures weekNumber <= 52 ==> q == QuarterFromWeek(weekNumber)
  {
    var q := QuarterFromWeek(weekNumber);
    if q > 4 then 4 else q
  }

  /** With the cap, every week of a quarter is mapped back to that quarter. */
  lemma QuarterOfWeekInverts(year: int, quarter: int, weeksIn: int -> int, w: int)
    requires IsoCalendar(weeksIn) && 1 <= quarter <= 4
    ensures w in WeeksInQuarter(year, quarter, weeksIn) <==> (QuarterOfWeek(w) == quarter && 1 <= w <= weeksIn(year))
  {
    assert weeksIn(year) == 52 || weeksIn(year) == 53;
  }

  // ---------------------------------------------------------------------------
  // Previous and next week

  /** `getPreviousWeek`: week 1 steps back to the last week of the previous year. */
  function PreviousWeek(year: int, weekNumber: int, weeksIn: int -> int): (r: YearWeek)
  {
    if weekNumber > 1 then YearWeek(year, weekNumber - 1)
    else YearWeek(year - 1, weeksIn(year - 1))
  }

  /** `getNextWeek`: the year's last week, or anything past it, steps to week 1 of the next year. */
  function NextWeek(year: int, weekNumber: int, weeksIn: int -> int): (r: YearWeek)
  {
    var lastWeekOfYear := weeksIn(year);
    if weekNumber < lastWeekOfYear then YearWeek(year, weekNumber + 1)
    else YearWeek(year + 1, 1)
  }

  /** A week that exists in its year. */
  predicate ValidWeek(p: YearWeek, weeksIn: int -> int)
  {
    1 <= p.weekNumber <= weeksIn(p.year)
  }

  /** Stepping keeps a valid week valid. */
  lemma StepsStayValid(p: YearWeek, weeksIn: int -> int)
    requires IsoCalendar(weeksIn) && ValidWeek(p, weeksIn)
    ensures ValidWeek(NextWeek(p.year, p.weekNumber, weeksIn), weeksIn)
    ensures ValidWeek(PreviousWeek(p.year, p.weekNumber, weeksIn), weeksIn)
  {
    assert weeksIn(p.year - 1) == 52 || weeksIn(p.year - 1) == 53;
    assert weeksIn(p.year + 1) == 52 || weeksIn(p.year + 1) == 53;
  }

  /** The previous week of the next week is the week itself, and the other way round. */
  lemma NextPreviousInverse(p: YearWeek, weeksIn: int -> int)
    requires IsoCalendar(weeksIn) && ValidWeek(p, weeksIn)
    ensures var n := NextWeek(p.year, p.weekNumber, weeksIn); PreviousWeek(n.year, n.weekNumber, weeksIn) == p
    ensures var b := PreviousWeek(p.year, p.weekNumber, weeksIn); NextWeek(b.year, b.weekNumber, weeksIn) == p
  {
    assert weeksIn(p.year) == 52 || weeksIn(p.year) == 53;
    assert weeksIn(p.year - 1) == 52 || weeksIn(p.year - 1) == 53;
  }

  /** The last week of a year is followed by week 1 of the next; week 1 is preceded by the last week of the previous year. */
  lemma YearBoundaries(year: int, weeksIn: int -> int)
    ensures NextWeek(year, weeksIn(year), weeksIn) == YearWeek(year + 1, 1)
    ensures PreviousWeek(year, 1, weeksIn) == YearWeek(year - 1, weeksIn(year - 1))
  {
  }

  // ---------------------------------------------------------------------------
  // The number of weeks of an ISO 8601 week-numbering year

  /** Days from 1 January of year 1 to 1 January of `y`, in the proleptic Gregorian calendar. */
  function DaysBefore(y: int): int
  {
    365 * (y - 1) + (y - 1) / 4 - (y - 1) / 100 + (y - 1) / 400
  }

  predicate IsLeap(y: int)
  {
    y % 4 == 0 && (y % 100 != 0 || y % 400 == 0)
  }

  /** The weekday of 1 January of `y`: 0 is Monday, 6 is Sunday (1 January of year 1 was a Monday). */
  function JanFirstWeekday(y: int): (d: int)
    ensures 0 <= d < 7
  {
    DaysBefore(y) % 7
  }

  /** Days from 1 January to the Monday of its ISO week 1: back to the Monday before, or on to the next Monday. */
  function Week1Offset(d: int): int
  {
    if d <= 3 then -d else 7 - d
  }

  /** The Monday that starts week 1 of ISO year `y`: the week that holds the year's first Thursday. */
  function Week1Monday(y: int): int
  {
    DaysBefore(y) + Week1Offset(JanFirstWeekday(y))
  }

  /** A calendar year has 365 days, or 366 in a leap year. */
  lemma YearLength(y: int)
    ensures DaysBefore(y + 1) - DaysBefore(y) == if IsLeap(y) then 366 else 365
  {
    Quarters(y);
    Centuries(y);
    QuadCenturies(y);
    Multiples(y);
  }

  /** Stepping from `y - 1` to `y` adds one to `y / 4` exactly in a multiple of 4; the same for 100 and 400. */
  lemma Quarters(y: int)
    ensures y / 4 - (y - 1) / 4 == if y % 4 == 0 then 1 else 0
  {
  }

  lemma Centuries(y: int)
    ensures y / 100 - (y - 1) / 100 == if y % 100 == 0 then 1 else 0
  {
  }

  lemma QuadCenturies(y: int)
    ensures y / 400 - (y - 1) / 400 == if y % 400 == 0 then 1 else 0
  {
  }

  lemma Multiples(y: int)
    ensures y % 400 == 0 ==> y % 100 == 0
    ensures y % 100 == 0 ==> y % 4 == 0
  {
  }

  lemma ModSeven(q: int, r: int)
    ensures (7 * q + r) % 7 == r % 7
  {
  }

  /** 1 January moves one weekday on after a common year and two after a leap year. */
  lemma NextJanFirst(y: int)
    ensures JanFirstWeekday(y + 1) == (JanFirstWeekday(y) + if IsLeap(y) then 2 else 1) % 7
  {
    YearLength(y);
    var k := if IsLeap(y) then 2 else 1;
    var q, d := DaysBefore(y) / 7, DaysBefore(y) % 7;
    assert DaysBefore(y + 1) == 7 * (q + 52) + (d + k);
    ModSeven(q + 52, d + k);
  }

  /** The weeks of ISO year `y`: 53 when 1 January is a Thursday, or a Wednesday in a leap year; else 52. */
  function IsoWeeksInYear(y: int): (r: int)
    ensures r == 52 || r == 53
    ensures 7 * r == Week1Monday(y + 1) - Week1Monday(y)
  {
    YearLength(y);
    NextJanFirst(y);
    var d := JanFirstWeekday(y);
    if d == 3 || (IsLeap(y) && d == 2) then 53 else 52
  }

  /** Every ISO year has 52 or 53 weeks. */
  lemma IsoWeeksCalendar()
    ensures IsoCalendar(IsoWeeksInYear)
  {
    forall y ensures IsoWeeksInYear(y) == 52 || IsoWeeksInYear(y) == 53 {
    }
  }

  /** The ISO year that 1 January of `y` belongs to: `y - 1` when it falls on a Friday, Saturday or Sunday. */
  function JanFirstIsoYear(y: int): (r: int)
    ensures Week1Monday(r) <= DaysBefore(y) < Week1Monday(r + 1)
    ensures r == y <==> JanFirstWeekday(y) <= 3
  {
    YearLength(y - 1);
    YearLength(y);
    if JanFirstWeekday(y) <= 3 then y else y - 1
  }

  /** `getISOWeeksInYear(new Date(y, 0, 1))`: the weeks of the ISO year that holds 1 January of `y`. */
  function JanFirstWeeks(y: int): (r: int)
    ensures r == 52 || r == 53
    ensures JanFirstWeekday(y) <= 3 ==> r == IsoWeeksInYear(y)
    ensures JanFirstWeekday(y) > 3 ==> r == IsoWeeksInYear(y - 1)
  {
    IsoWeeksInYear(JanFirstIsoYear(y))
  }

  /** 1 January 2021 is a Friday of ISO year 2020, which has 53 weeks, so week 52 of 2021 steps to a week 53. */
  lemma JanFirstWeeksStepPast2021()
    ensures JanFirstWeeks(2021) == 53 && IsoWeeksInYear(2021) == 52
    ensures NextWeek(2021, 52, JanFirstWeeks) == YearWeek(2021, 53)
    ensures NextWeek(2021, 52, IsoWeeksInYear) == YearWeek(2022, 1)
  {
    assert DaysBefore(2021) == 737790;
    assert JanFirstWeekday(2021) == 4;
    assert DaysBefore(2020) == 737424;
    assert JanFirstWeekday(2020) == 2 && IsLeap(2020);
  }
}

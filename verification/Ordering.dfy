/**
 * The day a switch is finished, and the row sorted by that day.
 */
module Ordering {
  import opened Text
  import opened Calendar
  import opened Document
  import opened Sorting

  // ------------------------------------------------------------- reached on

  /**
   * An exact date needs the shape of one, though no such day need exist; a quarter or a year
   * needs a period end that can be computed: see the unpadded year in PeriodEndDate.
   */
  predicate Placeable(m: Migration) {
    || m.date == ""
    || (m.datePrecision == ByDay && Shaped(m.date))
    || (RealDay(m.date) && 1000 <= Parse(m.date).year)
  }

  predicate AllPlaceable(ms: seq<Migration>) {
    forall m <- ms :: Placeable(m)
  }

  /** The string the row is sorted by; empty for an undated node. */
  function ReachedOn(m: Migration): string
    requires Placeable(m)
  {
    if m.date == "" then ""
    else if m.datePrecision == ByDay then m.date
    else DayAfter(PeriodEndDate(m.date, m.datePrecision))
  }

  /** migrationReachedOn as it is computed, by way of Date.UTC and a Date set to the next day. */
  method MigrationReachedOn(m: Migration) returns (s: string)
    requires Placeable(m)
    ensures s == ReachedOn(m)
  {
    if m.date == "" { return ""; }
    if m.datePrecision == ByDay { return m.date; }
    s := NextDay(ProbedPeriodEnd(m.date, m.datePrecision));
  }

  predicate IsReached(m: Migration, viewDate: string)
    requires Placeable(m)
  {
    ReachedBy(ReachedOn(m), viewDate)
  }

  /** A dated switch starts with a digit, or with a sign for the year after 9999. */
  lemma ReachedOnShape(m: Migration)
    requires Placeable(m)
    ensures m.date == "" <==> ReachedOn(m) == ""
    ensures m.date != "" ==> IsDigit(ReachedOn(m)[0]) || ReachedOn(m)[0] == '+'
  {
  }

  /**
   * A quarter or a year is reached exactly when every day of it lies before the viewing
   * date, unless the period ends on 31 December 9999: its successor prints with a sign,
   * sorts before every date and so counts as reached from the start.
   */
  lemma PeriodReachedAfterLastDay(m: Migration, viewDate: string)
    requires Placeable(m) && m.date != "" && m.datePrecision != ByDay
    requires RealDay(viewDate)
    ensures (IsReached(m, viewDate)
             <==> forall day :: InPeriod(day, Parse(m.date), m.datePrecision) ==> Earlier(day, Parse(viewDate)))
       <==> PeriodEndDate(m.date, m.datePrecision) != "9999-12-31"
  {
    var d, v := Parse(m.date), Parse(viewDate);
    var next := PeriodSuccessor(d, m.datePrecision);
    DayAfterPeriodEnd(m.date, m.datePrecision);
    assert ReachedOn(m) == IsoPrefix(next);
    SuccessorBoundsPeriod(d, m.datePrecision, v);
    LastPeriodOfAll(m.date, m.datePrecision);
    SuccessorAgainstView(next, viewDate);
  }

  /**
   * An exact date is reached from that day on: by the calendar where both dates are real
   * days, and otherwise as strings. An undated node is never reached, nor is any node without
   * a viewing date.
   */
  lemma ExactDateReachedFromThatDay(m: Migration, viewDate: string)
    requires Placeable(m)
    ensures m.date == "" || viewDate == "" ==> !IsReached(m, viewDate)
    ensures m.datePrecision == ByDay && m.date != "" && viewDate != "" ==> (IsReached(m, viewDate) <==> AtMost(m.date, viewDate))
    ensures m.datePrecision == ByDay && RealDay(m.date) && RealDay(viewDate)
       ==> (IsReached(m, viewDate) <==> !Earlier(Parse(viewDate), Parse(m.date)))
  {
    if m.datePrecision == ByDay && RealDay(m.date) && RealDay(viewDate) {
      StringOrderIsDayOrder(m.date, viewDate);
      DayNumberOrder(Parse(viewDate), Parse(m.date));
      hide Parse, RealDate, Earlier;
    }
  }

  lemma SuccessorAgainstView(next: Date, viewDate: string)
    requires RealDate(next) && 100 <= next.year <= 10000 && RealDay(viewDate)
    ensures RealDate(Parse(viewDate))
    ensures next.year == 10000 ==> ReachedBy(IsoPrefix(next), viewDate) && Earlier(Parse(viewDate), next)
    ensures next.year < 10000 ==> (ReachedBy(IsoPrefix(next), viewDate) <==> !Earlier(Parse(viewDate), next))
  {
    if next.year == 10000 {
      assert IsoPrefix(next)[0] == '+' < viewDate[0];
    } else {
      StringOrderIsDayOrder(Format(next), viewDate);
      DayNumberOrder(Parse(viewDate), next);
    }
  }

  lemma LastPeriodOfAll(date: string, precision: Precision)
    requires RealDay(date) && 1000 <= Parse(date).year && precision != ByDay
    ensures RealDate(Parse(date))
    ensures PeriodSuccessor(Parse(date), precision).year == 10000
       <==> PeriodEndDate(date, precision) == "9999-12-31"
  {
    var e := PeriodEnd(Parse(date), precision);
    PeriodEndIsLastDay(Parse(date), precision);
    LastDayPrints(e);
    hide FromDayNumber, UTC, Shaped, Parse, Format, PeriodSuccessor, DaysInMonth, QuarterEnd, PeriodEnd;
  }

  lemma LastDayPrints(d: Date)
    requires RealDate(d) && d.year <= 9999 && 0 <= d.year
    ensures Format(d) == "9999-12-31" <==> d == Date(9999, 12, 31)
  {
    assert Format(Date(9999, 12, 31)) == "9999-12-31";
    hide Pad2, Pair;
  }

  // ------------------------------------------------------------ a year by hand

  /** Four digits, for the years the control offers. */
  function FourDigits(year: int): (s: string)
    requires 1900 <= year <= 2200
    ensures |s| == 4 && IsDigit(s[0]) && IsDigit(s[1]) && IsDigit(s[2]) && IsDigit(s[3])
    ensures 100 * Pair(s[0], s[1]) + Pair(s[2], s[3]) == year
  {
    Format(Date(year, 1, 1))[..4]
  }

  /** setYear: an exact date keeps its month and day, any other one becomes the year. */
  function SetYear(m: Migration, year: int): Migration
    requires 1900 <= year <= 2200
    requires m.date != "" ==> Shaped(m.date)
  {
    var exact := m.datePrecision == ByDay;
    m.(date := FourDigits(year) + (if m.date != "" && exact then m.date[4..] else "-01-01"),
       datePrecision := if exact then ByDay else ByYear, displayPrecision := ByYear)
  }

  /** The node can still be placed; its day exists unless 29 February moves to a common year. */
  lemma SetYearKeepsTheDayExactly(m: Migration, year: int)
    requires 1900 <= year <= 2200 && Placeable(m)
    ensures var r := SetYear(m, year);
      && Placeable(r) && Shaped(r.date) && Parse(r.date).year == year
      && (m.date == "" || RealDay(m.date) ==>
           (RealDay(r.date) <==>
             !(m.datePrecision == ByDay && m.date != "" && Parse(m.date).month == 2 && Parse(m.date).day == 29 && !Leap(year))))
  {
    var r := SetYear(m, year);
    var y := FourDigits(year);
    assert forall k :: 0 <= k < 4 ==> r.date[k] == y[k];
    if m.date != "" && m.datePrecision == ByDay {
      assert forall k :: 4 <= k < 10 ==> r.date[k] == m.date[k];
    } else {
      assert r.date[4..] == "-01-01";
      assert forall k :: 4 <= k < 10 ==> r.date[k] == "-01-01"[k - 4];
    }
    hide FourDigits;
  }

  /** The node moves to the year and shows it; an exact date keeps its month and day, any other becomes the whole year. */
  lemma SetYearExactly(m: Migration, year: int)
    requires 1900 <= year <= 2200 && (m.date != "" ==> Shaped(m.date))
    ensures var r, exact := SetYear(m, year), m.datePrecision == ByDay;
      && r == m.(date := r.date, datePrecision := if exact then ByDay else ByYear, displayPrecision := ByYear)
      && Shaped(r.date)
      && Parse(r.date) == if exact && m.date != "" then Date(year, Parse(m.date).month, Parse(m.date).day) else Date(year, 1, 1)
  {
    var r, y := SetYear(m, year), FourDigits(year);
    hide FourDigits;
    assert forall k :: 0 <= k < 4 ==> r.date[k] == y[k];
    if m.date != "" && m.datePrecision == ByDay {
      assert forall k :: 4 <= k < 10 ==> r.date[k] == m.date[k];
    } else {
      assert r.date[4..] == "-01-01";
      assert forall k :: 4 <= k < 10 ==> r.date[k] == "-01-01"[k - 4];
    }
  }

  // -------------------------------------------------------- the stable sort

  function Keys(ms: seq<Migration>): (keys: seq<string>)
    requires AllPlaceable(ms)
    ensures |keys| == |ms|
    ensures forall i :: 0 <= i < |ms| ==> keys[i] == ReachedOn(ms[i])
  {
    seq(|ms|, i requires 0 <= i < |ms| => ReachedOn(ms[i]))
  }

  function Chronological(ms: seq<Migration>): (row: seq<Migration>)
    requires AllPlaceable(ms)
    ensures |row| == |ms| && AllPlaceable(row)
    ensures forall m <- row :: m in ms
  {
    Sorted(ms, Keys(ms))
  }

  lemma KeysOfRow(ms: seq<Migration>)
    requires AllPlaceable(ms)
    ensures Keys(Chronological(ms)) == Sorted(Keys(ms), Keys(ms))
  {
    hide ReachedOn;
    OrderIsOrdering(Keys(ms));
  }

  /**
   * The row is a permutation of the nodes, ascending by the day they are reached, undated
   * nodes last and ties in array order; and any order of the nodes with these properties
   * is this one.
   */
  lemma ChronologicalIsTheStableSort(ms: seq<Migration>, o: seq<nat>)
    requires AllPlaceable(ms)
    ensures IsOrdering(Keys(ms), Order(Keys(ms)))
    ensures IsOrdering(Keys(ms), o) ==> Chronological(ms) == Pick(ms, o)
  {
    hide ReachedOn;
    OrderIsOrdering(Keys(ms));
    if IsOrdering(Keys(ms), o) { OrderingIsUnique(Keys(ms), o, Order(Keys(ms))); }
  }

  /** In the row a stands before b, by their dates alone; i and j are their places in the array. */
  ghost predicate StandsBefore(a: Migration, i: nat, b: Migration, j: nat)
    requires Placeable(a) && Placeable(b)
  {
    && (a.date == "" ==> b.date == "" && i < j)
    && (a.date != "" && b.date != "" ==> AtMost(ReachedOn(a), ReachedOn(b)) && (ReachedOn(a) == ReachedOn(b) ==> i < j))
    && (a.datePrecision == ByDay == b.datePrecision && RealDay(a.date) && RealDay(b.date) ==>
          !Earlier(Parse(b.date), Parse(a.date)) && (a.date == b.date ==> i < j))
  }

  /**
   * The row rearranges the array: dated nodes before undated ones, an earlier exact day
   * before a later one, the day it is reached counting for a quarter or a year, and nodes of
   * the same day, like nodes without one, in array order.
   */
  lemma RowFollowsTheDays(ms: seq<Migration>) returns (o: seq<nat>)
    requires AllPlaceable(ms)
    ensures |o| == |ms| && (forall i: nat :: i < |ms| ==> i in o)
    ensures forall p :: 0 <= p < |o| ==> o[p] < |ms| && Chronological(ms)[p] == ms[o[p]]
    ensures forall p, q :: 0 <= p < q < |o| ==> StandsBefore(ms[o[p]], o[p], ms[o[q]], o[q])
  {
    hide ReachedOn, StandsBefore;
    o := Order(Keys(ms));
    OrderIsOrdering(Keys(ms));
    forall p, q | 0 <= p < q < |o| ensures StandsBefore(ms[o[p]], o[p], ms[o[q]], o[q]) {
      assert Before(Keys(ms), o[p], o[q]);
      BeforeByDates(ms, o[p], o[q]);
    }
  }

  lemma BeforeByDates(ms: seq<Migration>, i: nat, j: nat)
    requires AllPlaceable(ms) && i < |ms| && j < |ms| && i != j && Before(Keys(ms), i, j)
    ensures StandsBefore(ms[i], i, ms[j], j)
  {
    var a, b := ms[i], ms[j];
    hide Placeable;
    assert Keys(ms)[i] == ReachedOn(a) && Keys(ms)[j] == ReachedOn(b);
    ReachedOnShape(a); ReachedOnShape(b);
    AtMostTotal(ReachedOn(a), ReachedOn(b));
    if a.datePrecision == ByDay == b.datePrecision && RealDay(a.date) && RealDay(b.date) {
      assert ReachedOn(a) == a.date && ReachedOn(b) == b.date;
      StringOrderIsDayOrder(a.date, b.date);
      DayNumberOrder(Parse(b.date), Parse(a.date));
    }
    hide ReachedOn, Parse, RealDate, Earlier;
  }

  // ----------------------------------------------------- the finished prefix

  function ReachedCount(ms: seq<Migration>, viewDate: string): (n: nat)
    requires AllPlaceable(ms)
    ensures n <= |ms|
  {
    if ms == [] then 0
    else ReachedCount(ms[..|ms| - 1], viewDate) + if IsReached(ms[|ms| - 1], viewDate) then 1 else 0
  }

  lemma {:induction false} CountOfPrefix(row: seq<Migration>, viewDate: string)
    requires AllPlaceable(row)
    requires forall p, q :: 0 <= p <= q < |row| && IsReached(row[q], viewDate) ==> IsReached(row[p], viewDate)
    ensures forall p :: 0 <= p < |row| ==> (IsReached(row[p], viewDate) <==> p < ReachedCount(row, viewDate))
  {
    hide IsReached;
    if row != [] {
      var most := row[..|row| - 1];
      assert forall p :: 0 <= p < |most| ==> most[p] == row[p];
      CountOfPrefix(most, viewDate);
      var n := ReachedCount(most, viewDate);
      assert n < |most| ==> !IsReached(row[n], viewDate);
    }
  }

  /** The finished switches are exactly a prefix of the row, for every viewing date. */
  lemma ReachedIsAPrefix(ms: seq<Migration>, viewDate: string)
    requires AllPlaceable(ms)
    ensures var row := Chronological(ms);
      forall p :: 0 <= p < |row| ==> (IsReached(row[p], viewDate) <==> p < ReachedCount(row, viewDate))
  {
    hide ReachedOn;
    var row, keys := Chronological(ms), Keys(ms);
    KeysOfRow(ms);
    forall p, q | 0 <= p <= q < |row| && IsReached(row[q], viewDate) ensures IsReached(row[p], viewDate) {
      assert Keys(row)[q] == ReachedOn(row[q]) && Keys(row)[p] == ReachedOn(row[p]);
      ReachedGoesLeft(keys, viewDate, p, q);
    }
    CountOfPrefix(row, viewDate);
  }

  /** A later viewing date keeps what was finished and extends the prefix. */
  lemma LaterViewExtendsPrefix(ms: seq<Migration>, viewDate: string, later: string)
    requires AllPlaceable(ms) && AtMost(viewDate, later)
    ensures forall m <- ms :: IsReached(m, viewDate) ==> IsReached(m, later)
    ensures ReachedCount(Chronological(ms), viewDate) <= ReachedCount(Chronological(ms), later)
  {
    hide ReachedOn;
    forall m | Placeable(m) && IsReached(m, viewDate) ensures IsReached(m, later) {
      AtMostTransitive(ReachedOn(m), viewDate, later);
    }
    var row := Chronological(ms);
    ReachedIsAPrefix(ms, viewDate); ReachedIsAPrefix(ms, later);
    var n := ReachedCount(row, viewDate);
    if n > 0 { assert IsReached(row[n - 1], later); }
  }

  // -------------------------------------------------- earlier / later by hand

  /** The sort key, with an own one for each undated node. */
  function OrderKey(m: Migration): string
    requires Placeable(m)
  {
    if ReachedOn(m) != "" then ReachedOn(m) else "unset:" + m.id
  }

  function Ties(ms: seq<Migration>): (ties: seq<string>)
    requires AllPlaceable(ms)
    ensures |ties| == |ms|
    ensures forall i :: 0 <= i < |ms| ==> ties[i] == OrderKey(ms[i])
  {
    seq(|ms|, i requires 0 <= i < |ms| => OrderKey(ms[i]))
  }

  function IndexOf(ms: seq<Migration>, id: string): (i: int)
    ensures -1 <= i < |ms|
    ensures i >= 0 ==> ms[i].id == id && forall k :: 0 <= k < i ==> ms[k].id != id
    ensures i < 0 ==> forall k :: 0 <= k < |ms| ==> ms[k].id != id
  {
    if ms == [] then -1
    else if ms[0].id == id then 0
    else var r := IndexOf(ms[1..], id); if r < 0 then -1 else r + 1
  }

  /** moveSelectedWithinPeriod: the recipe behind the earlier and later controls. */
  function MoveWithinPeriod(ms: seq<Migration>, selected: string, d: Direction): (r: seq<Migration>)
    requires AllPlaceable(ms)
    ensures AllPlaceable(r)
  {
    hide Placeable;
    var i := IndexOf(ms, selected);
    if i < 0 then ms else Move(ms, Ties(ms), i, d)
  }

  lemma KeyOfUndated(m: Migration)
    requires Placeable(m)
    ensures ReachedOn(m) == "" ==> |OrderKey(m)| >= 6 && OrderKey(m)[0] == 'u' && OrderKey(m)[6..] == m.id
    ensures ReachedOn(m) != "" ==> OrderKey(m) == ReachedOn(m) && OrderKey(m)[0] != 'u'
  {
    ReachedOnShape(m);
  }

  /** Two different nodes are tied exactly through a common day. */
  lemma TiesAreCommonDays(ms: seq<Migration>)
    requires AllPlaceable(ms) && UniqueIds(ms)
    ensures TiesFollowKeys(Keys(ms), Ties(ms))
  {
    forall i, j | 0 <= i < j < |ms| ensures Ties(ms)[i] == Ties(ms)[j] <==> Keys(ms)[i] == Keys(ms)[j] != "" {
      hide ReachedOn, OrderKey, Placeable;
      KeyOfUndated(ms[i]); KeyOfUndated(ms[j]);
    }
  }

  lemma SwapOfPeers(ms: seq<Migration>, i: nat, j: nat)
    requires AllPlaceable(ms) && i < |ms| && j < |ms|
    requires Keys(ms)[i] == Keys(ms)[j] != ""
    ensures AllPlaceable(Swap(ms, i, j))
    ensures Keys(Swap(ms, i, j)) == Keys(ms) && Ties(Swap(ms, i, j)) == Ties(ms)
  {
    hide ReachedOn, Placeable;
  }

  /**
   * The earlier and later controls either find no peer on their side and change nothing, or
   * exchange the selected node with its nearest peer. In the row that is the exchange of two
   * neighbours, with every other node where it was.
   */
  lemma MoveSwapsOneNeighbour(ms: seq<Migration>, selected: string, d: Direction) returns (p: nat)
    requires AllPlaceable(ms) && UniqueIds(ms)
    ensures var i, r := IndexOf(ms, selected), MoveWithinPeriod(ms, selected, d);
      if i < 0 || (forall k: nat :: k < |ms| && OnSide(i, k, d) ==> Ties(ms)[k] != Ties(ms)[i]) then r == ms
      else && p + 1 < |ms|
           && Chronological(ms)[if d == Later then p else p + 1] == ms[i]
           && Chronological(r) == Swap(Chronological(ms), p, p + 1)
  {
    hide ReachedOn, OrderKey, Placeable, Target, Sorted, UniqueIds, IndexOf;
    p := 0;
    var i := IndexOf(ms, selected);
    if i >= 0 {
      TiesAreCommonDays(ms);
      TargetIsNearest(Ties(ms), i, d);
      if Target(Ties(ms), i, d).Some? {
        SwapOfPeers(ms, i, Target(Ties(ms), i, d).value);
        p := MoveTransposes(ms, Keys(ms), Ties(ms), i, d);
      }
    }
  }

  /** Earlier then later, or later then earlier, restores the array. */
  lemma MoveThereAndBack(ms: seq<Migration>, selected: string, d: Direction)
    requires AllPlaceable(ms) && UniqueIds(ms)
    ensures var r := MoveWithinPeriod(ms, selected, d);
      r != ms ==> MoveWithinPeriod(r, selected, Opposite(d)) == ms
  {
    hide ReachedOn, OrderKey, Placeable, Target;
    if MoveWithinPeriod(ms, selected, d) != ms { MoveBack(ms, selected, d); }
  }

  lemma MoveBack(ms: seq<Migration>, selected: string, d: Direction)
    requires AllPlaceable(ms) && UniqueIds(ms)
    requires IndexOf(ms, selected) >= 0 && Target(Ties(ms), IndexOf(ms, selected), d).Some?
    ensures MoveWithinPeriod(MoveWithinPeriod(ms, selected, d), selected, Opposite(d)) == ms
  {
    hide ReachedOn, OrderKey, Placeable, Target, IndexOf;
    var i := IndexOf(ms, selected);
    var j := Target(Ties(ms), i, d).value;
    TargetIsNearest(Ties(ms), i, d);
    TiesAreCommonDays(ms);
    SwapOfPeers(ms, i, j);
    var r := Swap(ms, i, j);
    TargetOfTarget(Ties(ms), i, d);
    assert IndexOf(r, selected) == j by {
      assert r[j].id == selected;
      assert forall k :: 0 <= k < |r| && k != j ==> r[k].id != selected;
    }
    assert Swap(r, j, i) == ms;
  }
}

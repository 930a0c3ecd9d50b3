/** The page (src/App.tsx): the edited ("temporary") and the applied filter
    settings, the rule that copies one to the other unless the date range is
    longer than 50 days, the default date range, and the filtering of the
    room and date axes by the applied settings. Dates are day numbers; an
    empty date field is `None`; `weekday` stands for `Date.getDay`. */
module App {
  import opened Common
  import opened SlotGrouping
  import opened MockData
  import opened FilterPanel

  /** The rooms of the page, in display order. */
  const Rooms: seq<string> := ["部屋1", "部屋2", "部屋3", "部屋4", "部屋5"]
  /** The rooms the user may book. */
  const ReservableRooms: seq<string> := ["部屋1", "部屋3", "部屋4"]
  /** Longest accepted distance, in days, between start and end date. */
  const MaxRangeDays: int := 50
  /** Index of the default end date in the generated date list. */
  const DefaultEndIndex: nat := 13

  /** The four filter values, edited and applied as a whole. */
  datatype FilterSettings = FilterSettings(
    showAvailableOnly: bool,
    startDate: Option<int>,
    endDate: Option<int>,
    selectedWeekdays: seq<int>)

  /** Initial settings: all rooms, no date bounds, every weekday. */
  const InitialSettings: FilterSettings := FilterSettings(false, None, None, AllWeekdays)

  /** A date passes when it is not before the start, not after the end (an
      unset bound imposes nothing) and its weekday is selected. */
  predicate KeepDate(d: int, f: FilterSettings, weekday: int -> int) {
    && (f.startDate.Some? ==> f.startDate.value <= d)
    && (f.endDate.Some? ==> d <= f.endDate.value)
    && weekday(d) in f.selectedWeekdays
  }

  /** The dates shown: those passing the filter, in their original order. */
  function FilteredDates(dates: seq<int>, f: FilterSettings, weekday: int -> int): (r: seq<int>)
    ensures IsSubsequence(r, dates)
    ensures forall d :: d in r <==> d in dates && KeepDate(d, f, weekday)
  {
    var keep := (d: int) => KeepDate(d, f, weekday);
    FilterIsSubsequence(dates, keep);
    Filter(dates, keep)
  }

  /** The rooms shown: all of them, or with "available only" exactly those
      that are reservable, in their original order and multiplicity. */
  function FilteredRooms(rooms: seq<string>, reservable: seq<string>, availableOnly: bool): (r: seq<string>)
    ensures !availableOnly ==> r == rooms
    ensures IsSubsequence(r, rooms)
    ensures forall x :: x in r <==> x in rooms && (!availableOnly || x in reservable)
    ensures forall x :: multiset(r)[x] == if !availableOnly || x in reservable then multiset(rooms)[x] else 0
  {
    if availableOnly then
      var keep := (room: string) => room in reservable;
      FilterIsSubsequence(rooms, keep);
      forall x ensures multiset(Filter(rooms, keep))[x] == if x in reservable then multiset(rooms)[x] else 0 {
        FilterCount(rooms, keep, x);
      }
      Filter(rooms, keep)
    else
      IsSubsequenceRefl(rooms);
      rooms
  }

  /** With no bounds and every date's weekday selected, nothing is filtered out. */
  lemma {:induction false} UnboundedFilterKeepsAll(dates: seq<int>, f: FilterSettings, weekday: int -> int)
    requires f.startDate.None? && f.endDate.None?
    requires forall d | d in dates :: weekday(d) in f.selectedWeekdays
    ensures FilteredDates(dates, f, weekday) == dates
  {
    FilterAll(dates, (d: int) => KeepDate(d, f, weekday));
  }

  /** Both dates are set and lie more than 50 days apart. */
  predicate RangeTooLong(f: FilterSettings) {
    f.startDate.Some? && f.endDate.Some? && f.endDate.value - f.startDate.value > MaxRangeDays
  }

  /** The applied settings after pressing "update": unchanged when the edited
      range is too long, otherwise all four edited values. */
  function ApplyFilters(temp: FilterSettings, applied: FilterSettings): FilterSettings {
    if RangeTooLong(temp) then applied else temp
  }

  /** Applying never lets a too-long range through, and applying the same
      edited values again changes nothing. */
  lemma {:induction false} ApplyKeepsRangeBounded(temp: FilterSettings, applied: FilterSettings)
    requires !RangeTooLong(applied)
    ensures !RangeTooLong(ApplyFilters(temp, applied))
    ensures ApplyFilters(temp, ApplyFilters(temp, applied)) == ApplyFilters(temp, applied)
    ensures ApplyFilters(temp, applied) == temp || ApplyFilters(temp, applied) == applied
  {
  }

  /** The default range: the first generated date up to the fourteenth (unset
      when there is no fourteenth). */
  function WithDefaultRange(f: FilterSettings, dates: seq<int>): (r: FilterSettings)
    requires |dates| > 0
    ensures r.startDate == Some(dates[0])
    ensures r.showAvailableOnly == f.showAvailableOnly && r.selectedWeekdays == f.selectedWeekdays
  {
    f.(startDate := Some(dates[0]), endDate := if |dates| > DefaultEndIndex then Some(dates[DefaultEndIndex]) else None)
  }

  /** For the generated dates the default range spans thirteen days, well
      within the limit. */
  lemma {:induction false} DefaultRangeWithinLimit(f: FilterSettings, today: int)
    ensures var r := WithDefaultRange(f, DayRange(today, DaysGenerated));
      r.endDate == Some(today + 13) && !RangeTooLong(r)
  {
  }

  /** The `n` whole numbers from `lo` on. */
  function Interval(lo: int, n: nat): (r: set<int>)
    ensures |r| == n
    ensures forall x :: x in r <==> lo <= x < lo + n
  {
    if n == 0 then {} else Interval(lo, n - 1) + {lo + n - 1}
  }

  /** Distinct whole numbers inside an interval of `n` numbers are at most `n`. */
  lemma {:induction false} DistinctWithinInterval(r: seq<int>, lo: int, n: nat)
    requires NoDup(r)
    requires forall x | x in r :: lo <= x < lo + n
    ensures |r| <= n
  {
    NoDupCard(r);
    var elems := set x | x in r;
    assert elems <= Interval(lo, n);
    SubsetCard(elems, Interval(lo, n));
  }

  lemma {:induction false} SubsetCard(a: set<int>, b: set<int>)
    requires a <= b
    ensures |a| <= |b|
  {
    assert b == a + (b - a);
  }

  lemma {:induction false} NoDupCard(r: seq<int>)
    requires NoDup(r)
    ensures |set x | x in r| == |r|
    decreases |r|
  {
    if r != [] {
      var tail := r[1..];
      assert NoDup(tail) by {
        forall i, j | 0 <= i < j < |tail| ensures tail[i] != tail[j] {
          assert tail[i] == r[i + 1] && tail[j] == r[j + 1];
        }
      }
      NoDupCard(tail);
      assert r[0] !in tail by {
        forall k | 0 <= k < |tail| ensures tail[k] != r[0] {
          assert tail[k] == r[k + 1];
        }
      }
      assert r == [r[0]] + tail;
      assert (set x | x in r) == {r[0]} + (set x | x in tail);
    }
  }

  /** When both bounds are set and accepted, the dates shown from a list
      without repeats lie within 50 days of the start, so at most 51 of them
      are shown. */
  lemma {:induction false} ShownDatesBounded(dates: seq<int>, f: FilterSettings, weekday: int -> int)
    requires NoDup(dates)
    requires f.startDate.Some? && f.endDate.Some? && !RangeTooLong(f)
    ensures forall d | d in FilteredDates(dates, f, weekday) ::
      f.startDate.value <= d <= f.startDate.value + MaxRangeDays
    ensures |FilteredDates(dates, f, weekday)| <= MaxRangeDays + 1
  {
    var r := FilteredDates(dates, f, weekday);
    FilterPreservesNoDup(dates, (d: int) => KeepDate(d, f, weekday));
    DistinctWithinInterval(r, f.startDate.value, MaxRangeDays + 1);
  }

  /** The page's state: the generated data and the filter settings. */
  class AppPage {
    const rooms: seq<string>
    const reservableRooms: seq<string>
    const dates: seq<int>
    const data: map<string, map<int, seq<TimeSlot>>>
    const today: int
    var temp: FilterSettings
    var applied: FilterSettings
    var isTransposed: bool

    /** The rooms and dates are the generated ones and the applied range is
        never longer than the limit. */
    predicate Valid()
      reads this
    {
      && rooms == Rooms && reservableRooms == ReservableRooms
      && dates == DayRange(today, DaysGenerated) && !RangeTooLong(applied)
    }

    /** First render: the data is generated and every filter is at its
        initial value. */
    constructor(today: int, rand: (string, int, nat) -> real)
      ensures Valid()
      ensures this.today == today
      ensures IsMockTable(data, Rooms, dates, rand)
      ensures temp == InitialSettings && applied == InitialSettings && !isTransposed
    {
      var generatedDates := GenerateDates(today);
      var generated := GenerateData(Rooms, generatedDates, rand);
      this.today := today;
      rooms := Rooms;
      reservableRooms := ReservableRooms;
      dates := generatedDates;
      data := generated;
      temp := InitialSettings;
      applied := InitialSettings;
      isTransposed := false;
    }

    /** The default-range effect, run after each render in which the edited
        start date changed: with no start date, both ranges are set to the
        default, which also happens when the user clears the start date. */
    method ApplyDefaultRange()
      requires Valid()
      modifies this
      ensures Valid()
      ensures old(temp).startDate.None? ==>
        temp == WithDefaultRange(old(temp), dates) && applied == WithDefaultRange(old(applied), dates)
      ensures old(temp).startDate.Some? ==> temp == old(temp) && applied == old(applied)
      ensures isTransposed == old(isTransposed)
    {
      if temp.startDate.None? && |dates| > 0 {
        var end := if |dates| > DefaultEndIndex then Some(dates[DefaultEndIndex]) else None;
        temp := temp.(startDate := Some(dates[0]), endDate := end);
        applied := applied.(startDate := Some(dates[0]), endDate := end);
        DefaultRangeWithinLimit(old(applied), today);
      }
    }

    /** The "update" button: rejected (the alert) when the edited range is too
        long, otherwise the edited settings become the applied ones. */
    method HandleApplyFilters() returns (alerted: bool)
      requires Valid()
      modifies this
      ensures Valid()
      ensures alerted <==> RangeTooLong(old(temp))
      ensures applied == ApplyFilters(old(temp), old(applied))
      ensures temp == old(temp) && isTransposed == old(isTransposed)
    {
      if temp.startDate.Some? && temp.endDate.Some? {
        var diffDays := temp.endDate.value - temp.startDate.value;
        if diffDays > MaxRangeDays {
          alerted := true;
          return;
        }
      }
      alerted := false;
      applied := temp;
    }

    method SetTempShowAvailableOnly(value: bool)
      modifies this
      ensures temp == old(temp).(showAvailableOnly := value)
      ensures applied == old(applied) && isTransposed == old(isTransposed)
    {
      temp := temp.(showAvailableOnly := value);
    }

    method SetTempStartDate(value: Option<int>)
      modifies this
      ensures temp == old(temp).(startDate := value)
      ensures applied == old(applied) && isTransposed == old(isTransposed)
    {
      temp := temp.(startDate := value);
    }

    method SetTempEndDate(value: Option<int>)
      modifies this
      ensures temp == old(temp).(endDate := value)
      ensures applied == old(applied) && isTransposed == old(isTransposed)
    {
      temp := temp.(endDate := value);
    }

    /** A weekday checkbox in the panel. */
    method ToggleWeekday(v: int)
      modifies this
      ensures temp == old(temp).(selectedWeekdays := WeekdayToggle(old(temp).selectedWeekdays, v))
      ensures applied == old(applied) && isTransposed == old(isTransposed)
    {
      temp := temp.(selectedWeekdays := WeekdayToggle(temp.selectedWeekdays, v));
    }

    /** The transpose button; it takes effect at once, without "update". */
    method ToggleTransposed()
      modifies this
      ensures isTransposed == TransposeToggle(old(isTransposed))
      ensures temp == old(temp) && applied == old(applied)
    {
      isTransposed := TransposeToggle(isTransposed);
    }

    /** The rooms and dates the grid shows. */
    function ShownRooms(): seq<string>
      reads this
    {
      FilteredRooms(rooms, reservableRooms, applied.showAvailableOnly)
    }

    function ShownDates(weekday: int -> int): seq<int>
      reads this
    {
      FilteredDates(dates, applied, weekday)
    }
  }

  /** In a valid page with both applied bounds set, at most 51 date columns
      are shown. */
  lemma {:induction false} PageShowsBoundedDates(page: AppPage, weekday: int -> int)
    requires page.Valid()
    requires page.applied.startDate.Some? && page.applied.endDate.Some?
    ensures |page.ShownDates(weekday)| <= MaxRangeDays + 1
  {
    var dates := page.dates;
    assert NoDup(dates);
    ShownDatesBounded(dates, page.applied, weekday);
  }

  /** However the filters are set, a valid page shows at most the fourteen
      generated dates. */
  lemma {:induction false} PageShowsAtMostGeneratedDates(page: AppPage, weekday: int -> int)
    requires page.Valid()
    ensures |page.ShownDates(weekday)| <= DaysGenerated
  {
    var f := page.applied;
    var keep := (d: int) => KeepDate(d, f, weekday);
    assert page.ShownDates(weekday) == Filter(page.dates, keep);
  }

  /** On a valid page, "available only" shows exactly rooms 1, 3 and 4, in
      that order; otherwise all five rooms are shown. */
  lemma {:induction false} PageShownRooms(page: AppPage)
    requires page.Valid()
    ensures page.applied.showAvailableOnly ==> page.ShownRooms() == ["部屋1", "部屋3", "部屋4"]
    ensures !page.applied.showAvailableOnly ==> page.ShownRooms() == Rooms
  {
    if page.applied.showAvailableOnly {
      var keep := (room: string) => room in ReservableRooms;
      var rooms := Rooms;
      assert rooms[1..][1..][1..][1..][1..] == [];
      assert Filter(rooms[1..][1..][1..][1..], keep) == [];
      assert Filter(rooms[1..][1..][1..], keep) == ["部屋4"];
      assert Filter(rooms[1..][1..], keep) == ["部屋3", "部屋4"];
      assert Filter(rooms[1..], keep) == ["部屋3", "部屋4"];
      assert Filter(rooms, keep) == ["部屋1", "部屋3", "部屋4"];
      assert page.ShownRooms() == Filter(rooms, keep);
    }
  }
}

/** The page's generated sample data (src/App.tsx): fourteen dates from
    today, and for every room and date thirteen hourly slots from 8:00 to
    21:00 whose status comes from a random draw. Dates are day numbers, and
    the draws are an input: `rand(room, date, i)` is the value `Math.random`
    returned for slot `i` of that cell. */
module MockData {
  import opened Common
  import opened SlotGrouping

  /** Slots per cell. */
  const SlotsPerDay: nat := 13
  /** Hour at which the first slot starts. */
  const FirstHour: nat := 8
  /** Number of dates generated, starting today. */
  const DaysGenerated: nat := 14

  function DigitChar(d: nat): char
    requires d < 10
  {
    "0123456789"[d]
  }

  function DigitValue(c: char): nat {
    if '0' <= c <= '9' then (c - '0') as nat else 0
  }

  /** Decimal notation of `n` without leading zeros, as a template literal
      prints a number. */
  function NatToString(n: nat): (r: string)
    ensures |r| >= 1
    ensures forall c | c in r :: '0' <= c <= '9'
    decreases n
  {
    if n < 10 then [DigitChar(n)] else NatToString(n / 10) + [DigitChar(n % 10)]
  }

  /** Reads a string of decimal digits back as a number. */
  function ParseNat(s: string): nat
    decreases |s|
  {
    if s == [] then 0 else ParseNat(s[..|s| - 1]) * 10 + DigitValue(s[|s| - 1])
  }

  /** The decimal notation reads back as the number it was printed from. */
  lemma {:induction false} ParseNatToString(n: nat)
    ensures ParseNat(NatToString(n)) == n
    decreases n
  {
    var s := NatToString(n);
    if n < 10 {
      assert s[..0] == [];
    } else {
      ParseNatToString(n / 10);
      assert s[..|s| - 1] == NatToString(n / 10);
    }
  }

  /** The label `${h}:00` of a whole hour. */
  function HourLabel(h: nat): string {
    NatToString(h) + ":00"
  }

  /** Different hours get different labels. */
  lemma {:induction false} HourLabelInjective(h1: nat, h2: nat)
    requires HourLabel(h1) == HourLabel(h2)
    ensures h1 == h2
  {
    var l1, l2 := HourLabel(h1), HourLabel(h2);
    assert NatToString(h1) == l1[..|l1| - 3];
    assert NatToString(h2) == l2[..|l2| - 3];
    ParseNatToString(h1);
    ParseNatToString(h2);
  }

  /** The status picked by a draw in [0, 1): half of the range is free,
      three tenths are booked by someone else, the rest by the user. */
  function StatusForDraw(rand: real): Status {
    if rand < 0.5 then Available
    else if rand < 0.8 then ReservedOthers
    else ReservedSelf
  }

  /** The detail text paired with each status. */
  function DetailFor(status: Status): string {
    match status
    case Available => "予約可能です"
    case ReservedOthers => "山田太郎さんが予約中"
    case ReservedSelf => "あなたの予約"
  }

  /** The detail texts tell the statuses apart. */
  lemma {:induction false} DetailDeterminesStatus(s1: Status, s2: Status)
    requires DetailFor(s1) == DetailFor(s2)
    ensures s1 == s2
  {
    assert DetailFor(Available)[0] == '予';
    assert DetailFor(ReservedOthers)[0] == '山';
    assert DetailFor(ReservedSelf)[0] == 'あ';
  }

  /** Slot `i` of a cell. */
  function MockSlot(i: nat, rand: real): (slot: TimeSlot)
    ensures slot.detail == DetailFor(slot.status)
    ensures slot.status == Available <==> rand < 0.5
    ensures slot.status == ReservedSelf <==> 0.8 <= rand
  {
    var status := StatusForDraw(rand);
    TimeSlot(i, status, HourLabel(FirstHour + i), HourLabel(FirstHour + i + 1), DetailFor(status))
  }

  /** The slot list of one cell, as a value. */
  function MockCell(room: string, date: int, rand: (string, int, nat) -> real): seq<TimeSlot> {
    seq(SlotsPerDay, i requires 0 <= i => MockSlot(i, rand(room, date, i)))
  }

  /** The inner loop: thirteen slots pushed one by one. */
  method GenerateTimeSlots(room: string, date: int, rand: (string, int, nat) -> real)
    returns (timeSlots: seq<TimeSlot>)
    ensures timeSlots == MockCell(room, date, rand)
  {
    timeSlots := [];
    for i := 0 to SlotsPerDay
      invariant |timeSlots| == i
      invariant forall k | 0 <= k < i :: timeSlots[k] == MockSlot(k, rand(room, date, k))
    {
      var r := rand(room, date, i);
      var status := Available;
      var detail := "";
      if r < 0.5 {
        status := Available;
        detail := "予約可能です";
      } else if r < 0.8 {
        status := ReservedOthers;
        detail := "山田太郎さんが予約中";
      } else {
        status := ReservedSelf;
        detail := "あなたの予約";
      }
      timeSlots := timeSlots + [TimeSlot(i, status, HourLabel(FirstHour + i), HourLabel(FirstHour + i + 1), detail)];
    }
  }

  /** Every generated cell has thirteen slots with ids 0..12, hourly from
      8:00, each ending where the next starts, with pairwise different start
      times and the detail that belongs to its status. */
  lemma {:induction false} MockCellShape(room: string, date: int, rand: (string, int, nat) -> real)
    ensures var cell := MockCell(room, date, rand);
      && |cell| == SlotsPerDay
      && (forall i | 0 <= i < |cell| :: cell[i].id == i
            && cell[i].startTime == HourLabel(FirstHour + i)
            && cell[i].detail == DetailFor(cell[i].status))
      && Contiguous(cell)
      && cell[|cell| - 1].endTime == HourLabel(FirstHour + SlotsPerDay)
      && (forall i, j | 0 <= i < j < |cell| :: cell[i].startTime != cell[j].startTime)
  {
    var cell := MockCell(room, date, rand);
    forall i | 0 <= i < |cell|
      ensures cell[i] == MockSlot(i, rand(room, date, i))
      ensures cell[i].startTime == HourLabel(FirstHour + i)
      ensures cell[i].endTime == HourLabel(FirstHour + i + 1)
    {
    }
    forall i, j | 0 <= i < j < |cell| ensures cell[i].startTime != cell[j].startTime {
      if cell[i].startTime == cell[j].startTime {
        HourLabelInjective(FirstHour + i, FirstHour + j);
      }
    }
  }

  /** Grouping a generated cell gives segments that run from 8:00 to 21:00
      without gaps, each with the detail of its own status. */
  lemma {:induction false} MockGroupsShape(room: string, date: int, rand: (string, int, nat) -> real)
    ensures var groups := Grouped(MockCell(room, date, rand));
      && groups != []
      && groups[0].startTime == HourLabel(FirstHour)
      && groups[|groups| - 1].endTime == HourLabel(FirstHour + SlotsPerDay)
      && (forall k | 0 <= k < |groups| - 1 :: groups[k].endTime == groups[k + 1].startTime)
      && (forall k | 0 <= k < |groups| :: groups[k].detail == DetailFor(groups[k].status))
  {
    var cell := MockCell(room, date, rand);
    MockCellShape(room, date, rand);
    TimelineGroups(cell, HourLabel(FirstHour), HourLabel(FirstHour + SlotsPerDay));
  }

  /** The grouping facts for a nonempty, contiguous list whose details match
      its statuses, running from `start` to `end`. */
  lemma {:induction false} TimelineGroups(cell: seq<TimeSlot>, start: string, end: string)
    requires cell != [] && Contiguous(cell)
    requires cell[0].startTime == start && cell[|cell| - 1].endTime == end
    requires forall i | 0 <= i < |cell| :: cell[i].detail == DetailFor(cell[i].status)
    ensures var groups := Grouped(cell);
      && groups != []
      && groups[0].startTime == start
      && groups[|groups| - 1].endTime == end
      && (forall k | 0 <= k < |groups| - 1 :: groups[k].endTime == groups[k + 1].startTime)
      && (forall k | 0 <= k < |groups| :: groups[k].detail == DetailFor(groups[k].status))
  {
    GroupsTileTimeline(cell);
    GroupsKeepDetails(cell);
  }

  /** When every slot carries its status's detail, so does every group. */
  lemma {:induction false} GroupsKeepDetails(slots: seq<TimeSlot>)
    requires forall i | 0 <= i < |slots| :: slots[i].detail == DetailFor(slots[i].status)
    ensures forall k | 0 <= k < |Grouped(slots)| :: Grouped(slots)[k].detail == DetailFor(Grouped(slots)[k].status)
  {
    var groups := Grouped(slots);
    GroupedIsRunEncoding(slots);
    forall k | 0 <= k < |groups| ensures groups[k].detail == DetailFor(groups[k].status) {
      var a := StartOf(groups, k);
      assert CoversRun(slots, groups[k], a);
      assert slots[a].status == groups[k].status;
    }
  }

  /** Consecutive day numbers from `start`. */
  function DayRange(start: int, n: nat): (r: seq<int>)
    ensures |r| == n
  {
    seq(n, i requires 0 <= i => start + i)
  }

  /** The date loop: today and the thirteen days after it. */
  method GenerateDates(today: int) returns (dates: seq<int>)
    ensures dates == DayRange(today, DaysGenerated)
  {
    dates := [];
    for i := 0 to DaysGenerated
      invariant dates == DayRange(today, i)
    {
      dates := dates + [today + i];
    }
  }

  /** The generated dates are distinct and the last is thirteen days after
      the first. */
  lemma {:induction false} GeneratedDatesShape(today: int)
    ensures var dates := DayRange(today, DaysGenerated);
      && dates[0] == today
      && dates[DaysGenerated - 1] - dates[0] == DaysGenerated - 1
      && NoDup(dates)
      && forall i | 0 <= i < |dates| - 1 :: dates[i + 1] == dates[i] + 1
  {
  }

  /** The generated table: for each room a map from date to its slots. */
  predicate IsMockTable(data: map<string, map<int, seq<TimeSlot>>>, rooms: seq<string>, dates: seq<int>,
                        rand: (string, int, nat) -> real)
  {
    && data.Keys == set room | room in rooms
    && forall room | room in data ::
         && data[room].Keys == (set d | d in dates)
         && forall d | d in data[room] :: data[room][d] == MockCell(room, d, rand)
  }

  /** The nested room and date loops filling the table. */
  method GenerateData(rooms: seq<string>, dates: seq<int>, rand: (string, int, nat) -> real)
    returns (data: map<string, map<int, seq<TimeSlot>>>)
    ensures IsMockTable(data, rooms, dates, rand)
  {
    data := map[];
    for r := 0 to |rooms|
      invariant data.Keys == set room | room in rooms[..r]
      invariant forall room | room in data ::
        && data[room].Keys == (set d | d in dates)
        && forall d | d in data[room] :: data[room][d] == MockCell(room, d, rand)
    {
      var room := rooms[r];
      var cells: map<int, seq<TimeSlot>> := map[];
      for j := 0 to |dates|
        invariant cells.Keys == set d | d in dates[..j]
        invariant forall d | d in cells :: cells[d] == MockCell(room, d, rand)
      {
        var timeSlots := GenerateTimeSlots(room, dates[j], rand);
        cells := cells[dates[j] := timeSlots];
        assert dates[..j + 1] == dates[..j] + [dates[j]];
      }
      assert dates[..|dates|] == dates;
      data := data[room := cells];
      assert rooms[..r + 1] == rooms[..r] + [room];
    }
    assert rooms[..|rooms|] == rooms;
  }
}

/** The time-slot cell's grouping of adjacent slots that share a status
    (src/components/TimeSlotCell.tsx), and the status labels it displays. */
module SlotGrouping {
  import opened Common

  /** Reservation state of one slot. */
  datatype Status = Available | ReservedOthers | ReservedSelf

  /** One fixed-length interval of a room on a date. */
  datatype TimeSlot = TimeSlot(id: int, status: Status, startTime: string, endTime: string, detail: string)

  /** A maximal run of adjacent slots with one status, drawn as one segment. */
  datatype SlotGroup = SlotGroup(
    status: Status,
    startTime: string,
    endTime: string,
    detail: string,
    slotCount: nat,
    firstSlotId: int)

  /** The group a slot opens: everything from the slot, one member. */
  function Open(slot: TimeSlot): SlotGroup {
    SlotGroup(slot.status, slot.startTime, slot.endTime, slot.detail, 1, slot.id)
  }

  /** A group with one more slot appended at its end. */
  function Extend(g: SlotGroup, slot: TimeSlot): SlotGroup {
    g.(endTime := slot.endTime, slotCount := g.slotCount + 1)
  }

  /** Reference definition of the grouping, one slot at a time from the left:
      the last slot either joins the last group (same status) or opens a new one. */
  function Grouped(slots: seq<TimeSlot>): (groups: seq<SlotGroup>)
    ensures |groups| <= |slots|
    ensures groups == [] <==> slots == []
    ensures slots != [] ==> groups[|groups| - 1].status == slots[|slots| - 1].status
    ensures slots != [] ==> groups[|groups| - 1].endTime == slots[|slots| - 1].endTime
  {
    if slots == [] then []
    else
      var prev := Grouped(slots[..|slots| - 1]);
      var slot := slots[|slots| - 1];
      if prev != [] && prev[|prev| - 1].status == slot.status then
        prev[..|prev| - 1] + [Extend(prev[|prev| - 1], slot)]
      else
        prev + [Open(slot)]
  }

  /** The `groupedSlots` fold: a single pass with an open accumulator that is
      extended while the status stays the same and pushed when it changes. */
  method GroupSlots(timeSlots: seq<TimeSlot>) returns (groups: seq<SlotGroup>)
    ensures groups == Grouped(timeSlots)
  {
    groups := [];
    var currentGroup: Option<SlotGroup> := None;
    for i := 0 to |timeSlots|
      invariant currentGroup.None? <==> i == 0
      invariant currentGroup.None? ==> groups == []
      invariant currentGroup.Some? ==> groups + [currentGroup.value] == Grouped(timeSlots[..i])
    {
      var slot := timeSlots[i];
      assert timeSlots[..i + 1][..i] == timeSlots[..i];
      if currentGroup.None? || currentGroup.value.status != slot.status {
        if currentGroup.Some? {
          groups := groups + [currentGroup.value];
        }
        currentGroup := Some(Open(slot));
      } else {
        currentGroup := Some(Extend(currentGroup.value, slot));
      }
    }
    if currentGroup.Some? {
      groups := groups + [currentGroup.value];
    }
    assert timeSlots[..|timeSlots|] == timeSlots;
  }

  /** Sum of `slotCount` over a list of groups. */
  function TotalSlots(groups: seq<SlotGroup>): nat {
    if groups == [] then 0
    else TotalSlots(groups[..|groups| - 1]) + groups[|groups| - 1].slotCount
  }

  /** Group `g` stands for the run of slots starting at index `a`: it has at
      least one member, all members carry its status, and its start, detail and
      id come from the run's first slot and its end from the run's last slot. */
  predicate CoversRun(slots: seq<TimeSlot>, g: SlotGroup, a: nat) {
    && 1 <= g.slotCount
    && a + g.slotCount <= |slots|
    && g.startTime == slots[a].startTime
    && g.detail == slots[a].detail
    && g.firstSlotId == slots[a].id
    && g.endTime == slots[a + g.slotCount - 1].endTime
    && forall j | a <= j < a + g.slotCount :: slots[j].status == g.status
  }

  /** `groups` is a run-length encoding of `slots`: the groups partition the
      slots in order (group k covers the slots after those of groups 0..k-1,
      and together they cover all of them), and adjacent groups differ in
      status, so every run is maximal. */
  predicate IsRunEncoding(slots: seq<TimeSlot>, groups: seq<SlotGroup>) {
    && TotalSlots(groups) == |slots|
    && CoversInOrder(slots, groups)
    && StatusesAlternate(groups)
  }

  /** Index of the first slot of group k: the slots of groups 0..k-1 come before it. */
  function StartOf(groups: seq<SlotGroup>, k: nat): nat
    requires k <= |groups|
  {
    TotalSlots(groups[..k])
  }

  /** Group k is the run that starts right after the slots of groups 0..k-1. */
  predicate CoversInOrder(slots: seq<TimeSlot>, groups: seq<SlotGroup>) {
    forall k {:trigger StartOf(groups, k)} | 0 <= k < |groups| :: CoversRun(slots, groups[k], StartOf(groups, k))
  }

  /** Adjacent groups never share a status. */
  predicate StatusesAlternate(groups: seq<SlotGroup>) {
    forall k | 0 < k < |groups| :: groups[k - 1].status != groups[k].status
  }

  lemma {:induction false} TotalSlotsSnoc(groups: seq<SlotGroup>, g: SlotGroup)
    ensures TotalSlots(groups + [g]) == TotalSlots(groups) + g.slotCount
  {
    assert (groups + [g])[..|groups|] == groups;
  }

  lemma {:induction false} TotalSlotsPrefix(groups: seq<SlotGroup>, k: nat, m: nat)
    requires k < m <= |groups|
    ensures TotalSlots(groups[..k]) + groups[k].slotCount <= TotalSlots(groups[..m])
    decreases m - k
  {
    assert groups[..k + 1] == groups[..k] + [groups[k]];
    TotalSlotsSnoc(groups[..k], groups[k]);
    if k + 1 < m {
      TotalSlotsPrefix(groups, k + 1, m);
    }
  }

  /** A run inside `s` is still the same run inside `s + [x]`. */
  lemma {:induction false} CoversRunSnoc(s: seq<TimeSlot>, x: TimeSlot, g: SlotGroup, a: nat)
    requires CoversRun(s, g, a)
    ensures CoversRun(s + [x], g, a)
  {
    var t := s + [x];
    forall j | a <= j < a + g.slotCount ensures t[j].status == g.status {
      assert t[j] == s[j];
    }
  }

  /** A run that ends before the last slot of `s` is the same run in `s` without it. */
  lemma {:induction false} CoversRunTrim(s: seq<TimeSlot>, g: SlotGroup, a: nat)
    requires CoversRun(s, g, a) && a + g.slotCount < |s|
    ensures CoversRun(s[..|s| - 1], g, a)
  {
    var t := s[..|s| - 1];
    forall j | a <= j < a + g.slotCount ensures t[j].status == g.status {
      assert t[j] == s[j];
    }
  }

  lemma {:induction false} CoversInOrderAppend(slots: seq<TimeSlot>, groups: seq<SlotGroup>, g: SlotGroup)
    requires CoversInOrder(slots, groups) && CoversRun(slots, g, TotalSlots(groups))
    ensures CoversInOrder(slots, groups + [g])
  {
    var res := groups + [g];
    forall k | 0 <= k < |res| ensures CoversRun(slots, res[k], StartOf(res, k)) {
      if k < |groups| {
        assert res[..k] == groups[..k] && res[k] == groups[k];
        assert CoversRun(slots, groups[k], StartOf(groups, k));
      } else {
        assert res[..k] == groups;
      }
    }
  }

  lemma {:induction false} CoversInOrderPrefix(slots: seq<TimeSlot>, groups: seq<SlotGroup>, m: nat)
    requires CoversInOrder(slots, groups) && m <= |groups|
    ensures CoversInOrder(slots, groups[..m])
  {
    var res := groups[..m];
    forall k | 0 <= k < m ensures CoversRun(slots, res[k], StartOf(res, k)) {
      assert res[..k] == groups[..k] && res[k] == groups[k];
      assert CoversRun(slots, groups[k], StartOf(groups, k));
    }
  }

  lemma {:induction false} CoversInOrderSnoc(s: seq<TimeSlot>, x: TimeSlot, groups: seq<SlotGroup>)
    requires CoversInOrder(s, groups)
    ensures CoversInOrder(s + [x], groups)
  {
    forall k | 0 <= k < |groups| ensures CoversRun(s + [x], groups[k], StartOf(groups, k)) {
      CoversRunSnoc(s, x, groups[k], StartOf(groups, k));
    }
  }

  lemma {:induction false} StatusesAlternateAppend(groups: seq<SlotGroup>, g: SlotGroup)
    requires StatusesAlternate(groups)
    requires groups != [] ==> groups[|groups| - 1].status != g.status
    ensures StatusesAlternate(groups + [g])
  {
    var res := groups + [g];
    forall k | 0 < k < |res| ensures res[k - 1].status != res[k].status {
      assert res[k - 1] == groups[k - 1];
      if k < |groups| { assert res[k] == groups[k]; }
    }
  }

  /** An encoding splits into the encoding of all but its last group and that
      last group, which covers the final slots. */
  lemma {:induction false} SplitLast(slots: seq<TimeSlot>, groups: seq<SlotGroup>)
    requires IsRunEncoding(slots, groups) && groups != []
    ensures var m, init := |groups|, groups[..|groups| - 1];
      && TotalSlots(init) + groups[m - 1].slotCount == |slots|
      && CoversRun(slots, groups[m - 1], TotalSlots(init))
      && CoversInOrder(slots, init)
      && StatusesAlternate(init)
      && (init != [] ==> init[|init| - 1].status != groups[m - 1].status)
  {
    var m := |groups|;
    var init := groups[..m - 1];
    assert groups == init + [groups[m - 1]];
    TotalSlotsSnoc(init, groups[m - 1]);
    assert CoversInOrder(slots, groups);
    assert CoversRun(slots, groups[m - 1], StartOf(groups, m - 1));
    CoversInOrderPrefix(slots, groups, m - 1);
    StatusesAlternatePrefix(groups, m - 1);
    if m > 1 {
      assert StatusesAlternate(groups);
      assert init[m - 2] == groups[m - 2];
    }
  }

  /** A run that follows an encoding and covers the remaining slots, with a
      status different from the encoding's last group, completes the encoding. */
  lemma {:induction false} AppendRun(s: seq<TimeSlot>, init: seq<SlotGroup>, g: SlotGroup)
    requires TotalSlots(init) + g.slotCount == |s|
    requires CoversInOrder(s, init) && StatusesAlternate(init)
    requires CoversRun(s, g, TotalSlots(init))
    requires init != [] ==> init[|init| - 1].status != g.status
    ensures IsRunEncoding(s, init + [g])
  {
    TotalSlotsSnoc(init, g);
    CoversInOrderAppend(s, init, g);
    StatusesAlternateAppend(init, g);
  }

  lemma {:induction false} ExtendRun(s: seq<TimeSlot>, x: TimeSlot, init: seq<SlotGroup>, last: SlotGroup)
    requires TotalSlots(init) + last.slotCount == |s| && last.status == x.status
    requires CoversRun(s, last, TotalSlots(init))
    requires CoversInOrder(s, init) && StatusesAlternate(init)
    requires init != [] ==> init[|init| - 1].status != last.status
    ensures IsRunEncoding(s + [x], init + [Extend(last, x)])
  {
    var grown := Extend(last, x);
    var t := s + [x];
    var a := TotalSlots(init);
    assert CoversRun(t, grown, a) by {
      forall j | a <= j < a + grown.slotCount ensures t[j].status == grown.status {
        if j < |s| { assert t[j] == s[j]; }
      }
    }
    CoversInOrderSnoc(s, x, init);
    AppendRun(t, init, grown);
  }

  /** Appending a slot of the last group's status lengthens that group and
      keeps the encoding. */
  lemma {:induction false} ExtendKeepsEncoding(s: seq<TimeSlot>, x: TimeSlot, prev: seq<SlotGroup>)
    requires IsRunEncoding(s, prev)
    requires prev != [] && prev[|prev| - 1].status == x.status
    ensures IsRunEncoding(s + [x], prev[..|prev| - 1] + [Extend(prev[|prev| - 1], x)])
  {
    SplitLast(s, prev);
    ExtendRun(s, x, prev[..|prev| - 1], prev[|prev| - 1]);
  }

  /** Appending a slot whose status differs from the last group's opens a new
      group and keeps the encoding. */
  lemma {:induction false} OpenKeepsEncoding(s: seq<TimeSlot>, x: TimeSlot, prev: seq<SlotGroup>)
    requires IsRunEncoding(s, prev)
    requires prev != [] ==> prev[|prev| - 1].status != x.status
    ensures IsRunEncoding(s + [x], prev + [Open(x)])
  {
    TotalSlotsSnoc(prev, Open(x));
    CoversInOrderSnoc(s, x, prev);
    CoversInOrderAppend(s + [x], prev, Open(x));
    StatusesAlternateAppend(prev, Open(x));
  }

  /** The grouping partitions its input into maximal runs (existence). */
  lemma {:induction false} GroupedIsRunEncoding(slots: seq<TimeSlot>)
    ensures IsRunEncoding(slots, Grouped(slots))
    decreases |slots|
  {
    if slots != [] {
      var n := |slots|;
      var s := slots[..n - 1];
      var x := slots[n - 1];
      assert slots == s + [x];
      GroupedIsRunEncoding(s);
      var prev := Grouped(s);
      if prev != [] && prev[|prev| - 1].status == x.status {
        ExtendKeepsEncoding(s, x, prev);
      } else {
        OpenKeepsEncoding(s, x, prev);
      }
    }
  }

  lemma {:induction false} StatusesAlternatePrefix(groups: seq<SlotGroup>, m: nat)
    requires StatusesAlternate(groups) && m <= |groups|
    ensures StatusesAlternate(groups[..m])
  {
    var res := groups[..m];
    forall k | 0 < k < m ensures res[k - 1].status != res[k].status {
      assert res[k - 1] == groups[k - 1] && res[k] == groups[k];
    }
  }

  /** Groups that stop short of the last slot are runs of the slots without it. */
  lemma {:induction false} CoversInOrderTrim(slots: seq<TimeSlot>, groups: seq<SlotGroup>)
    requires CoversInOrder(slots, groups) && TotalSlots(groups) < |slots|
    ensures CoversInOrder(slots[..|slots| - 1], groups)
  {
    var m := |groups|;
    forall k | 0 <= k < m ensures CoversRun(slots[..|slots| - 1], groups[k], StartOf(groups, k)) {
      TotalSlotsPrefix(groups, k, m);
      assert groups[..m] == groups;
      CoversRunTrim(slots, groups[k], StartOf(groups, k));
    }
  }

  /** In an encoding, the last group covers the tail of the slots, and every
      earlier group is a run of the slots without the last one. */
  lemma {:induction false} LastGroupOfEncoding(slots: seq<TimeSlot>, groups: seq<SlotGroup>)
    requires IsRunEncoding(slots, groups) && groups != []
    ensures var m, n := |groups|, |slots|;
      && n > 0
      && TotalSlots(groups[..m - 1]) + groups[m - 1].slotCount == n
      && CoversRun(slots, groups[m - 1], TotalSlots(groups[..m - 1]))
      && CoversInOrder(slots[..n - 1], groups[..m - 1])
      && StatusesAlternate(groups[..m - 1])
  {
    SplitLast(slots, groups);
    CoversInOrderTrim(slots, groups[..|groups| - 1]);
  }

  /** Removing the last slot of an encoding whose last group has one member
      removes that group. */
  lemma {:induction false} DropLastGroup(slots: seq<TimeSlot>, groups: seq<SlotGroup>)
    requires IsRunEncoding(slots, groups) && groups != []
    requires groups[|groups| - 1].slotCount == 1
    ensures IsRunEncoding(slots[..|slots| - 1], groups[..|groups| - 1])
  {
    LastGroupOfEncoding(slots, groups);
  }

  /** Removing the last slot of an encoding whose last group has several
      members shortens that group by one. */
  lemma {:induction false} ShortenLastGroup(slots: seq<TimeSlot>, groups: seq<SlotGroup>)
    requires IsRunEncoding(slots, groups) && groups != []
    requires groups[|groups| - 1].slotCount > 1
    ensures var m, n := |groups|, |slots|;
      n > 1 &&
      IsRunEncoding(slots[..n - 1], groups[..m - 1]
        + [groups[m - 1].(endTime := slots[n - 2].endTime, slotCount := groups[m - 1].slotCount - 1)])
  {
    LastGroupOfEncoding(slots, groups);
    var m := |groups|;
    if m > 1 {
      assert StatusesAlternate(groups);
      assert groups[..m - 1][m - 2] == groups[m - 2];
    }
    ShortenRun(slots, groups[..m - 1], groups[m - 1]);
  }

  lemma {:induction false} ShortenRun(slots: seq<TimeSlot>, init: seq<SlotGroup>, last: SlotGroup)
    requires TotalSlots(init) + last.slotCount == |slots| && last.slotCount > 1
    requires CoversRun(slots, last, TotalSlots(init))
    requires CoversInOrder(slots[..|slots| - 1], init) && StatusesAlternate(init)
    requires init != [] ==> init[|init| - 1].status != last.status
    ensures |slots| > 1
    ensures IsRunEncoding(slots[..|slots| - 1],
      init + [last.(endTime := slots[|slots| - 2].endTime, slotCount := last.slotCount - 1)])
  {
    var n := |slots|;
    var s := slots[..n - 1];
    var shorter := last.(endTime := slots[n - 2].endTime, slotCount := last.slotCount - 1);
    var a := TotalSlots(init);
    assert CoversRun(s, shorter, a) by {
      assert s[a] == slots[a] && s[n - 2] == slots[n - 2];
      forall j | a <= j < a + shorter.slotCount ensures s[j].status == shorter.status {
        assert s[j] == slots[j];
      }
    }
    AppendRun(s, init, shorter);
  }

  /** One step of `Grouped`, stated for a list with one more slot. */
  lemma {:induction false} GroupedSnoc(s: seq<TimeSlot>, x: TimeSlot)
    ensures var prev := Grouped(s);
      Grouped(s + [x]) ==
        if prev != [] && prev[|prev| - 1].status == x.status then
          prev[..|prev| - 1] + [Extend(prev[|prev| - 1], x)]
        else
          prev + [Open(x)]
  {
    assert (s + [x])[..|s|] == s;
  }

  /** The last group of an encoding carries the last slot's status; when it
      has one member it is the group that slot opens, otherwise it is the
      group before that slot extended by it. */
  lemma {:induction false} LastGroupShape(slots: seq<TimeSlot>, groups: seq<SlotGroup>)
    requires IsRunEncoding(slots, groups) && groups != []
    ensures var m, n := |groups|, |slots|;
      && n > 0
      && groups[m - 1].slotCount >= 1
      && groups[m - 1].status == slots[n - 1].status
      && (groups[m - 1].slotCount == 1 ==>
            groups[m - 1] == Open(slots[n - 1])
            && (m > 1 ==> groups[m - 2].status != slots[n - 1].status))
      && (groups[m - 1].slotCount > 1 ==>
            n > 1 &&
            groups[m - 1] == Extend(groups[m - 1].(endTime := slots[n - 2].endTime,
                                                   slotCount := groups[m - 1].slotCount - 1),
                                    slots[n - 1]))
  {
    LastGroupOfEncoding(slots, groups);
    var m := |groups|;
    if m > 1 {
      assert StatusesAlternate(groups);
      assert groups[m - 2].status != groups[m - 1].status;
    }
  }

  /** If the groups before a one-member last group are the grouping of the
      slots before the last one, and that group is the one the last slot
      opens with a status change, the groups are the grouping of all slots. */
  lemma {:induction false} UniqueStepOpen(s: seq<TimeSlot>, x: TimeSlot, init: seq<SlotGroup>)
    requires init == Grouped(s)
    requires init != [] ==> init[|init| - 1].status != x.status
    ensures init + [Open(x)] == Grouped(s + [x])
  {
    GroupedSnoc(s, x);
  }

  /** If the groups with a shortened last group are the grouping of the slots
      before the last one, and the last group is that shorter group extended
      by the last slot, the groups are the grouping of all slots. */
  lemma {:induction false} UniqueStepExtend(s: seq<TimeSlot>, x: TimeSlot, init: seq<SlotGroup>, shorter: SlotGroup)
    requires init + [shorter] == Grouped(s)
    requires shorter.status == x.status
    ensures init + [Extend(shorter, x)] == Grouped(s + [x])
  {
    GroupedSnoc(s, x);
    var prev := init + [shorter];
    assert prev[..|prev| - 1] == init && prev[|prev| - 1] == shorter;
  }

  /** Only one list of groups encodes a slot list in maximal runs, so the
      grouping is determined by the partition laws alone (uniqueness). */
  lemma {:induction false} RunEncodingUnique(slots: seq<TimeSlot>, groups: seq<SlotGroup>)
    requires IsRunEncoding(slots, groups)
    ensures groups == Grouped(slots)
    decreases |slots|, 1
  {
    if groups == [] {
      assert slots == [];
    } else if groups[|groups| - 1].slotCount > 1 {
      UniqueWhenLastShortens(slots, groups);
    } else {
      UniqueWhenLastDrops(slots, groups);
    }
  }

  lemma {:induction false} UniqueWhenLastDrops(slots: seq<TimeSlot>, groups: seq<SlotGroup>)
    requires IsRunEncoding(slots, groups) && groups != []
    requires groups[|groups| - 1].slotCount <= 1
    ensures groups == Grouped(slots)
    decreases |slots|, 0
  {
    var m, n := |groups|, |slots|;
    LastGroupShape(slots, groups);
    var s, x, init := slots[..n - 1], slots[n - 1], groups[..m - 1];
    assert slots == s + [x];
    assert groups == init + [Open(x)] by {
      assert groups == init + [groups[m - 1]];
    }
    assert init != [] ==> init[|init| - 1].status != x.status by {
      if m > 1 {
        assert init[m - 2] == groups[m - 2];
      }
    }
    DropLastGroup(slots, groups);
    RunEncodingUnique(s, init);
    UniqueStepOpen(s, x, init);
  }

  lemma {:induction false} UniqueWhenLastShortens(slots: seq<TimeSlot>, groups: seq<SlotGroup>)
    requires IsRunEncoding(slots, groups) && groups != []
    requires groups[|groups| - 1].slotCount > 1
    ensures groups == Grouped(slots)
    decreases |slots|, 0
  {
    var m, n := |groups|, |slots|;
    LastGroupShape(slots, groups);
    var shorter := groups[m - 1].(endTime := slots[n - 2].endTime, slotCount := groups[m - 1].slotCount - 1);
    var s, x, init := slots[..n - 1], slots[n - 1], groups[..m - 1];
    assert slots == s + [x];
    assert groups == init + [Extend(shorter, x)] by {
      assert groups == init + [groups[m - 1]];
    }
    ShortenLastGroup(slots, groups);
    RunEncodingUnique(s, init + [shorter]);
    UniqueStepExtend(s, x, init, shorter);
  }

  /** Adding one slot opens a new group exactly when its status differs from
      the status of the slot before it (or when it is the first slot); otherwise
      it lengthens the last group and leaves the earlier groups as they were. */
  lemma {:induction false} NewGroupExactlyOnStatusChange(slots: seq<TimeSlot>, x: TimeSlot)
    ensures var before, after := Grouped(slots), Grouped(slots + [x]);
      if slots != [] && slots[|slots| - 1].status == x.status then
        |after| == |before| && after[..|before| - 1] == before[..|before| - 1]
        && after[|after| - 1].slotCount == before[|before| - 1].slotCount + 1
      else
        after == before + [Open(x)]
  {
    assert (slots + [x])[..|slots|] == slots;
  }

  /** When every slot has the same status the result is one group that spans
      the whole list. */
  lemma {:induction false} SingleStatusSingleGroup(slots: seq<TimeSlot>)
    requires slots != []
    requires forall j | 0 <= j < |slots| :: slots[j].status == slots[0].status
    ensures Grouped(slots) == [SlotGroup(slots[0].status, slots[0].startTime,
      slots[|slots| - 1].endTime, slots[0].detail, |slots|, slots[0].id)]
    decreases |slots|
  {
    var n := |slots|;
    if n > 1 {
      var s := slots[..n - 1];
      assert s[0] == slots[0];
      SingleStatusSingleGroup(s);
    }
  }

  /** Each slot ends where the next one starts. */
  predicate Contiguous(slots: seq<TimeSlot>) {
    forall i | 0 <= i < |slots| - 1 :: slots[i].endTime == slots[i + 1].startTime
  }

  /** Groups of contiguous slots tile the same timeline: the first group
      starts with the first slot, each group ends where the next one starts,
      and the last group ends with the last slot. */
  lemma {:induction false} GroupsTileTimeline(slots: seq<TimeSlot>)
    requires Contiguous(slots)
    ensures var groups := Grouped(slots);
      && (slots != [] ==> groups[0].startTime == slots[0].startTime
                          && groups[|groups| - 1].endTime == slots[|slots| - 1].endTime)
      && forall k | 0 <= k < |groups| - 1 :: groups[k].endTime == groups[k + 1].startTime
  {
    var groups := Grouped(slots);
    GroupedIsRunEncoding(slots);
    if slots != [] {
      assert groups[..0] == [];
      assert CoversRun(slots, groups[0], StartOf(groups, 0));
    }
    forall k | 0 <= k < |groups| - 1 ensures groups[k].endTime == groups[k + 1].startTime {
      NextGroupStart(slots, groups, k);
    }
  }

  /** Group k + 1 starts at the slot right after group k's last slot. */
  lemma {:induction false} NextGroupStart(slots: seq<TimeSlot>, groups: seq<SlotGroup>, k: nat)
    requires Contiguous(slots) && CoversInOrder(slots, groups) && k + 1 < |groups|
    ensures groups[k].endTime == groups[k + 1].startTime
  {
    var a := StartOf(groups, k);
    assert groups[..k + 1] == groups[..k] + [groups[k]];
    TotalSlotsSnoc(groups[..k], groups[k]);
    AdjacentRuns(slots, groups[k], groups[k + 1], a, StartOf(groups, k + 1));
  }

  lemma {:induction false} AdjacentRuns(slots: seq<TimeSlot>, g: SlotGroup, h: SlotGroup, a: nat, b: nat)
    requires Contiguous(slots) && CoversRun(slots, g, a) && CoversRun(slots, h, b)
    requires b == a + g.slotCount
    ensures g.endTime == h.startTime
  {
    var last := a + g.slotCount - 1;
    assert slots[last].endTime == slots[last + 1].startTime;
  }

  /** The colour class of a status (`getStatusColor`). */
  function StatusColor(status: Status): (r: string)
    ensures |r| > |"timeslot-group-"| && r[..|"timeslot-group-"|] == "timeslot-group-"
  {
    match status
    case Available => "timeslot-group-available"
    case ReservedOthers => "timeslot-group-reserved-others"
    case ReservedSelf => "timeslot-group-reserved-self"
  }

  /** The Japanese label of a status (`getStatusText`). */
  function StatusText(status: Status): (r: string)
    ensures r != "不明"
  {
    match status
    case Available => "空室"
    case ReservedOthers => "他者が予約済み"
    case ReservedSelf => "自分が予約済み"
  }

  /** Different statuses get different colours and different labels, so the
      segments and the detail panel tell every status apart. */
  lemma {:induction false} StatusLabelsDistinguish(s1: Status, s2: Status)
    requires s1 != s2
    ensures StatusColor(s1) != StatusColor(s2)
    ensures StatusText(s1) != StatusText(s2)
  {
    assert StatusColor(Available)[15] == 'a';
    assert StatusColor(ReservedOthers)[15] == 'r' && StatusColor(ReservedOthers)[24] == 'o';
    assert StatusColor(ReservedSelf)[15] == 'r' && StatusColor(ReservedSelf)[24] == 's';
    assert StatusText(Available)[0] == '空';
    assert StatusText(ReservedOthers)[0] == '他';
    assert StatusText(ReservedSelf)[0] == '自';
  }
}

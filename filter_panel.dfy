/** The filter panel's own logic (src/components/FilterPanel.tsx): toggling a
    weekday in the edited weekday list, and flipping the transpose flag. The
    panel holds no state; both results are handed to the page's setters. */
module FilterPanel {
  import opened Common

  /** Weekday numbers as `Date.getDay` returns them: 0 is Sunday, 6 Saturday. */
  const AllWeekdays: seq<int> := [0, 1, 2, 3, 4, 5, 6]

  /** The list without any occurrence of `v`. */
  function Without(s: seq<int>, v: int): seq<int> {
    Filter(s, w => w != v)
  }

  /** A selected weekday is removed (every occurrence of it); an unselected
      one is appended at the end. Other values keep their number of
      occurrences, and a removal keeps the rest in order. */
  function WeekdayToggle(selected: seq<int>, v: int): (r: seq<int>)
    ensures v in r <==> v !in selected
    ensures forall w :: w != v ==> (w in r <==> w in selected)
    ensures forall w :: w != v ==> multiset(r)[w] == multiset(selected)[w]
    ensures v in selected ==> multiset(r)[v] == 0 && IsSubsequence(r, selected)
    ensures v !in selected ==> r == selected + [v]
  {
    if v in selected then
      var p := (w: int) => w != v;
      FilterIsSubsequence(selected, p);
      forall w ensures multiset(Filter(selected, p))[w] == if w != v then multiset(selected)[w] else 0 {
        FilterCount(selected, p, w);
      }
      Filter(selected, p)
    else
      selected + [v]
  }

  /** Toggling the same weekday twice gives back the same membership; when it
      was absent the list itself comes back, and when it was present it ends
      up moved to the end. */
  lemma {:induction false} ToggleTwice(selected: seq<int>, v: int)
    ensures forall w :: w in WeekdayToggle(WeekdayToggle(selected, v), v) <==> w in selected
    ensures v !in selected ==> WeekdayToggle(WeekdayToggle(selected, v), v) == selected
    ensures v in selected ==> WeekdayToggle(WeekdayToggle(selected, v), v) == Without(selected, v) + [v]
  {
    if v !in selected {
      var once := selected + [v];
      var p := (w: int) => w != v;
      FilterAppend(selected, [v], p);
      FilterAll(selected, p);
      assert Filter([v], p) == [];
      assert WeekdayToggle(once, v) == Filter(once, p);
    }
  }

  /** A toggle keeps a list without repeats free of repeats. */
  lemma {:induction false} ToggleKeepsNoDup(selected: seq<int>, v: int)
    requires NoDup(selected)
    ensures NoDup(WeekdayToggle(selected, v))
  {
    if v in selected {
      FilterPreservesNoDup(selected, (w: int) => w != v);
    } else {
      var r := selected + [v];
      forall i, j | 0 <= i < j < |r| ensures r[i] != r[j] {
        if j == |selected| {
          assert r[i] == selected[i] && selected[i] in selected;
        } else {
          assert r[i] == selected[i] && r[j] == selected[j];
        }
      }
    }
  }

  /** The transpose button swaps which axis runs horizontally. */
  function TransposeToggle(isTransposed: bool): (r: bool)
    ensures r != isTransposed
  {
    !isTransposed
  }

  /** Pressing the transpose button twice restores the layout. */
  lemma {:induction false} TransposeTwice(isTransposed: bool)
    ensures TransposeToggle(TransposeToggle(isTransposed)) == isTransposed
  {
  }
}

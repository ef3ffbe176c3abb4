/**
 * `TodoListWeekdaySelector`: seven day buttons, Sunday first, each of which
 * toggles its day in the selected set.
 */
module WeekdaySelector {

  /** The button labels, indexed from 1 (Sunday) to 7 (Saturday). */
  const Weekdays: seq<string> := ["일", "월", "화", "수", "목", "금", "토"]

  /** A day index the buttons use. */
  predicate IsDay(index: int) {
    1 <= index <= 7
  }

  /** The label of day `index`, `weekdays[index - 1]`. */
  function DayName(index: int): (name: string)
    requires IsDay(index)
    ensures name in Weekdays
  {
    Weekdays[index - 1]
  }

  /** The selection after a tap on `index`: removed if it was selected, inserted otherwise. */
  function Toggle(selected: set<int>, index: int): (r: set<int>)
    ensures index in r <==> index !in selected
    ensures forall j :: j != index ==> (j in r <==> j in selected)
  {
    if index in selected then selected - {index} else selected + {index}
  }

  /** Two taps on the same day restore the selection. */
  lemma ToggleTwice(selected: set<int>, index: int)
    ensures Toggle(Toggle(selected, index), index) == selected
  {
  }

  /** Taps on different days commute. */
  lemma ToggleCommutes(selected: set<int>, i: int, j: int)
    ensures Toggle(Toggle(selected, i), j) == Toggle(Toggle(selected, j), i)
  {
  }

  /** Tapping days only ever selects days. */
  lemma ToggleKeepsDays(selected: set<int>, index: int)
    requires forall i :: i in selected ==> IsDay(i)
    requires IsDay(index)
    ensures forall i :: i in Toggle(selected, index) ==> IsDay(i)
  {
  }

  /** The `selectedWeekdays` state of the view. */
  class Selector {
    var selectedWeekdays: set<int>

    /** Only day indices are ever selected. */
    ghost predicate Valid()
      reads this
    {
      forall i :: i in selectedWeekdays ==> IsDay(i)
    }

    /** The selection starts empty. */
    constructor()
      ensures selectedWeekdays == {} && Valid()
    {
      selectedWeekdays := {};
    }

    /** A tap on the button of day `index`. */
    method Tap(index: int)
      requires IsDay(index) && Valid()
      modifies this
      ensures selectedWeekdays == Toggle(old(selectedWeekdays), index)
      ensures Valid()
    {
      if index in selectedWeekdays {
        selectedWeekdays := selectedWeekdays - {index};
      } else {
        selectedWeekdays := selectedWeekdays + {index};
      }
    }

    /** Whether the button of day `index` shows as selected. */
    function IsSelected(index: int): bool
      reads this
    {
      index in selectedWeekdays
    }
  }
}

/**
 * Counting and listing the weekdays of a range of days
 * (backend/src/modules/hrm/leaves/services.ts). Days are numbered from 1 January 1970.
 */
module Weekdays {
  import opened Prelude

  /** Sunday is 0; day 0 was a Thursday. */
  function DayOfWeek(day: int): nat { (day + 4) % 7 }

  predicate IsWeekend(day: int) { DayOfWeek(day) == 0 || DayOfWeek(day) == 6 }

  /** The weekdays of `[start, end]`, in order. */
  function Listed(start: int, end: int): seq<int>
    decreases end - start + 1
  {
    if start > end then []
    else if IsWeekend(end) then Listed(start, end - 1)
    else Listed(start, end - 1) + [end]
  }

  method CountWeekdays(start: int, end: int) returns (count: nat)
    ensures count == |Listed(start, end)|
  {
    count := 0;
    var current := start;
    while current <= end
      invariant current <= end + 1 || current == start
      invariant start <= current && count == |Listed(start, current - 1)|
      decreases end - current
    {
      if !IsWeekend(current) {
        count := count + 1;
      }
      current := current + 1;
    }
    if start > end {
      assert Listed(start, start - 1) == Listed(start, end) == [];
    }
  }

  method GetWeekdaysInRange(start: int, end: int) returns (weekdays: seq<int>)
    ensures weekdays == Listed(start, end)
  {
    weekdays := [];
    var current := start;
    while current <= end
      invariant current <= end + 1 || current == start
      invariant start <= current && weekdays == Listed(start, current - 1)
      decreases end - current
    {
      if !IsWeekend(current) {
        weekdays := weekdays + [current];
      }
      current := current + 1;
    }
    if start > end {
      assert Listed(start, start - 1) == Listed(start, end) == [];
    }
  }

  /** 3 and 4 January 1970, days 2 and 3, were a Saturday and a Sunday; weekends come round every seven days. */
  lemma WeekendsAreSaturdayAndSunday(day: int)
    ensures IsWeekend(day) <==> (day - 2) % 7 == 0 || (day - 3) % 7 == 0
  {
  }

  /** The list is strictly increasing and holds exactly the weekdays of the range. */
  lemma {:induction false} ListedIsExact(start: int, end: int)
    ensures forall d :: d in Listed(start, end) <==> start <= d <= end && !IsWeekend(d)
    ensures forall i, j :: 0 <= i < j < |Listed(start, end)| ==> Listed(start, end)[i] < Listed(start, end)[j]
    decreases end - start + 1
  {
    if start <= end {
      ListedIsExact(start, end - 1);
      var list, rest := Listed(start, end), Listed(start, end - 1);
      forall d ensures d in list <==> start <= d <= end && !IsWeekend(d) {
        assert d in rest <==> start <= d <= end - 1 && !IsWeekend(d);
        if !IsWeekend(end) { assert d in rest + [end] <==> d in rest || d == end; }
      }
      forall i, j | 0 <= i < j < |list| ensures list[i] < list[j] {
        if j == |rest| { assert rest[i] in rest; }
      }
    }
  }

  /**
   * Weekdays among `length` days from `start`: five per full week, and in the remaining
   * days those before Saturday plus those after Sunday, counting the week from Monday.
   */
  function ClosedForm(start: int, length: nat): int {
    var monday := (DayOfWeek(start) + 6) % 7;
    var rest := length % 7;
    5 * (length / 7) + Max(0, Min(monday + rest, 5) - monday) + Max(0, monday + rest - 7)
  }

  lemma ClosedFormStep(start: int, length: nat)
    ensures ClosedForm(start, 0) == 0
    ensures ClosedForm(start, length + 1) == ClosedForm(start, length) + if IsWeekend(start + length) then 0 else 1
  {
    var monday := (DayOfWeek(start) + 6) % 7;
    var weeks, rest := length / 7, length % 7;
    assert length == 7 * weeks + rest;
    var next := if rest == 6 then (weeks + 1, 0) else (weeks, rest + 1);
    assert length + 1 == 7 * next.0 + next.1;
    assert (length + 1) / 7 == next.0 && (length + 1) % 7 == next.1;
    var started := (start + 4) / 7;
    assert start + 4 == 7 * started + DayOfWeek(start);
    var day := DayOfWeek(start) + rest;
    assert start + length + 4 == 7 * (started + weeks) + day;
    assert DayOfWeek(start + length) == if day < 7 then day else day - 7;
  }

  /** The counting loop computes the closed form. */
  lemma {:induction false} CountIsClosedForm(start: int, length: nat)
    ensures |Listed(start, start + length - 1)| == ClosedForm(start, length)
    decreases length
  {
    if length == 0 {
      ClosedFormStep(start, 0);
    } else {
      CountIsClosedForm(start, length - 1);
      ClosedFormStep(start, length - 1);
    }
  }

  lemma {:induction false} ListedHasNoDuplicates(start: int, end: int)
    ensures |set d | d in Listed(start, end)| == |Listed(start, end)|
    decreases end - start + 1
  {
    if start <= end {
      ListedHasNoDuplicates(start, end - 1);
      ListedIsExact(start, end - 1);
      var shorter, longer := Listed(start, end - 1), Listed(start, end);
      var rest, all := set d | d in shorter, set d | d in longer;
      assert all == if IsWeekend(end) then rest else rest + {end};
    }
  }
}

/**
  Time-slot generation and the overlap test of src/lib/utils.ts.

  Instants are whole minutes since an epoch that falls on a local midnight, so the
  local day of an instant starts at `DayStart(t)` and `setHours(h, 0, 0, 0)` on that
  day gives `AtHour(t, h)`.
 */
module Slots {

  const MinutesPerHour := 60
  const MinutesPerDay := 1440

  /** Local midnight of the day that contains instant `t`. */
  function DayStart(t: int): int
  {
    t - t % MinutesPerDay
  }

  /** A copy of `t` with `setHours(hour, 0, 0, 0)` applied. */
  function AtHour(t: int, hour: int): int
  {
    DayStart(t) + hour * MinutesPerHour
  }

  /** The instants `first, first + step, first + 2*step, ...` that are still before `end`. */
  function SlotSeries(first: int, end: int, step: int): seq<int>
    requires step > 0
    decreases end - first
  {
    if first < end then [first] + SlotSeries(first + step, end, step) else []
  }

  /**
    generateTimeSlots: starting at `startHour:00` of the day of `date`, push the current
    instant and advance it by `intervalMinutes` while it is before `endHour:00`.
    The loop only ends for a positive interval.
   */
  method GenerateTimeSlots(startHour: int, endHour: int, intervalMinutes: int, date: int)
    returns (slots: seq<int>)
    requires intervalMinutes > 0
    ensures slots == SlotSeries(AtHour(date, startHour), AtHour(date, endHour), intervalMinutes)
  {
    slots := [];
    var current := AtHour(date, startHour);
    var end := AtHour(date, endHour);
    while current < end
      invariant slots + SlotSeries(current, end, intervalMinutes)
             == SlotSeries(AtHour(date, startHour), end, intervalMinutes)
      decreases end - current
    {
      slots := slots + [current];
      current := current + intervalMinutes;
    }
  }

  /**
    The slots lie in `[first, end)`, start at `first`, and each is `step` after the previous;
    the list is empty exactly when `first >= end`.
   */
  lemma {:induction false} SlotSeriesBounds(first: int, end: int, step: int)
    requires step > 0
    ensures var r := SlotSeries(first, end, step);
      && (|r| == 0 <==> first >= end)
      && (|r| > 0 ==> r[0] == first)
      && (forall i :: 0 <= i < |r| ==> first <= r[i] < end)
      && (forall i :: 0 < i < |r| ==> r[i] == r[i - 1] + step)
    decreases end - first
  {
    if first < end {
      SlotSeriesBounds(first + step, end, step);
    }
  }

  /** The i-th slot is `first + i * step`. */
  lemma {:induction false} SlotSeriesNth(first: int, end: int, step: int, i: int)
    requires step > 0
    requires 0 <= i < |SlotSeries(first, end, step)|
    ensures SlotSeries(first, end, step)[i] == first + i * step
    decreases end - first
  {
    if i > 0 {
      SlotSeriesNth(first + step, end, step, i - 1);
      assert (i - 1) * step + step == i * step;
    }
  }

  /**
    The number of slots is the ceiling of `(end - first) / step`: `n` slots cover the window
    but `n - 1` do not.
   */
  lemma {:induction false} SlotSeriesCount(first: int, end: int, step: int)
    requires step > 0
    requires first < end
    ensures var n := |SlotSeries(first, end, step)|;
      (n - 1) * step < end - first <= n * step
    decreases end - first
  {
    var n := |SlotSeries(first, end, step)|;
    if first + step < end {
      SlotSeriesCount(first + step, end, step);
      assert n == |SlotSeries(first + step, end, step)| + 1;
      assert (n - 1) * step == (n - 2) * step + step;
      assert n * step == (n - 1) * step + step;
    } else {
      assert SlotSeries(first + step, end, step) == [];
      assert n == 1;
    }
  }

  lemma MultipleOfStep(d: int, step: int)
    requires step > 0
    ensures d >= 1 ==> d * step >= step
    ensures d <= -1 ==> d * step <= -step
  {
  }

  /** Adding one step keeps the remainder; a positive multiple is at least one step. */
  lemma ModStep(a: int, step: int)
    requires step > 0
    ensures (a + step) % step == a % step
    ensures a % step == 0 && a > 0 ==> a >= step
  {
    var q, r := a / step, a % step;
    var q2, r2 := (a + step) / step, (a + step) % step;
    var d := q + 1 - q2;
    assert d * step == r2 - r by {
      assert a + step == (q + 1) * step + r;
      assert a + step == q2 * step + r2;
    }
    MultipleOfStep(d, step);
    MultipleOfStep(q, step);
  }

  /**
    An instant is one of the slots exactly when it lies in `[first, end)` and is a whole
    number of steps after `first`.
   */
  lemma {:induction false} SlotSeriesMembers(first: int, end: int, step: int, x: int)
    requires step > 0
    ensures x in SlotSeries(first, end, step) <==> first <= x < end && (x - first) % step == 0
    decreases end - first
  {
    if first < end {
      SlotSeriesMembers(first + step, end, step, x);
      ModStep(x - (first + step), step);
      ModStep(x - first, step);
    }
  }

  /** The same hour on the next day is one day later. */
  lemma AtHourNextDay(t: int, hour: int)
    ensures AtHour(t + MinutesPerDay, hour) == AtHour(t, hour) + MinutesPerDay
  {
    assert (t + MinutesPerDay) % MinutesPerDay == t % MinutesPerDay;
  }

  /** Strictly increasing sequences of instants. */
  predicate StrictlyIncreasing(s: seq<int>)
  {
    forall i, j :: 0 <= i < j < |s| ==> s[i] < s[j]
  }

  lemma {:induction false} SlotSeriesIncreasing(first: int, end: int, step: int)
    requires step > 0
    ensures StrictlyIncreasing(SlotSeries(first, end, step))
    decreases end - first
  {
    if first < end {
      SlotSeriesIncreasing(first + step, end, step);
      SlotSeriesBounds(first + step, end, step);
    }
  }

  /**
    The slot list never truncates the last slot: the last slot's end reaches or passes the
    end of the window.
   */
  lemma SlotSeriesLastEnd(first: int, end: int, step: int)
    requires step > 0
    requires first < end
    ensures var r := SlotSeries(first, end, step);
      |r| > 0 && r[|r| - 1] + step >= end
  {
    var r := SlotSeries(first, end, step);
    SlotSeriesBounds(first, end, step);
    SlotSeriesCount(first, end, step);
    SlotSeriesNth(first, end, step, |r| - 1);
    assert r[|r| - 1] + step == first + |r| * step by {
      assert (|r| - 1) * step + step == |r| * step;
    }
  }

  /** 9 to 17 at 30-minute steps gives 16 slots, the last at 16:30 and ending at 17:00. */
  lemma HalfHourDay(date: int)
    ensures var r := SlotSeries(AtHour(date, 9), AtHour(date, 17), 30);
      |r| == 16 && r[0] == AtHour(date, 9) && r[15] == AtHour(date, 16) + 30
      && r[15] + 30 == AtHour(date, 17)
  {
    var r := SlotSeries(AtHour(date, 9), AtHour(date, 17), 30);
    SlotSeriesCount(AtHour(date, 9), AtHour(date, 17), 30);
    SlotSeriesBounds(AtHour(date, 9), AtHour(date, 17), 30);
    SlotSeriesNth(AtHour(date, 9), AtHour(date, 17), 30, 15);
  }

  /** 9 to 17 at 45-minute steps gives 11 slots; the last starts 16:30 and ends 17:15, past closing. */
  lemma LastSlotOverrunsClosing(date: int)
    ensures var r := SlotSeries(AtHour(date, 9), AtHour(date, 17), 45);
      |r| == 11 && r[10] == AtHour(date, 16) + 30
      && r[10] + 45 == AtHour(date, 17) + 15
  {
    var r := SlotSeries(AtHour(date, 9), AtHour(date, 17), 45);
    SlotSeriesCount(AtHour(date, 9), AtHour(date, 17), 45);
    SlotSeriesBounds(AtHour(date, 9), AtHour(date, 17), 45);
    SlotSeriesNth(AtHour(date, 9), AtHour(date, 17), 45, 10);
  }

  /** A booked interval `[start, end)`. */
  datatype Interval = Interval(start: int, end: int)

  /** The three clauses the source tests for one booked interval. */
  predicate Clashes(slot: int, slotEnd: int, booked: Interval)
  {
    || (slot >= booked.start && slot < booked.end)
    || (slotEnd > booked.start && slotEnd <= booked.end)
    || (slot <= booked.start && slotEnd >= booked.end)
  }

  /** Half-open intervals `[a, b)` and `[c, d)` share an instant. */
  predicate Overlap(a: int, b: int, c: int, d: int)
  {
    a < d && c < b
  }

  /**
    isSlotAvailable: no booked interval clashes with `[slot, slot + duration)`. For a positive
    duration and non-empty booked intervals that is: the slot overlaps none of them.
   */
  predicate IsSlotAvailable(slot: int, bookedSlots: seq<Interval>, duration: int)
    ensures duration > 0 && (forall i :: 0 <= i < |bookedSlots| ==> bookedSlots[i].start < bookedSlots[i].end) ==>
      (IsSlotAvailable(slot, bookedSlots, duration)
       <==> forall i :: 0 <= i < |bookedSlots| ==>
              !Overlap(slot, slot + duration, bookedSlots[i].start, bookedSlots[i].end))
  {
    NoClashIffNoOverlap(slot, bookedSlots, duration);
    var slotEnd := slot + duration;
    !exists i :: 0 <= i < |bookedSlots| && Clashes(slot, slotEnd, bookedSlots[i])
  }

  /** With nothing booked every slot is available. */
  lemma NothingBookedAllAvailable(slot: int, duration: int)
    ensures IsSlotAvailable(slot, [], duration)
  {
  }

  /**
    For a positive duration and non-empty booked intervals, the three clauses are exactly the
    half-open overlap test.
   */
  lemma ClashesIsHalfOpenOverlap(slot: int, duration: int, booked: Interval)
    requires duration > 0
    requires booked.start < booked.end
    ensures Clashes(slot, slot + duration, booked) <==> Overlap(slot, slot + duration, booked.start, booked.end)
  {
  }

  /** `ClashesIsHalfOpenOverlap` for every booked interval at once. */
  lemma NoClashIffNoOverlap(slot: int, bookedSlots: seq<Interval>, duration: int)
    ensures duration > 0 && (forall i :: 0 <= i < |bookedSlots| ==> bookedSlots[i].start < bookedSlots[i].end) ==>
      ((forall i :: 0 <= i < |bookedSlots| ==> !Clashes(slot, slot + duration, bookedSlots[i]))
       <==> forall i :: 0 <= i < |bookedSlots| ==>
              !Overlap(slot, slot + duration, bookedSlots[i].start, bookedSlots[i].end))
  {
    if duration > 0 && (forall i :: 0 <= i < |bookedSlots| ==> bookedSlots[i].start < bookedSlots[i].end) {
      forall i | 0 <= i < |bookedSlots| {
        ClashesIsHalfOpenOverlap(slot, duration, bookedSlots[i]);
      }
    }
  }

  /** A slot that ends exactly when a booking starts, or starts exactly when it ends, is available. */
  lemma AdjacentSlotsAvailable(slot: int, duration: int, booked: Interval)
    requires duration > 0
    requires booked.start < booked.end
    requires booked.end == slot || booked.start == slot + duration
    ensures IsSlotAvailable(slot, [booked], duration)
  {
    ClashesIsHalfOpenOverlap(slot, duration, booked);
  }

  /** Adding a booking never turns an unavailable slot into an available one. */
  lemma MoreBookingsNeverFreeASlot(slot: int, bookedSlots: seq<Interval>, extra: Interval, duration: int)
    ensures IsSlotAvailable(slot, bookedSlots + [extra], duration) ==> IsSlotAvailable(slot, bookedSlots, duration)
  {
    if !IsSlotAvailable(slot, bookedSlots, duration) {
      var i :| 0 <= i < |bookedSlots| && Clashes(slot, slot + duration, bookedSlots[i]);
      assert (bookedSlots + [extra])[i] == bookedSlots[i];
    }
  }
}

/**
  Model of the opening-hours resolver and the slot generator of
  bookingLogic.js (`buildWorkingRange`, `buildSlots`).
*/
module Schedule {
  import opened Options
  import opened Utils

  /** The working time of one calendar day, `[open, close)` in minutes. */
  datatype Range = Range(open: int, close: int)

  /** A bookable interval `[start, end)` in minutes. */
  datatype Slot = Slot(start: int, end: int)

  /** The generator stops as soon as it holds more than this many slots. */
  const SlotCap := 200

  /**
    buildWorkingRange: the day's rule, or None on a closed week day. A close
    time at or before the open time belongs to the next calendar day.
  */
  function BuildWorkingRange(hours: map<WeekKey, OpeningRule>, date: Date): (r: Option<Range>)
    ensures r.None? <==> GetWeekKey(date.weekday) !in hours
    ensures r.Some? ==>
      var rule := hours[GetWeekKey(date.weekday)];
      && r.value.open == MakeDayTime(date, rule.open)
      && (r.value.close == MakeDayTime(date, rule.close)
          || r.value.close == MakeDayTime(date, rule.close) + MinutesPerDay)
      && (IsClockTime(rule.open) && IsClockTime(rule.close) ==>
            r.value.open < r.value.close <= r.value.open + MinutesPerDay)
  {
    var key := GetWeekKey(date.weekday);
    if key !in hours then None
    else
      var rule := hours[key];
      var open := MakeDayTime(date, rule.open);
      var close := MakeDayTime(date, rule.close);
      if close == open || close < open then Some(Range(open, close + MinutesPerDay))
      else Some(Range(open, close))
  }

  /**
    The slots the generator loop still emits from cursor `start` once
    `produced` slots exist: each slot is `[start, start + len)`, the loop
    stops before a slot that would end after `close`, and it stops right
    after the slot that brings the count above the cap.
  */
  function Tile(start: int, close: int, len: int, produced: nat): (r: seq<Slot>)
    requires produced <= SlotCap
    decreases SlotCap - produced
  {
    var end := start + len;
    if end > close || (end != close && end > close) then []
    else if produced + 1 > SlotCap then [Slot(start, end)]
    else [Slot(start, end)] + Tile(end, close, len, produced + 1)
  }

  /** The generator emits a slot exactly when the first one fits, and that slot begins at `start`. */
  lemma TileFirst(start: int, close: int, len: int, produced: nat)
    requires produced <= SlotCap
    ensures Tile(start, close, len, produced) != [] <==> start + len <= close
    ensures Tile(start, close, len, produced) != [] ==> Tile(start, close, len, produced)[0] == Slot(start, start + len)
  {
  }

  /** The generator emits at most one slot past the cap. */
  lemma {:induction false} TileLength(start: int, close: int, len: int, produced: nat)
    requires produced <= SlotCap
    ensures |Tile(start, close, len, produced)| <= SlotCap + 1 - produced
    decreases SlotCap - produced
  {
    var end := start + len;
    if end <= close && produced + 1 <= SlotCap {
      TileLength(end, close, len, produced + 1);
    }
  }

  /** Back-to-back slots of length `len` from `start`, none ending after `close`. */
  lemma {:induction false} TileContiguous(start: int, close: int, len: int, produced: nat)
    requires produced <= SlotCap
    ensures var r := Tile(start, close, len, produced);
      && (r != [] ==> r[0].start == start)
      && (forall i :: 0 <= i < |r| ==> r[i].end == r[i].start + len && r[i].end <= close)
      && (forall i :: 0 < i < |r| ==> r[i].start == r[i - 1].end)
    decreases SlotCap - produced
  {
    var end := start + len;
    if end <= close && produced + 1 <= SlotCap {
      TileContiguous(end, close, len, produced + 1);
      var rest := Tile(end, close, len, produced + 1);
      var r := [Slot(start, end)] + rest;
      assert forall i :: 0 < i < |r| ==> r[i] == rest[i - 1];
    }
  }

  /** The generator stops only at the cap or when the next slot would end
      after `close`. */
  lemma {:induction false} TileStops(start: int, close: int, len: int, produced: nat)
    requires produced <= SlotCap
    ensures var r := Tile(start, close, len, produced);
      || |r| == SlotCap + 1 - produced
      || (if r == [] then start + len > close else r[|r| - 1].end + len > close)
    decreases SlotCap - produced
  {
    var end := start + len;
    if end <= close && produced + 1 <= SlotCap {
      TileStops(end, close, len, produced + 1);
      var rest := Tile(end, close, len, produced + 1);
      if rest != [] {
        assert ([Slot(start, end)] + rest)[|rest|] == rest[|rest| - 1];
      }
    }
  }

  /**
    buildSlots: the day's working range cut into back-to-back slots of
    `slotMinutes` starting at the opening time; a remainder shorter than a
    slot is dropped and at most 201 slots come out.
  */
  function BuildSlots(cfg: Config, date: Date): (slots: seq<Slot>)
    ensures BuildWorkingRange(cfg.openingHours, date).None? ==> slots == []
    ensures |slots| <= SlotCap + 1
    ensures forall i :: 0 <= i < |slots| ==> slots[i].end - slots[i].start == cfg.slotMinutes
    ensures forall i :: 0 < i < |slots| ==> slots[i].start == slots[i - 1].end
    ensures BuildWorkingRange(cfg.openingHours, date).Some? ==>
      var range := BuildWorkingRange(cfg.openingHours, date).value;
      && (slots != [] ==> slots[0].start == range.open)
      && (forall i :: 0 <= i < |slots| ==> slots[i].end <= range.close)
      && (|slots| == SlotCap + 1
          || (if slots == [] then range.open + cfg.slotMinutes > range.close
              else slots[|slots| - 1].end + cfg.slotMinutes > range.close))
  {
    match BuildWorkingRange(cfg.openingHours, date)
    case None => []
    case Some(range) =>
      TileLength(range.open, range.close, cfg.slotMinutes, 0);
      TileContiguous(range.open, range.close, cfg.slotMinutes, 0);
      TileStops(range.open, range.close, cfg.slotMinutes, 0);
      Tile(range.open, range.close, cfg.slotMinutes, 0)
  }

  /** With a positive slot length, every slot ends no later than any later
      slot starts, so the generated slots are pairwise disjoint and ordered. */
  lemma {:induction false} ContiguousSlotsAreOrdered(slots: seq<Slot>, len: int, i: int, j: int)
    requires len > 0
    requires forall k :: 0 <= k < |slots| ==> slots[k].end - slots[k].start == len
    requires forall k :: 0 < k < |slots| ==> slots[k].start == slots[k - 1].end
    requires 0 <= i < j < |slots|
    ensures slots[i].end <= slots[j].start
    decreases j - i
  {
    if j > i + 1 {
      ContiguousSlotsAreOrdered(slots, len, i, j - 1);
    }
  }

  lemma BuildSlotsOrdered(cfg: Config, date: Date)
    requires cfg.slotMinutes > 0
    ensures var slots := BuildSlots(cfg, date);
            forall i, j :: 0 <= i < j < |slots| ==> slots[i].start < slots[i].end <= slots[j].start
  {
    var slots := BuildSlots(cfg, date);
    forall i, j | 0 <= i < j < |slots| ensures slots[i].start < slots[i].end <= slots[j].start {
      ContiguousSlotsAreOrdered(slots, cfg.slotMinutes, i, j);
    }
  }

  /** A closed week day produces no slots. */
  lemma ClosedDayHasNoSlots(cfg: Config, date: Date)
    requires GetWeekKey(date.weekday) !in cfg.openingHours
    ensures BuildSlots(cfg, date) == []
  {
  }

  /** Opening 10:00 to 13:00 with one-hour slots yields exactly the three
      slots 10-11, 11-12 and 12-13. */
  lemma ThreeHourDay(cabins: int, date: Date)
    ensures var cfg := Config(cabins, 60, 7, 0, 0,
                              map[GetWeekKey(date.weekday) := OpeningRule(HourMinute(10, 0), HourMinute(13, 0))]);
            var m := date.day * MinutesPerDay;
            BuildSlots(cfg, date) == [Slot(m + 600, m + 660), Slot(m + 660, m + 720), Slot(m + 720, m + 780)]
  {
    var m := date.day * MinutesPerDay;
    assert Tile(m + 780, m + 780, 60, 3) == [];
    assert Tile(m + 720, m + 780, 60, 2) == [Slot(m + 720, m + 780)];
    assert Tile(m + 660, m + 780, 60, 1) == [Slot(m + 660, m + 720), Slot(m + 720, m + 780)];
  }

  /** A rule such as 22:00 to 02:00 runs past midnight into the next day. */
  lemma OvernightRange(date: Date)
    ensures var hours := map[GetWeekKey(date.weekday) := OpeningRule(HourMinute(22, 0), HourMinute(2, 0))];
            var m := date.day * MinutesPerDay;
            BuildWorkingRange(hours, date) == Some(Range(m + 1320, m + MinutesPerDay + 120))
  {
  }
}

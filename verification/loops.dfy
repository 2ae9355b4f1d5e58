/**
  The loops of bookingLogic.js as written (the same code is repeated in
  index.js): the slot generator's `while (true)`, the `some` scans over the
  bookings and the counting loop over cabins. Each method is proved equal to
  the functional definition the rest of the model uses.
*/
module Loops {
  import opened Options
  import opened Seqs
  import opened Utils
  import opened Schedule
  import opened Storage
  import opened Availability

  /** One turn of the generator loop when the slot fits and the cap is not yet reached. */
  lemma TileAdvance(before: seq<Slot>, after: seq<Slot>, all: seq<Slot>, start: int, next: int, close: int, len: int)
    requires |before| + 1 <= SlotCap && next == start + len && next <= close
    requires after == before + [Slot(start, next)]
    requires before + Tile(start, close, len, |before|) == all
    ensures after + Tile(next, close, len, |before| + 1) == all
  {
    var rest := Tile(next, close, len, |before| + 1);
    TileHead(start, next, close, len, |before|);
    MoveHead(before, Slot(start, next), rest);
  }

  lemma TileHead(start: int, next: int, close: int, len: int, produced: nat)
    requires produced + 1 <= SlotCap && next == start + len && next <= close
    ensures Tile(start, close, len, produced) == [Slot(start, next)] + Tile(next, close, len, produced + 1)
  {
  }

  lemma MoveHead<T>(a: seq<T>, x: T, c: seq<T>)
    ensures a + ([x] + c) == (a + [x]) + c
  {
  }

  /** The turn that reaches the cap: the slot is emitted and the loop breaks. */
  lemma TileLast(before: seq<Slot>, all: seq<Slot>, start: int, close: int, len: int)
    requires |before| == SlotCap && start + len <= close
    requires before + Tile(start, close, len, |before|) == all
    ensures before + [Slot(start, start + len)] == all
  {
    assert Tile(start, close, len, |before|) == [Slot(start, start + len)];
  }

  /** The turn where the next slot would pass the closing time. */
  lemma TileStop(before: seq<Slot>, all: seq<Slot>, start: int, close: int, len: int, produced: nat)
    requires produced <= SlotCap && start + len > close
    requires before + Tile(start, close, len, produced) == all
    ensures before == all
  {
    assert Tile(start, close, len, produced) == [];
    AppendEmpty(before);
  }

  /** The generator loop of buildSlots, including its two break conditions. */
  method BuildSlotsLoop(cfg: Config, date: Date) returns (slots: seq<Slot>)
    ensures slots == BuildSlots(cfg, date)
  {
    var range := BuildWorkingRange(cfg.openingHours, date);
    if range.None? {
      return [];
    }
    var open, close, len := range.value.open, range.value.close, cfg.slotMinutes;
    ghost var all := Tile(open, close, len, 0);
    slots := [];
    var start := open;
    assert slots + Tile(start, close, len, |slots|) == all;
    while true
      invariant |slots| <= SlotCap
      invariant slots + Tile(start, close, len, |slots|) == all
      decreases SlotCap - |slots|
    {
      var end := start + len;
      if end > close || (end != close && end > close) {
        TileStop(slots, all, start, close, len, |slots|);
        break;
      }
      if |slots| + 1 > SlotCap {
        TileLast(slots, all, start, close, len);
        slots := slots + [Slot(start, end)];
        break;
      }
      ghost var before, oldStart := slots, start;
      slots := slots + [Slot(start, end)];
      start := end;
      TileAdvance(before, slots, all, oldStart, start, close, len);
    }
  }

  /** `bookings.some(b => b.cabinNumber === cabin && overlaps(...))`, stopping at the first hit. */
  method HasOverlap(cabin: int, slot: Slot, bookings: seq<Booking>) returns (found: bool)
    ensures found <==> !IsCabinFree(cabin, slot, bookings)
  {
    var i := 0;
    while i < |bookings|
      invariant 0 <= i <= |bookings|
      invariant forall j :: 0 <= j < i ==> !Blocks(bookings[j], cabin, slot)
    {
      var b := bookings[i];
      if b.cabin == cabin && Overlaps(b.start, b.end, slot.start, slot.end) {
        assert b in bookings;
        return true;
      }
      i := i + 1;
    }
    return false;
  }

  /** isCabinFree. */
  method IsCabinFreeLoop(cabin: int, slot: Slot, bookings: seq<Booking>) returns (free: bool)
    ensures free == IsCabinFree(cabin, slot, bookings)
  {
    var busy := HasOverlap(cabin, slot, bookings);
    free := !busy;
  }

  /** countFreeCabinsForSlot: count busy cabins over `1..cabinCount`, subtract from the total. */
  method CountFreeLoop(slot: Slot, bookings: seq<Booking>, cabinCount: int) returns (free: int)
    ensures free == CountFreeCabins(slot, bookings, cabinCount)
  {
    var busy := 0;
    var cabin := 1;
    while cabin <= cabinCount
      invariant 1 <= cabin <= (if cabinCount < 1 then 1 else cabinCount + 1)
      invariant busy == BusyCount(slot, bookings, cabin - 1)
      decreases cabinCount - cabin
    {
      var hit := HasOverlap(cabin, slot, bookings);
      if hit {
        busy := busy + 1;
      }
      cabin := cabin + 1;
    }
    free := cabinCount - busy;
  }

  /** The loop of handleChooseSlot that collects the free cabins in ascending order. */
  method FreeCabinsLoop(slot: Slot, bookings: seq<Booking>, cabinCount: int) returns (cabins: seq<int>)
    ensures cabins == FreeCabins(slot, bookings, cabinCount)
  {
    cabins := [];
    if cabinCount < 1 {
      return;
    }
    var cabin := 1;
    while cabin <= cabinCount
      invariant 1 <= cabin <= cabinCount + 1
      invariant cabins == FreeCabins(slot, bookings, cabin - 1)
    {
      var free := IsCabinFreeLoop(cabin, slot, bookings);
      if free {
        cabins := cabins + [cabin];
      }
      FreeCabinsStep(slot, bookings, cabin, free);
      cabin := cabin + 1;
    }
  }

  lemma FreeCabinsStep(slot: Slot, bookings: seq<Booking>, n: int, free: bool)
    requires n >= 1 && free == IsCabinFree(n, slot, bookings)
    ensures FreeCabins(slot, bookings, n) == FreeCabins(slot, bookings, n - 1) + (if free then [n] else [])
  {
  }
}

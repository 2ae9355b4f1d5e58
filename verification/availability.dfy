/**
  Model of the overlap and availability engine of bookingLogic.js
  (`overlaps`, `isCabinFree`, `countFreeCabinsForSlot`), the free-cabin list
  the slot step builds, and the no-double-booking rule they protect.
*/
module Availability {
  import opened Storage
  import opened Schedule

  /** overlaps: half-open intervals `[aStart, aEnd)` and `[bStart, bEnd)` intersect.
      For non-empty intervals this is: the later of the two starts comes before
      the earlier of the two ends. */
  predicate Overlaps(aStart: int, aEnd: int, bStart: int, bEnd: int): (r: bool)
    ensures aStart < aEnd && bStart < bEnd ==> (r <==> Max(aStart, bStart) < Min(aEnd, bEnd))
  {
    aStart < bEnd && bStart < aEnd
  }

  function Max(a: int, b: int): int {
    if a < b then b else a
  }

  function Min(a: int, b: int): int {
    if a < b then a else b
  }

  /** Minute `t` lies in the half-open interval `[start, end)`. */
  predicate Within(t: int, start: int, end: int) {
    start <= t < end
  }

  /** For non-empty intervals, overlapping means sharing at least one minute. */
  lemma OverlapsIffSharedMinute(aStart: int, aEnd: int, bStart: int, bEnd: int)
    requires aStart < aEnd && bStart < bEnd
    ensures Overlaps(aStart, aEnd, bStart, bEnd) <==> exists t :: Within(t, aStart, aEnd) && Within(t, bStart, bEnd)
  {
    if Overlaps(aStart, aEnd, bStart, bEnd) {
      var t := if aStart < bStart then bStart else aStart;
      assert Within(t, aStart, aEnd) && Within(t, bStart, bEnd);
    }
  }

  lemma OverlapsSymmetric(aStart: int, aEnd: int, bStart: int, bEnd: int)
    ensures Overlaps(aStart, aEnd, bStart, bEnd) == Overlaps(bStart, bEnd, aStart, aEnd)
  {
  }

  /** Intervals that only touch at an endpoint do not overlap. */
  lemma TouchingDoesNotOverlap(a: int, b: int, c: int)
    ensures !Overlaps(a, b, b, c)
  {
  }

  /** `b` holds `cabin` during part of `slot`. */
  predicate Blocks(b: Booking, cabin: int, slot: Slot) {
    b.cabin == cabin && Overlaps(b.start, b.end, slot.start, slot.end)
  }

  /** isCabinFree: no booking on `cabin` overlaps `slot`. */
  predicate IsCabinFree(cabin: int, slot: Slot, bookings: seq<Booking>) {
    forall b :: b in bookings ==> !Blocks(b, cabin, slot)
  }

  /** A cabin is free for a slot exactly when each of its bookings ends by the
      slot's start or starts at or after the slot's end. */
  lemma FreeMeansBeforeOrAfter(cabin: int, slot: Slot, bookings: seq<Booking>)
    ensures IsCabinFree(cabin, slot, bookings) <==>
              forall b :: b in bookings && b.cabin == cabin ==> b.end <= slot.start || slot.end <= b.start
  {
  }

  /** The number of cabins among `1..n` that some booking blocks during `slot`. */
  function BusyCount(slot: Slot, bookings: seq<Booking>, n: int): (busy: nat)
    ensures busy <= (if n < 0 then 0 else n)
    ensures bookings == [] ==> busy == 0
    decreases n
  {
    if n < 1 then 0
    else BusyCount(slot, bookings, n - 1) + (if IsCabinFree(n, slot, bookings) then 0 else 1)
  }

  /** The cabins among `1..n` that are free during `slot`. */
  ghost function FreeSet(slot: Slot, bookings: seq<Booking>, n: int): set<int> {
    set c | 1 <= c <= n && IsCabinFree(c, slot, bookings)
  }

  lemma {:induction false} FreeSetSize(slot: Slot, bookings: seq<Booking>, n: int)
    requires n >= 0
    ensures |FreeSet(slot, bookings, n)| == n - BusyCount(slot, bookings, n)
    decreases n
  {
    if n == 0 {
      assert FreeSet(slot, bookings, 0) == {};
    } else {
      FreeSetSize(slot, bookings, n - 1);
      var prev := FreeSet(slot, bookings, n - 1);
      assert n !in prev;
      if IsCabinFree(n, slot, bookings) {
        assert FreeSet(slot, bookings, n) == prev + {n};
      } else {
        assert FreeSet(slot, bookings, n) == prev;
      }
    }
  }

  /**
    countFreeCabinsForSlot: `cabinCount` minus the busy cabins, which is the
    number of cabins in `1..cabinCount` free during `slot`.
  */
  function CountFreeCabins(slot: Slot, bookings: seq<Booking>, cabinCount: int): (free: int)
    ensures cabinCount >= 0 ==> 0 <= free <= cabinCount
    ensures cabinCount >= 0 ==> free == |FreeSet(slot, bookings, cabinCount)|
    ensures bookings == [] ==> free == cabinCount
  {
    if cabinCount >= 0 then FreeSetSize(slot, bookings, cabinCount); cabinCount - BusyCount(slot, bookings, cabinCount)
    else cabinCount - BusyCount(slot, bookings, cabinCount)
  }

  /** The loop of the slot step: free cabins among `1..n` in ascending order. */
  function FreeCabins(slot: Slot, bookings: seq<Booking>, n: int): (cabins: seq<int>)
    ensures forall c :: c in cabins <==> 1 <= c <= n && IsCabinFree(c, slot, bookings)
    ensures forall i, j :: 0 <= i < j < |cabins| ==> cabins[i] < cabins[j]
    ensures n >= 0 ==> |cabins| == CountFreeCabins(slot, bookings, n)
    decreases n
  {
    if n < 1 then []
    else
      var prev := FreeCabins(slot, bookings, n - 1);
      var r := prev + (if IsCabinFree(n, slot, bookings) then [n] else []);
      assert forall i, j :: 0 <= i < j < |r| ==> r[i] < r[j] by {
        forall i, j | 0 <= i < j < |r| ensures r[i] < r[j] {
          if j >= |prev| {
            assert prev[i] in prev;
          }
        }
      }
      r
  }

  lemma {:induction false} BusyCountSameBookings(slot: Slot, xs: seq<Booking>, ys: seq<Booking>, n: int)
    requires forall b :: b in xs <==> b in ys
    ensures BusyCount(slot, xs, n) == BusyCount(slot, ys, n)
    decreases n
  {
    if n >= 1 {
      BusyCountSameBookings(slot, xs, ys, n - 1);
      assert IsCabinFree(n, slot, xs) == IsCabinFree(n, slot, ys);
    }
  }

  /** The free count depends on which bookings exist, not on their order. */
  lemma CountFreeIgnoresOrder(slot: Slot, xs: seq<Booking>, ys: seq<Booking>, cabinCount: int)
    requires multiset(xs) == multiset(ys)
    ensures CountFreeCabins(slot, xs, cabinCount) == CountFreeCabins(slot, ys, cabinCount)
  {
    forall b ensures b in xs <==> b in ys {
      assert b in xs <==> b in multiset(xs);
      assert b in ys <==> b in multiset(ys);
    }
    BusyCountSameBookings(slot, xs, ys, cabinCount);
  }

  /** A new booking that overlaps `slot` on a cabin that was free makes that
      cabin busy and lowers the free count by exactly one. */
  lemma {:induction false} BookingTakesOneCabin(slot: Slot, bookings: seq<Booking>, b: Booking, n: int)
    requires 1 <= b.cabin <= n
    requires Overlaps(b.start, b.end, slot.start, slot.end)
    requires IsCabinFree(b.cabin, slot, bookings)
    ensures !IsCabinFree(b.cabin, slot, bookings + [b])
    ensures CountFreeCabins(slot, bookings + [b], n) == CountFreeCabins(slot, bookings, n) - 1
    decreases n
  {
    assert b in bookings + [b];
    forall c | c != b.cabin ensures IsCabinFree(c, slot, bookings + [b]) == IsCabinFree(c, slot, bookings) {
      assert forall x :: x in bookings + [b] <==> x in bookings || x == b;
    }
    if n > b.cabin {
      BookingTakesOneCabin(slot, bookings, b, n - 1);
    } else {
      BusyCountOtherCabins(slot, bookings, b, n - 1);
    }
  }

  lemma {:induction false} BusyCountOtherCabins(slot: Slot, bookings: seq<Booking>, b: Booking, n: int)
    requires n < b.cabin
    requires forall c :: c != b.cabin ==> IsCabinFree(c, slot, bookings + [b]) == IsCabinFree(c, slot, bookings)
    ensures BusyCount(slot, bookings + [b], n) == BusyCount(slot, bookings, n)
    decreases n
  {
    if n >= 1 {
      BusyCountOtherCabins(slot, bookings, b, n - 1);
    }
  }

  /** No two distinct records on the same cabin overlap. */
  predicate NoOverlap(store: seq<Booking>) {
    forall i, j :: 0 <= i < |store| && 0 <= j < |store| && i != j && store[i].cabin == store[j].cabin ==>
      !Overlaps(store[i].start, store[i].end, store[j].start, store[j].end)
  }

  /** Appending keeps the rule exactly when the new record's cabin is free
      over the record's own interval: the re-check every creation path makes. */
  lemma AppendKeepsNoOverlap(store: seq<Booking>, b: Booking)
    ensures NoOverlap(store + [b]) <==> NoOverlap(store) && IsCabinFree(b.cabin, Slot(b.start, b.end), store)
  {
    var s := store + [b];
    var n := |store|;
    if NoOverlap(s) {
      forall x | x in store ensures !Blocks(x, b.cabin, Slot(b.start, b.end)) {
        var i :| 0 <= i < n && store[i] == x;
        assert s[i] == x && s[n] == b;
      }
      forall i, j | 0 <= i < n && 0 <= j < n && i != j && store[i].cabin == store[j].cabin
        ensures !Overlaps(store[i].start, store[i].end, store[j].start, store[j].end)
      {
        assert s[i] == store[i] && s[j] == store[j];
      }
    }
    if NoOverlap(store) && IsCabinFree(b.cabin, Slot(b.start, b.end), store) {
      forall i, j | 0 <= i < |s| && 0 <= j < |s| && i != j && s[i].cabin == s[j].cabin
        ensures !Overlaps(s[i].start, s[i].end, s[j].start, s[j].end)
      {
        if i == n {
          assert s[j] == store[j] && store[j] in store;
        } else if j == n {
          assert s[i] == store[i] && store[i] in store;
        } else {
          assert s[i] == store[i] && s[j] == store[j];
        }
      }
    }
  }

  lemma NoOverlapTail(x: Booking, rest: seq<Booking>)
    requires NoOverlap([x] + rest)
    ensures NoOverlap(rest)
    ensures forall y :: y in rest && y.cabin == x.cabin ==> !Overlaps(x.start, x.end, y.start, y.end)
  {
    var s := [x] + rest;
    forall i, j | 0 <= i < |rest| && 0 <= j < |rest| && i != j && rest[i].cabin == rest[j].cabin
      ensures !Overlaps(rest[i].start, rest[i].end, rest[j].start, rest[j].end)
    {
      assert s[i + 1] == rest[i] && s[j + 1] == rest[j];
    }
    forall y | y in rest && y.cabin == x.cabin ensures !Overlaps(x.start, x.end, y.start, y.end) {
      var j :| 0 <= j < |rest| && rest[j] == y;
      assert s[0] == x && s[j + 1] == y;
    }
  }

  lemma NoOverlapCons(x: Booking, rest: seq<Booking>)
    requires NoOverlap(rest)
    requires forall y :: y in rest && y.cabin == x.cabin ==> !Overlaps(x.start, x.end, y.start, y.end)
    ensures NoOverlap([x] + rest)
  {
    var s := [x] + rest;
    forall i, j | 0 <= i < |s| && 0 <= j < |s| && i != j && s[i].cabin == s[j].cabin
      ensures !Overlaps(s[i].start, s[i].end, s[j].start, s[j].end)
    {
      if i == 0 {
        assert s[j] == rest[j - 1] && rest[j - 1] in rest;
      } else if j == 0 {
        assert s[i] == rest[i - 1] && rest[i - 1] in rest;
      } else {
        assert s[i] == rest[i - 1] && s[j] == rest[j - 1];
      }
    }
  }

  /** Deleting records, as every cancellation path does, keeps the rule. */
  lemma {:induction false} SubsequenceKeepsNoOverlap(a: seq<Booking>, b: seq<Booking>)
    requires Seqs.IsSubsequence(a, b) && NoOverlap(b)
    ensures NoOverlap(a)
    decreases |b|
  {
    if a != [] {
      assert b != [];
      assert b == [b[0]] + b[1..];
      NoOverlapTail(b[0], b[1..]);
      if a[0] == b[0] {
        SubsequenceKeepsNoOverlap(a[1..], b[1..]);
        Seqs.SubsequenceMembers(a[1..], b[1..]);
        NoOverlapCons(a[0], a[1..]);
        assert [a[0]] + a[1..] == a;
      } else {
        SubsequenceKeepsNoOverlap(a, b[1..]);
      }
    }
  }
}

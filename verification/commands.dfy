/**
  Model of the "my bookings" and cancellation commands: the ordinal variant
  of commandHandlers.js and the by-id variant of index.js. Both list the
  caller's records ordered by start time; Array.prototype.sort is stable, so
  records with equal starts keep their stored order.
*/
module Commands {
  import opened Options
  import opened Seqs
  import opened JsText
  import opened Storage
  import opened Replies

  predicate SortedByStart(s: seq<Booking>) {
    forall i, j :: 0 <= i < j < |s| ==> s[i].start <= s[j].start
  }

  /** Places `b` before the first record that starts no earlier than it. */
  function Insert(b: Booking, sorted: seq<Booking>): (r: seq<Booking>)
    ensures multiset(r) == multiset(sorted) + multiset{b}
  {
    if sorted == [] then [b]
    else if b.start <= sorted[0].start then [b] + sorted
    else
      HeadTail(sorted);
      [sorted[0]] + Insert(b, sorted[1..])
  }

  /** Inserting into a sorted sequence keeps it sorted. */
  lemma {:induction false} InsertSorted(b: Booking, sorted: seq<Booking>)
    requires SortedByStart(sorted)
    ensures SortedByStart(Insert(b, sorted))
    ensures Insert(b, sorted)[0] == b || Insert(b, sorted)[0] == sorted[0]
  {
    if sorted == [] {
    } else if b.start <= sorted[0].start {
      assert forall i :: 0 <= i < |sorted| ==> b.start <= sorted[i].start;
    } else {
      var rest := Insert(b, sorted[1..]);
      InsertSorted(b, sorted[1..]);
      assert sorted[0].start <= rest[0].start;
      assert Insert(b, sorted) == [sorted[0]] + rest;
    }
  }

  /** The sort of handleMy and handleCancel: ascending start. */
  function SortByStart(s: seq<Booking>): (r: seq<Booking>)
    ensures SortedByStart(r)
    ensures multiset(r) == multiset(s)
    ensures forall x :: x in r <==> x in s
  {
    if s == [] then []
    else
      HeadTail(s);
      var rest := SortByStart(s[1..]);
      InsertSorted(s[0], rest);
      SameMultisetMembers(Insert(s[0], rest), s);
      Insert(s[0], rest)
  }

  /** The records of `s` that start at minute `k`, in their order. */
  function WithStart(s: seq<Booking>, k: int): seq<Booking> {
    if s == [] then []
    else (if s[0].start == k then [s[0]] else []) + WithStart(s[1..], k)
  }

  lemma WithStartCons(x: Booking, s: seq<Booking>, k: int)
    ensures WithStart([x] + s, k) == (if x.start == k then [x] else []) + WithStart(s, k)
  {
    assert ([x] + s)[1..] == s;
  }

  /** A record that starts before `b` can be moved in front of it without
      changing what either start time selects. */
  lemma WithStartSwap(x: Booking, b: Booking, rest: seq<Booking>, tl: seq<Booking>, k: int)
    requires x.start < b.start
    requires WithStart(rest, k) == (if b.start == k then [b] else []) + WithStart(tl, k)
    ensures WithStart([x] + rest, k) == (if b.start == k then [b] else []) + WithStart([x] + tl, k)
  {
    WithStartCons(x, rest, k);
    WithStartCons(x, tl, k);
  }

  lemma {:induction false} InsertStable(b: Booking, sorted: seq<Booking>, k: int)
    requires SortedByStart(sorted)
    ensures WithStart(Insert(b, sorted), k) == (if b.start == k then [b] else []) + WithStart(sorted, k)
    decreases |sorted|
  {
    if sorted == [] {
    } else if b.start <= sorted[0].start {
      WithStartCons(b, sorted, k);
    } else {
      InsertStable(b, sorted[1..], k);
      assert Insert(b, sorted) == [sorted[0]] + Insert(b, sorted[1..]);
      WithStartSwap(sorted[0], b, Insert(b, sorted[1..]), sorted[1..], k);
      assert [sorted[0]] + sorted[1..] == sorted;
    }
  }

  /** The sort is stable: records with the same start keep their relative order. */
  lemma {:induction false} SortByStartStable(s: seq<Booking>, k: int)
    ensures WithStart(SortByStart(s), k) == WithStart(s, k)
    decreases |s|
  {
    if s != [] {
      var sorted := SortByStart(s[1..]);
      SortByStartStable(s[1..], k);
      InsertStable(s[0], sorted, k);
      WithStartCons(s[0], s[1..], k);
      assert [s[0]] + s[1..] == s;
    }
  }

  /** The caller's records as both handlers number them. */
  function MyBookings(store: Store, phone: string): (items: seq<Booking>)
    ensures forall x :: x in items <==> x in store && x.phone == phone
    ensures SortedByStart(items)
    ensures multiset(items) == multiset(ListByPhone(store, phone))
  {
    var mine := ListByPhone(store, phone);
    SortByStart(mine)
  }

  /** handleMy: the caller's records in start order, or the "no bookings" reply. */
  function HandleMy(store: Store, phone: string): (r: Reply)
    ensures r == NoBookings <==> forall x :: x in store ==> x.phone != phone
    ensures r != NoBookings ==> r == BookingList(MyBookings(store, phone)) && r.items != []
  {
    var items := MyBookings(store, phone);
    if items == [] then NoBookings
    else
      assert items[0] in items;
      BookingList(items)
  }

  /** The first words that introduce an ordinal cancel besides "/cancel". */
  const CancelWords: seq<string> := ["отмена", "отменить", "отказ", "возврат"]

  /** The argument of an ordinal cancel: the second word, read only after a cancel word. */
  function CancelArgument(text: string): (arg: Option<string>)
    ensures arg.Some? <==> |Tokens(text)| >= 2 && (Tokens(text)[0] == "/cancel" || Tokens(text)[0] in CancelWords)
    ensures arg.Some? ==> arg.value == Tokens(text)[1] && arg.value != []
  {
    TokensAreWords(text);
    var parts := Tokens(text);
    if |parts| >= 2 && (parts[0] == "/cancel" || parts[0] in CancelWords) then Some(parts[1]) else None
  }

  /** What the words of an ordinal cancel ask for. */
  datatype OrdinalRequest = NoArgument | NotPositive | Ordinal(n: int)

  /** The argument must read as a whole number of at least one. */
  function ReadOrdinal(text: string): (q: OrdinalRequest)
    ensures q.NoArgument? <==> CancelArgument(text).None?
    ensures q.Ordinal? <==>
              CancelArgument(text).Some? && exists n :: ParseInteger(CancelArgument(text).value) == Some(n) && n >= 1
    ensures q.Ordinal? ==> q.n >= 1 && ParseInteger(CancelArgument(text).value) == Some(q.n)
  {
    match CancelArgument(text)
    case None => NoArgument
    case Some(arg) =>
      var num := ParseInteger(arg);
      if num.Some? && num.value >= 1 then Ordinal(num.value) else NotPositive
  }

  /**
    handleCancel of commandHandlers.js: without a cancel word and an
    argument, with a non-positive or non-integer ordinal, or with an ordinal
    past the caller's list, nothing is removed. Otherwise the records sharing
    the id of the caller's nth booking (in start order) and the caller's
    phone are removed, which always succeeds.
  */
  function CancelByOrdinal(store: Store, text: string, phone: string): (r: (Store, Reply))
    ensures r.1 != CancelFailed
    ensures r.1 == CancelFormat <==> ReadOrdinal(text).NoArgument?
    ensures r.1 == CancelNotPositive <==> ReadOrdinal(text).NotPositive?
    ensures r.1 == CancelNoSuchNumber <==>
              ReadOrdinal(text).Ordinal? && ReadOrdinal(text).n > |MyBookings(store, phone)|
    ensures !r.1.CancelDone? ==> r.0 == store
    ensures ReadOrdinal(text).Ordinal? ==> r == CancelNth(store, ReadOrdinal(text).n, phone)
  {
    match ReadOrdinal(text)
    case NoArgument => (store, CancelFormat)
    case NotPositive => (store, CancelNotPositive)
    case Ordinal(n) => CancelNth(store, n, phone)
  }

  /** The lookup half of handleCancel: the caller's nth booking in start order, if there is one. */
  function CancelNth(store: Store, n: int, phone: string): (r: (Store, Reply))
    requires n >= 1
    ensures r.1.CancelDone? || r.1 == CancelNoSuchNumber
    ensures r.1 == CancelNoSuchNumber <==> n > |MyBookings(store, phone)|
    ensures !r.1.CancelDone? ==> r.0 == store
    ensures r.1.CancelDone? ==>
              var items := MyBookings(store, phone);
              && n <= |items|
              && r.1.id == items[n - 1].id
              && r.0 == RemoveById(store, items[n - 1].id, phone).0
  {
    var items := MyBookings(store, phone);
    if n > |items| then (store, CancelNoSuchNumber)
    else
      var b := items[n - 1];
      assert b in items;
      var (kept, ok) := RemoveById(store, b.id, phone);
      (kept, if ok then CancelDone(b.id) else CancelFailed)
  }

  /** Cancelling the caller's nth booking removes it and only records with its id and the caller's phone. */
  lemma CancelNthRemovesThatBooking(store: Store, n: int, phone: string)
    requires 1 <= n <= |MyBookings(store, phone)|
    ensures var b := MyBookings(store, phone)[n - 1];
            var r := CancelNth(store, n, phone);
            && r.1 == CancelDone(b.id)
            && b !in r.0
            && (forall x :: x in r.0 <==> x in store && !Owns(x, b.id, phone))
  {
    var b := MyBookings(store, phone)[n - 1];
    assert b in MyBookings(store, phone);
  }

  /** An ordinal cancel only deletes: the order of the remaining records is
      kept and nobody else's records are touched. */
  lemma CancelByOrdinalOnlyRemoves(store: Store, text: string, phone: string)
    ensures var r := CancelByOrdinal(store, text, phone);
            && IsSubsequence(r.0, store)
            && (forall x :: x in store && x.phone != phone ==> x in r.0)
  {
    var r := CancelByOrdinal(store, text, phone);
    if !r.1.CancelDone? {
      SubsequenceRefl(store);
    }
  }

  lemma SpellingIsWord(n: int)
    ensures IsWord(IntToString(n))
  {
    var arg := IntToString(n);
    forall i | 0 <= i < |arg| ensures !IsSpace(arg[i]) {
      if n >= 0 {
        assert IsDigit(arg[i]);
      } else if i > 0 {
        assert arg[i] == NatToString(-n)[i - 1];
      }
    }
  }

  /** The words of the command a user types to cancel by number. */
  lemma CancelCommandWords(n: int)
    ensures Tokens("/cancel " + IntToString(n)) == ["/cancel", IntToString(n)]
  {
    SpellingIsWord(n);
    CancelIsWord();
    TokensOfPair("/cancel", IntToString(n));
  }

  lemma CancelIsWord()
    ensures IsWord("/cancel") && "/cancel" + " " == "/cancel "
  {
  }

  /** The command a user types to cancel by number reads back as that number. */
  lemma CancelCommandReadsBack(n: int)
    ensures CancelArgument("/cancel " + IntToString(n)) == Some(IntToString(n))
  {
    CancelCommandWords(n);
  }

  /** The number a "my bookings" line shows is the number that cancels that booking. */
  lemma ShownNumberCancelsThatBooking(store: Store, phone: string, n: int)
    requires HandleMy(store, phone).BookingList?
    requires 1 <= n <= |HandleMy(store, phone).items| && n <= MaxSafe
    ensures var b := HandleMy(store, phone).items[n - 1];
            var r := CancelByOrdinal(store, "/cancel " + IntToString(n), phone);
            r.1 == CancelDone(b.id) && b !in r.0
  {
    var text := "/cancel " + IntToString(n);
    CancelCommandReadsBack(n);
    ParseIntegerOfSpelling(n);
    assert ReadOrdinal(text) == Ordinal(n);
    CancelNthRemovesThatBooking(store, n, phone);
  }

  /**
    handleCancel of index.js: the second word is a record id; without one
    nothing is removed, otherwise exactly the caller's records with that id
    are removed and the reply says whether there were any.
  */
  function CancelById(store: Store, text: string, phone: string): (r: (Store, Reply))
    ensures r.1 == CancelFormat <==> |Tokens(text)| < 2
    ensures r.1 == CancelFormat ==> r.0 == store
    ensures r.1 != CancelFormat ==>
              var id := Tokens(text)[1];
              && (r.1 == CancelDone(id) <==> exists x :: x in store && Owns(x, id, phone))
              && (r.1 != CancelDone(id) ==> r.1 == CancelNotFound(id) && r.0 == store)
              && (forall x :: x in r.0 <==> x in store && !Owns(x, id, phone))
    ensures IsSubsequence(r.0, store)
  {
    var parts := Tokens(text);
    if |parts| < 2 then SubsequenceRefl(store); (store, CancelFormat)
    else
      var id := parts[1];
      var (kept, ok) := RemoveById(store, id, phone);
      (kept, if ok then CancelDone(id) else CancelNotFound(id))
  }
}

/**
  Model of the decision logic of admin/api.js: each route is a function from
  the request and the store to the new store and the reply, whose status code
  is given by a separate function. The Express plumbing is not modelled.
*/
module Admin {
  import opened Options
  import opened Seqs
  import opened Utils
  import opened Schedule
  import opened Storage
  import opened Availability
  import opened Wizard

  /**
    A field of a JSON request body as the handler sees it: absent (or any
    other falsy value except the number zero), a number, or a non-empty
    string of decimal digits whose `parseInt` value is `n`.
    Reading `n` as the field's `parseInt` value holds only for a number with
    |n| < 10^21 and a digit text with n <= 2^53: `parseInt` reads a number of
    10^21 or more from its exponent spelling ("1e+21" gives 1) and rounds a
    longer digit text to the nearest double.
  */
  datatype Field = Missing | Num(n: int) | Text(n: int)

  /** JavaScript truthiness: an absent field and the number 0 are falsy, a non-empty string is truthy. */
  predicate Truthy(f: Field) {
    f.Text? || (f.Num? && f.n != 0)
  }

  /** The body of POST /bookings. Start and end are minutes; None is an absent or empty text. */
  datatype PostRequest = PostRequest(
    phone: string,
    cabin: Field,
    start: Option<int>,
    end: Option<int>,
    people: Field,
    adults: Field,
    children: Field,
    totalPrice: Field)

  datatype PostReply = MissingFields | PastStart | CabinBusy | Created(booking: Booking)

  function PostCode(r: PostReply): int {
    match r
    case MissingFields => 400
    case PastStart => 400
    case CabinBusy => 409
    case Created(_) => 201
  }

  /** One of phone, cabin, start, end or party size is falsy. */
  predicate Incomplete(req: PostRequest) {
    req.phone == [] || !Truthy(req.cabin) || req.start.None? || req.end.None? || !Truthy(req.people)
  }

  /** The record a successful POST stores: the cabin and party size as
      `parseInt` reads them, the given total price or party size times the
      per-person rate, adults and children defaulting to 0, status pending. */
  function AdminRecord(cfg: Config, id: string, now: int, req: PostRequest): (b: Booking)
    requires !Incomplete(req)
    ensures b.cabin == req.cabin.n && b.start == req.start.value && b.end == req.end.value
    ensures b.phone == req.phone && b.id == id && b.createdAt == now
    ensures b.people == Some(req.people.n)
    ensures b.price == Some(if Truthy(req.totalPrice) then req.totalPrice.n else req.people.n * cfg.pricePerPerson)
    ensures b.adults == Some(if Truthy(req.adults) then req.adults.n else 0)
    ensures b.children == Some(if Truthy(req.children) then req.children.n else 0)
    ensures b.status == Some(Pending)
  {
    var price := if Truthy(req.totalPrice) then req.totalPrice.n else req.people.n * cfg.pricePerPerson;
    Booking(id, req.phone, req.cabin.n, req.start.value, req.end.value, Some(req.people.n), Some(price),
            Some(if req.adults.Missing? then 0 else req.adults.n),
            Some(if req.children.Missing? then 0 else req.children.n), Some(Pending), now)
  }

  /** The conflict loop as written: `booking.cabinNumber === cabinNumber` on the raw field,
      so only a numeric field can match a stored (numeric) cabin. */
  predicate ClashAsWritten(store: Store, req: PostRequest)
    requires !Incomplete(req)
  {
    exists b :: b in store && req.cabin == Num(b.cabin) && Overlaps(req.start.value, req.end.value, b.start, b.end)
  }

  /** The conflict test on the cabin number the record will carry. */
  predicate Clash(store: Store, req: PostRequest)
    requires !Incomplete(req)
  {
    !IsCabinFree(req.cabin.n, Slot(req.start.value, req.end.value), store)
  }

  /** The order of the checks of the POST handler, given the outcome of its conflict test. */
  function Decide(cfg: Config, id: string, now: int, store: Store, req: PostRequest, clash: bool): (r: (Store, PostReply))
  {
    if Incomplete(req) then (store, MissingFields)
    else if req.start.value < now then (store, PastStart)
    else if clash then (store, CabinBusy)
    else
      var b := AdminRecord(cfg, id, now, req);
      (store + [b], Created(b))
  }

  /** POST /bookings exactly as written. */
  function PostAsWritten(cfg: Config, id: string, now: int, store: Store, req: PostRequest): (r: (Store, PostReply))
    ensures r.1 == MissingFields <==> Incomplete(req)
    ensures r.1 == PastStart <==> !Incomplete(req) && req.start.value < now
    ensures r.1 == CabinBusy <==> !Incomplete(req) && req.start.value >= now && ClashAsWritten(store, req)
    ensures r.1.Created? ==> r.0 == store + [r.1.booking] && r.1.booking == AdminRecord(cfg, id, now, req)
    ensures !r.1.Created? ==> r.0 == store
  {
    Decide(cfg, id, now, store, req, !Incomplete(req) && ClashAsWritten(store, req))
  }

  /**
    POST /bookings with the conflict test on the parsed cabin number: every
    rejection leaves the store alone, a success appends exactly one record,
    and the no-overlap rule is kept.
  */
  function Post(cfg: Config, id: string, now: int, store: Store, req: PostRequest): (r: (Store, PostReply))
    ensures r.1 == MissingFields <==> Incomplete(req)
    ensures r.1 == PastStart <==> !Incomplete(req) && req.start.value < now
    ensures r.1 == CabinBusy <==> !Incomplete(req) && req.start.value >= now && Clash(store, req)
    ensures r.1.Created? ==> r.0 == store + [r.1.booking] && r.1.booking == AdminRecord(cfg, id, now, req)
    ensures !r.1.Created? ==> r.0 == store
    ensures NoOverlap(store) ==> NoOverlap(r.0)
  {
    var r := Decide(cfg, id, now, store, req, !Incomplete(req) && Clash(store, req));
    if Incomplete(req) then r
    else
      AppendKeepsNoOverlap(store, AdminRecord(cfg, id, now, req));
      r
  }

  /** A numeric clash is caught by both tests; the two differ only on a textual cabin. */
  lemma ClashTestsAgreeOnNumbers(store: Store, req: PostRequest)
    requires !Incomplete(req) && req.cabin.Num?
    ensures ClashAsWritten(store, req) <==> Clash(store, req)
  {
    if Clash(store, req) {
      var b :| b in store && Blocks(b, req.cabin.n, Slot(req.start.value, req.end.value));
      OverlapsSymmetric(b.start, b.end, req.start.value, req.end.value);
    }
  }

  /**
    The cabin "1" as a string slips past the conflict loop: with cabin 1 booked
    for 10:00-11:00, posting the same cabin and hour creates a second record
    and the store now holds two overlapping bookings of cabin 1.
  */
  lemma TextCabinDoubleBooks(cfg: Config)
    ensures var held := Booking("a", "p", 1, 600, 660, None, None, None, None, None, 0);
            var req := PostRequest("q", Text(1), Some(600), Some(660), Num(2), Missing, Missing, Missing);
            var r := PostAsWritten(cfg, "b", 0, [held], req);
            && NoOverlap([held])
            && r.1.Created? && r.1.booking.cabin == 1
            && !NoOverlap(r.0)
  {
    var held := Booking("a", "p", 1, 600, 660, None, None, None, None, None, 0);
    var req := PostRequest("q", Text(1), Some(600), Some(660), Num(2), Missing, Missing, Missing);
    var r := PostAsWritten(cfg, "b", 0, [held], req);
    assert !ClashAsWritten([held], req);
    assert r.0[0].cabin == r.0[1].cabin;
  }

  /** A start equal to the current minute is accepted, and a party size of 0 counts as missing. */
  lemma PostBoundaries(cfg: Config, id: string, now: int, store: Store, req: PostRequest)
    ensures req.people == Num(0) ==> Post(cfg, id, now, store, req).1 == MissingFields
    ensures !Incomplete(req) && req.start.value == now && !Clash(store, req) ==>
              Post(cfg, id, now, store, req).1.Created?
  {
  }

  /** A single guest is charged the per-person rate here, not the single rate the extended wizard uses. */
  lemma AdminPriceHasNoSingleRate(cfg: Config, id: string, now: int, req: PostRequest)
    requires !Incomplete(req) && req.people.n == 1 && !Truthy(req.totalPrice)
    ensures AdminRecord(cfg, id, now, req).price == Some(cfg.pricePerPerson)
    ensures cfg.priceSingle != cfg.pricePerPerson ==>
              AdminRecord(cfg, id, now, req).price != Some(Price(cfg, 1))
  {
  }

  datatype PatchReply = InvalidStatus | Updated(booking: Booking) | NotFound | ServerError

  function PatchCode(r: PatchReply): int {
    match r
    case InvalidStatus => 400
    case Updated(_) => 200
    case NotFound => 404
    case ServerError => 500
  }

  /** The accepted status words; anything else, absent included, is None. */
  function ReadStatus(status: Option<string>): (r: Option<Status>)
    ensures r == Some(Pending) <==> status == Some("pending")
    ensures r == Some(Paid) <==> status == Some("paid")
  {
    if status == Some("pending") then Some(Pending)
    else if status == Some("paid") then Some(Paid)
    else None
  }

  /** PATCH /bookings/:id/status as written: the store has no `updateStatus`,
      so every request that passes validation ends in the catch block. */
  function PatchAsWritten(id: string, status: Option<string>): (r: PatchReply)
    ensures r == InvalidStatus <==> ReadStatus(status).None?
    ensures r != InvalidStatus ==> PatchCode(r) == 500
  {
    if ReadStatus(status).None? then InvalidStatus else ServerError
  }

  /**
    PATCH with the store's answer `found` (the record after the update, or
    None) given as a parameter: 400 for a bad status, otherwise the record or
    404, and never a server error.
  */
  function Patch(id: string, status: Option<string>, found: Option<Booking>): (r: PatchReply)
    ensures PatchCode(r) == 400 <==> ReadStatus(status).None?
    ensures PatchCode(r) == 404 <==> ReadStatus(status).Some? && found.None?
    ensures PatchCode(r) == 200 <==> ReadStatus(status).Some? && found.Some?
    ensures r.Updated? ==> Some(r.booking) == found
    ensures PatchCode(r) != 500
  {
    if ReadStatus(status).None? then InvalidStatus
    else if found.None? then NotFound
    else Updated(found.value)
  }

  /** The corrected handler answers exactly where the written one fails. */
  lemma PatchFailsOnlyOnValidStatus(id: string, status: Option<string>, found: Option<Booking>)
    ensures PatchCode(PatchAsWritten(id, status)) == 500 <==> PatchCode(Patch(id, status, found)) != 400
  {
  }

  datatype DeleteReply = PhoneRequired | Deleted | DeleteNotFound

  function DeleteCode(r: DeleteReply): int {
    match r
    case PhoneRequired => 400
    case Deleted => 200
    case DeleteNotFound => 404
  }

  /** DELETE /bookings/:id?phone=: a phone is required; then the store's removal decides 200 or 404. */
  function Delete(store: Store, id: string, phone: string): (r: (Store, DeleteReply))
    ensures r.1 == PhoneRequired <==> phone == []
    ensures phone == [] ==> r.0 == store
    ensures phone != [] ==> r.0 == RemoveById(store, id, phone).0
    ensures r.1 == Deleted <==> phone != [] && exists b :: b in store && Owns(b, id, phone)
    ensures r.1 != Deleted ==> r.0 == store
    ensures NoOverlap(store) ==> NoOverlap(r.0)
  {
    if phone == [] then (store, PhoneRequired)
    else
      var (kept, ok) := RemoveById(store, id, phone);
      var reply := if ok then Deleted else DeleteNotFound;
      if NoOverlap(store) then
        SubsequenceKeepsNoOverlap(kept, store);
        (kept, reply)
      else (kept, reply)
  }

  /** One line of GET /slots/:date. */
  datatype SlotRow = SlotRow(slot: Slot, available: int, isFull: bool)

  /** GET /slots/:date: one row per generated slot, in order, with its free count. */
  function SlotRows(cfg: Config, day: Date, store: Store): (rows: seq<SlotRow>)
    ensures |rows| == |BuildSlots(cfg, day)|
    ensures forall i :: 0 <= i < |rows| ==>
              && rows[i].slot == BuildSlots(cfg, day)[i]
              && rows[i].available == CountFreeCabins(rows[i].slot, store, cfg.cabinCount)
              && (rows[i].isFull <==> rows[i].available == 0)
  {
    var slots := BuildSlots(cfg, day);
    seq(|slots|, i requires 0 <= i < |slots| =>
      var free := CountFreeCabins(slots[i], store, cfg.cabinCount);
      SlotRow(slots[i], free, free == 0))
  }

  /** The admin table and the wizard's slot list agree: a slot is offered to
      chat users exactly when its row is not full. */
  lemma RowsAgreeWithWizard(cfg: Config, day: Date, store: Store, x: Slot)
    requires cfg.cabinCount >= 0
    ensures x in OpenSlots(BuildSlots(cfg, day), store, cfg.cabinCount) <==>
              exists i :: 0 <= i < |SlotRows(cfg, day, store)| && SlotRows(cfg, day, store)[i].slot == x
                          && !SlotRows(cfg, day, store)[i].isFull
  {
    var slots := BuildSlots(cfg, day);
    var rows := SlotRows(cfg, day, store);
    if x in OpenSlots(slots, store, cfg.cabinCount) {
      var i :| 0 <= i < |slots| && slots[i] == x;
      assert rows[i].slot == x && !rows[i].isFull;
    }
  }
}

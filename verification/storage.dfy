/**
  Model of storage.js with the JSON file replaced by an in-memory sequence:
  the store is the list of booking records in file order. The store checks
  nothing; the no-overlap rule is kept by the code that calls `Add`.
*/
module Storage {
  import opened Options
  import opened Seqs

  datatype Status = Pending | Paid

  /**
    A booking record. Times are minutes. The minimal wizard writes neither
    party size nor price; only the admin path writes adults, children and
    status.
  */
  datatype Booking = Booking(
    id: string,
    phone: string,
    cabin: int,
    start: int,
    end: int,
    people: Option<int>,
    price: Option<int>,
    adults: Option<int>,
    children: Option<int>,
    status: Option<Status>,
    createdAt: int)

  /** The booking file's array, in file order. `storage.list` returns it as it is,
      so every caller of `list` reads the store itself. */
  type Store = seq<Booking>

  /** storage.add: appends the booking after every earlier record and returns it. */
  function Add(store: Store, b: Booking): (r: (Store, Booking))
    ensures |r.0| == |store| + 1
    ensures r.0[..|store|] == store && r.0[|store|] == b
    ensures multiset(r.0) == multiset(store) + multiset{b}
    ensures r.1 == b
  {
    (store + [b], b)
  }

  /** The ownership test of removeById: both the id and the phone match. */
  predicate Owns(b: Booking, id: string, phone: string) {
    b.id == id && b.phone == phone
  }

  /** storage.removeById: keeps every record the caller does not own, and
      reports whether the store shrank. */
  function RemoveById(store: Store, id: string, phone: string): (r: (Store, bool))
    ensures forall b :: b in r.0 <==> b in store && !Owns(b, id, phone)
    ensures IsSubsequence(r.0, store)
    ensures r.1 <==> exists b :: b in store && Owns(b, id, phone)
    ensures !r.1 ==> r.0 == store
  {
    var kept := Filter(store, b => !Owns(b, id, phone));
    FilterKeepsAll(store, b => !Owns(b, id, phone));
    (kept, |kept| != |store|)
  }

  /** Removal works record by record: the kept part of a concatenation is the
      concatenation of the kept parts, so survivors keep their order. */
  lemma RemoveByIdAppend(a: Store, b: Store, id: string, phone: string)
    ensures RemoveById(a + b, id, phone).0 == RemoveById(a, id, phone).0 + RemoveById(b, id, phone).0
  {
    FilterAppend(a, b, x => !Owns(x, id, phone));
  }

  /** A second identical removal finds nothing and changes nothing. */
  lemma RemoveByIdTwice(store: Store, id: string, phone: string)
    ensures var once := RemoveById(store, id, phone).0;
            RemoveById(once, id, phone) == (once, false)
  {
  }

  /** storage.listByPhone: the caller's records in file order. */
  function ListByPhone(store: Store, phone: string): (mine: Store)
    ensures forall b :: b in mine <==> b in store && b.phone == phone
    ensures IsSubsequence(mine, store)
  {
    Filter(store, (b: Booking) => b.phone == phone)
  }

  lemma ListByPhoneAppend(a: Store, b: Store, phone: string)
    ensures ListByPhone(a + b, phone) == ListByPhone(a, phone) + ListByPhone(b, phone)
  {
    FilterAppend(a, b, (x: Booking) => x.phone == phone);
  }

  /** Removing with a phone drops the removed id from that phone's listing and
      leaves every other phone's listing as it was. */
  lemma RemoveByIdListing(store: Store, id: string, phone: string, other: string)
    ensures var kept := RemoveById(store, id, phone).0;
            && (forall b :: b in ListByPhone(kept, phone) ==> b.id != id)
            && (other != phone ==> ListByPhone(kept, other) == ListByPhone(store, other))
  {
    var kept := RemoveById(store, id, phone).0;
    if other != phone {
      RemoveKeepsOtherPhones(store, id, phone, other);
    }
  }

  lemma {:induction false} RemoveKeepsOtherPhones(store: Store, id: string, phone: string, other: string)
    requires other != phone
    ensures ListByPhone(RemoveById(store, id, phone).0, other) == ListByPhone(store, other)
  {
    if store != [] {
      var x := store[0];
      assert store == [x] + store[1..];
      RemoveByIdAppend([x], store[1..], id, phone);
      ListByPhoneAppend([x], store[1..], other);
      RemoveKeepsOtherPhones(store[1..], id, phone, other);
      var k1 := RemoveById([x], id, phone).0;
      ListByPhoneAppend(k1, RemoveById(store[1..], id, phone).0, other);
      assert ListByPhone(k1, other) == ListByPhone([x], other) by {
        if Owns(x, id, phone) {
          assert k1 == [] by { assert x !in k1; assert |k1| <= 1; }
        } else {
          assert k1 == [x] by { assert x in k1; assert |k1| <= 1; }
        }
      }
    }
  }
}

/** The `subscribers` collection shared by the routes, as an in-memory sequence of records.
    The backend may fail on any call; a failed call changes nothing. */
module Store {
  import opened Values

  /** Creation time of a record, set once by the registration handler and never read. */
  type Timestamp = nat

  datatype Subscriber = Subscriber(
    fullName: string,
    phoneNumber: string,
    optInCompleted: bool,
    unsubscribed: bool,
    createdAt: Timestamp)

  /** The consent state named by the flag pair `(opt_in_completed, unsubscribed)`. */
  datatype Consent = Pending | Confirmed | OptedOut | ConfirmedAndOptedOut

  function ConsentOf(s: Subscriber): (c: Consent)
    ensures c == ConfirmedAndOptedOut <==> s.optInCompleted && s.unsubscribed
    ensures c == Pending <==> !s.optInCompleted && !s.unsubscribed
  {
    if s.optInCompleted then (if s.unsubscribed then ConfirmedAndOptedOut else Confirmed)
    else (if s.unsubscribed then OptedOut else Pending)
  }

  /** A record is consistent when it is not confirmed and opted out at once. */
  predicate Consistent(s: Subscriber) {
    ConsentOf(s) != ConfirmedAndOptedOut
  }

  predicate AllConsistent(rs: seq<Subscriber>) {
    forall k :: 0 <= k < |rs| ==> Consistent(rs[k])
  }

  /** A partial update of the two flags, as passed to the store's `update`; `None` leaves a flag alone. */
  datatype FlagUpdate = FlagUpdate(optInCompleted: Option<bool>, unsubscribed: Option<bool>)

  function Apply(s: Subscriber, u: FlagUpdate): (r: Subscriber)
    ensures r.fullName == s.fullName && r.phoneNumber == s.phoneNumber && r.createdAt == s.createdAt
    ensures u.optInCompleted.Some? ==> r.optInCompleted == u.optInCompleted.value
    ensures u.unsubscribed.Some? ==> r.unsubscribed == u.unsubscribed.value
    ensures u.optInCompleted.None? ==> r.optInCompleted == s.optInCompleted
    ensures u.unsubscribed.None? ==> r.unsubscribed == s.unsubscribed
  {
    s.(optInCompleted := if u.optInCompleted.Some? then u.optInCompleted.value else s.optInCompleted,
       unsubscribed := if u.unsubscribed.Some? then u.unsubscribed.value else s.unsubscribed)
  }

  /** An update that assigns both flags leaves the record in the state it names, whatever its state was. */
  lemma ApplyBoth(s: Subscriber, optIn: bool, unsub: bool)
    ensures var r := Apply(s, FlagUpdate(Some(optIn), Some(unsub)));
      r.optInCompleted == optIn && r.unsubscribed == unsub && r == s.(optInCompleted := optIn, unsubscribed := unsub)
  {
  }

  /** `update(u).eq('phone_number', phone)`: every record whose key is exactly `phone` gets `u`. */
  function UpdateAll(rs: seq<Subscriber>, phone: string, u: FlagUpdate): (r: seq<Subscriber>)
    ensures |r| == |rs|
    ensures forall k :: 0 <= k < |rs| && rs[k].phoneNumber == phone ==> r[k] == Apply(rs[k], u)
    ensures forall k :: 0 <= k < |rs| && rs[k].phoneNumber != phone ==> r[k] == rs[k]
  {
    if rs == [] then []
    else [if rs[0].phoneNumber == phone then Apply(rs[0], u) else rs[0]] + UpdateAll(rs[1..], phone, u)
  }

  /** Updating the matching records twice with the same flags is updating them once. */
  lemma UpdateAllIdempotent(rs: seq<Subscriber>, phone: string, u: FlagUpdate)
    ensures UpdateAll(UpdateAll(rs, phone, u), phone, u) == UpdateAll(rs, phone, u)
  {
  }

  /** A number that no record carries updates nothing. */
  lemma UpdateAllNoMatch(rs: seq<Subscriber>, phone: string, u: FlagUpdate)
    requires forall k :: 0 <= k < |rs| ==> rs[k].phoneNumber != phone
    ensures UpdateAll(rs, phone, u) == rs
  {
  }

  /** `where('phone_number', '==', phone).get()` followed by `docs[0]`: the position of the first
      record whose key is exactly `phone`, if there is one. */
  function FirstMatch(rs: seq<Subscriber>, phone: string): (r: Option<nat>)
    ensures r.Some? ==> r.value < |rs| && rs[r.value].phoneNumber == phone
    ensures r.Some? ==> forall k :: 0 <= k < r.value ==> rs[k].phoneNumber != phone
    ensures r.None? <==> forall k :: 0 <= k < |rs| ==> rs[k].phoneNumber != phone
  {
    if rs == [] then None
    else if rs[0].phoneNumber == phone then Some(0)
    else match FirstMatch(rs[1..], phone)
      case None => None
      case Some(i) => Some(i + 1)
  }

  /** The first match depends on the keys of the records only, so a flag update does not move it. */
  lemma FirstMatchSameKeys(rs: seq<Subscriber>, ts: seq<Subscriber>, phone: string)
    requires |rs| == |ts|
    requires forall k :: 0 <= k < |rs| ==> rs[k].phoneNumber == ts[k].phoneNumber
    ensures FirstMatch(ts, phone) == FirstMatch(rs, phone)
  {
    var a, b := FirstMatch(rs, phone), FirstMatch(ts, phone);
    if a.Some? {
      assert ts[a.value].phoneNumber == phone;
    }
    if b.Some? {
      assert rs[b.value].phoneNumber == phone;
    }
  }

  /** The subscriber store. `records` is the collection, in the order its queries return them. */
  class SubscriberStore {
    var records: seq<Subscriber>

    constructor (initial: seq<Subscriber>)
      ensures records == initial
    {
      records := initial;
    }

    /** `collection('subscribers').add(s)`. */
    method Add(s: Subscriber, fails: bool) returns (ok: bool)
      modifies this
      ensures ok == !fails
      ensures records == if ok then old(records) + [s] else old(records)
    {
      ok := !fails;
      if ok {
        records := records + [s];
      }
    }

    /** `from('subscribers').update(u).eq('phone_number', phone)`, applied to all matching records at once. */
    method UpdateWhere(phone: string, u: FlagUpdate, fails: bool) returns (ok: bool)
      modifies this
      ensures ok == !fails
      ensures records == if ok then UpdateAll(old(records), phone, u) else old(records)
    {
      ok := !fails;
      if ok {
        records := UpdateAll(records, phone, u);
      }
    }

    /** `where('phone_number', '==', phone).get()`, reduced to what the handlers use of the
        snapshot: whether it is empty and which record comes first. */
    method Query(phone: string, fails: bool) returns (ok: bool, first: Option<nat>)
      ensures ok == !fails
      ensures ok ==> first == FirstMatch(records, phone)
      ensures !ok ==> first == None
      ensures first.Some? ==> first.value < |records| && records[first.value].phoneNumber == phone
    {
      ok := !fails;
      first := if ok then FirstMatch(records, phone) else None;
    }

    /** `docRef.update(u)` on the record at position `i`. */
    method UpdateAt(i: nat, u: FlagUpdate, fails: bool) returns (ok: bool)
      requires i < |records|
      modifies this
      ensures ok == !fails
      ensures records == if ok then old(records)[i := Apply(old(records)[i], u)] else old(records)
    {
      ok := !fails;
      if ok {
        records := records[i := Apply(records[i], u)];
      }
    }
  }
}

/** The provider webhook route: inbound keywords compared in lower case, with synonyms,
    applied to every record whose number equals `From`. */
module Webhook {
  import opened Values
  import opened Text
  import opened Store

  datatype Keyword = Yes | Stop | Start | Other

  /** `body.trim().toLowerCase()` compared with `yes`/`y`, `stop`/`unsubscribe` and `start`. */
  function ParseKeyword(body: string): Keyword {
    var normalized := ToLower(Trim(body));
    if normalized == "yes" || normalized == "y" then Yes
    else if normalized == "stop" || normalized == "unsubscribe" then Stop
    else if normalized == "start" then Start
    else Other
  }

  /** Keywords are recognised in any mix of upper and lower case, and only then. */
  lemma {:induction false} ParseKeywordIgnoresCase(body: string)
    ensures ParseKeyword(body) == Yes <==>
      EqualIgnoringCase(Trim(body), "yes") || EqualIgnoringCase(Trim(body), "y")
    ensures ParseKeyword(body) == Stop <==>
      EqualIgnoringCase(Trim(body), "stop") || EqualIgnoringCase(Trim(body), "unsubscribe")
    ensures ParseKeyword(body) == Start <==> EqualIgnoringCase(Trim(body), "start")
  {
    var t := Trim(body);
    ToLowerIsKeyword(t, "yes");
    ToLowerIsKeyword(t, "y");
    ToLowerIsKeyword(t, "stop");
    ToLowerIsKeyword(t, "unsubscribe");
    ToLowerIsKeyword(t, "start");
  }

  /** Whitespace around the body does not change the keyword. */
  lemma {:induction false} ParseKeywordPadded(p: string, body: string, q: string)
    requires AllWhitespace(p) && AllWhitespace(q)
    ensures ParseKeyword(p + body + q) == ParseKeyword(body)
  {
    TrimPadded(p, body, q);
  }

  /** The flags each keyword writes. YES writes `opt_in_completed` only. */
  function UpdateFor(k: Keyword): (u: FlagUpdate)
    requires k != Other
    ensures u.optInCompleted.Some? && u.optInCompleted.value == (k != Stop)
    ensures u.unsubscribed.Some? <==> k != Yes
    ensures u.unsubscribed.Some? ==> u.unsubscribed.value == (k == Stop)
  {
    match k
    case Yes => FlagUpdate(Some(true), None)
    case Stop => FlagUpdate(Some(false), Some(true))
    case Start => FlagUpdate(Some(true), Some(false))
  }

  datatype Reply =
    | ConfirmationReply // 200, thanks the subscriber for confirming
    | ApologyReply      // 500, asks the subscriber to try again later
    | SilentReply       // 200, empty reply: the provider sends its own opt-out notice
    | WelcomeBackReply  // 200, welcomes the subscriber back
    | GuidanceReply     // 200, tells the subscriber to reply YES to confirm or STOP to opt out
    | ErrorReply        // 500, the request itself could not be handled

  function StatusOf(r: Reply): (status: int)
    ensures status == 500 <==> r == ApologyReply || r == ErrorReply
    ensures status == 200 || status == 500
  {
    match r
    case ApologyReply => 500
    case ErrorReply => 500
    case _ => 200
  }

  datatype Outcome = Outcome(reply: Reply, records: seq<Subscriber>)

  /** What `POST` does, as a function of the collection before it. A missing `Body` makes `trim`
      throw. A store error fails the YES branch but is only logged on the STOP and START branches. */
  function Respond(records: seq<Subscriber>, from: string, body: Option<string>, updateFails: bool): (o: Outcome)
    ensures |o.records| == |records|
    ensures updateFails ==> o.records == records
  {
    if body.None? then Outcome(ErrorReply, records)
    else
      var k := ParseKeyword(body.value);
      if k == Other then Outcome(GuidanceReply, records)
      else
        var updated := if updateFails then records else UpdateAll(records, from, UpdateFor(k));
        var reply := match k
          case Yes => if updateFails then ApologyReply else ConfirmationReply
          case Stop => SilentReply
          case Start => WelcomeBackReply;
        Outcome(reply, updated)
  }

  method HandleWebhook(store: SubscriberStore, from: string, body: Option<string>, updateFails: bool)
    returns (reply: Reply)
    modifies store
    ensures Outcome(reply, store.records) == Respond(old(store.records), from, body, updateFails)
  {
    if body.None? {
      return ErrorReply;
    }
    var k := ParseKeyword(body.value);
    match k {
      case Yes =>
        var ok := store.UpdateWhere(from, UpdateFor(k), updateFails);
        if !ok {
          return ApologyReply;
        }
        return ConfirmationReply;
      case Stop =>
        var ok := store.UpdateWhere(from, UpdateFor(k), updateFails);
        return SilentReply;
      case Start =>
        var ok := store.UpdateWhere(from, UpdateFor(k), updateFails);
        return WelcomeBackReply;
      case Other =>
        return GuidanceReply;
    }
  }

  // ---------------------------------------------------------------------------
  // properties of one inbound message

  /** YES sets `opt_in_completed` on every record whose number is exactly `From`, leaves
      `unsubscribed` as it was, and leaves every other record alone. */
  lemma YesConfirmsAllMatches(records: seq<Subscriber>, from: string, body: string)
    requires ParseKeyword(body) == Yes
    ensures var o := Respond(records, from, Some(body), false);
      && o.reply == ConfirmationReply
      && (forall k :: 0 <= k < |records| && records[k].phoneNumber == from ==>
            o.records[k] == records[k].(optInCompleted := true))
      && (forall k :: 0 <= k < |records| && records[k].phoneNumber != from ==> o.records[k] == records[k])
  {
  }

  /** Because YES leaves `unsubscribed` alone, an opted-out record that answers YES ends up
      both confirmed and opted out. */
  lemma YesAfterStopConflicts(records: seq<Subscriber>, from: string, body: string, i: nat)
    requires ParseKeyword(body) == Yes
    requires i < |records| && records[i].phoneNumber == from && ConsentOf(records[i]) == OptedOut
    ensures var o := Respond(records, from, Some(body), false);
      ConsentOf(o.records[i]) == ConfirmedAndOptedOut && !AllConsistent(o.records)
  {
    YesConfirmsAllMatches(records, from, body);
  }

  /** The upper-case keyword, with or without surrounding spaces, is YES. */
  lemma YesExample(t: string)
    requires t == "YES"
    ensures ParseKeyword(t) == Yes
  {
    TrimCharacterized(t, 0, 3);
    assert t[0..3] == t;
    LowerYes(t);
  }

  /** Surrounding spaces are trimmed before the keyword is compared. */
  lemma PaddedYesExample(padded: string)
    requires padded == " YES "
    ensures ParseKeyword(padded) == Yes
  {
    TrimCharacterized(padded, 1, 4);
    LowerYes(padded[1..4]);
  }

  lemma LowerYes(t: string)
    requires t == "YES"
    ensures ToLower(t) == "yes"
  {
    assert t[1..] == "ES" && t[1..][1..] == "S" && t[1..][1..][1..] == "";
    calc {
      ToLower(t);
      [LowerChar('Y')] + ToLower("ES");
      "y" + ([LowerChar('E')] + ToLower("S"));
      "y" + ("e" + ([LowerChar('S')] + ToLower("")));
      "yes";
    }
  }

  /** STOP (or UNSUBSCRIBE) and START set both flags on every matching record, whatever its state was. */
  lemma StopAndStartSetBothFlags(records: seq<Subscriber>, from: string, body: string)
    requires ParseKeyword(body) == Stop || ParseKeyword(body) == Start
    ensures var o := Respond(records, from, Some(body), false);
      var stop := ParseKeyword(body) == Stop;
      && o.reply == (if stop then SilentReply else WelcomeBackReply)
      && (forall k :: 0 <= k < |records| && records[k].phoneNumber == from ==>
            o.records[k] == records[k].(optInCompleted := !stop, unsubscribed := stop))
      && (forall k :: 0 <= k < |records| && records[k].phoneNumber != from ==> o.records[k] == records[k])
  {
  }

  /** STOP and START keep every record consistent. */
  lemma StopAndStartKeepConsistency(records: seq<Subscriber>, from: string, body: string, updateFails: bool)
    requires AllConsistent(records)
    requires ParseKeyword(body) != Yes
    ensures AllConsistent(Respond(records, from, Some(body), updateFails).records)
  {
    if !updateFails && ParseKeyword(body) != Other {
      StopAndStartSetBothFlags(records, from, body);
    }
  }

  /** Any other text changes nothing and answers with the keyword guidance. */
  lemma OtherTextChangesNothing(records: seq<Subscriber>, from: string, body: string, updateFails: bool)
    requires ParseKeyword(body) == Other
    ensures Respond(records, from, Some(body), updateFails) == Outcome(GuidanceReply, records)
  {
  }

  /** `From` is the key as it arrives: a number that no record carries verbatim updates nothing,
      even when it formats to a stored number. */
  lemma FromMatchedVerbatim(records: seq<Subscriber>, from: string, body: Option<string>, updateFails: bool)
    requires forall k :: 0 <= k < |records| ==> records[k].phoneNumber != from
    ensures Respond(records, from, body, updateFails).records == records
  {
    if body.Some? && ParseKeyword(body.value) != Other && !updateFails {
      UpdateAllNoMatch(records, from, UpdateFor(ParseKeyword(body.value)));
    }
  }

  /** A store error fails the request only on the YES branch; whatever the branch, it changes nothing. */
  lemma StoreErrorPolicy(records: seq<Subscriber>, from: string, body: string)
    ensures var o := Respond(records, from, Some(body), true);
      && o.records == records
      && (StatusOf(o.reply) == 500 <==> ParseKeyword(body) == Yes)
  {
  }

  /** Each branch writes constants, so a repeated message leaves the collection as the first one
      did, whether or not the repeated update succeeds. */
  lemma RepeatIsIdempotent(records: seq<Subscriber>, from: string, body: Option<string>, secondFails: bool)
    ensures var once := Respond(records, from, body, false).records;
      Respond(once, from, body, secondFails).records == once
  {
    if body.Some? && ParseKeyword(body.value) != Other {
      UpdateAllIdempotent(records, from, UpdateFor(ParseKeyword(body.value)));
    }
  }
}

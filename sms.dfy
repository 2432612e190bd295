/** The inbound SMS route: the required-fields guard, keywords compared in upper case without
    synonyms, an update of the first matching record only, and a confirmation sent after YES. */
module Sms {
  import opened Values
  import opened Text
  import opened Store
  import opened Messaging

  datatype Command = Yes | Stop | Start | Unrecognised

  /** `Body?.toString().trim().toUpperCase()`; a missing body gives the empty string, which the
      guard treats like `undefined`. */
  function NormalizeBody(body: Option<string>): (m: string)
    ensures m == [] <==> body.None? || AllWhitespace(body.value)
  {
    if body.None? then [] else ToUpper(Trim(body.value))
  }

  /** The `switch` on the normalised body: exact matches only. */
  function ParseCommand(message: string): Command {
    if message == "YES" then Yes
    else if message == "STOP" then Stop
    else if message == "START" then Start
    else Unrecognised
  }

  /** On ASCII bodies, a keyword is recognised in any mix of cases, and only then. */
  lemma {:induction false} ParseCommandIgnoresCase(body: string)
    requires forall k :: 0 <= k < |body| ==> IsAscii(body[k])
    ensures ParseCommand(NormalizeBody(Some(body))) == Yes <==> EqualIgnoringCase(Trim(body), "YES")
    ensures ParseCommand(NormalizeBody(Some(body))) == Stop <==> EqualIgnoringCase(Trim(body), "STOP")
    ensures ParseCommand(NormalizeBody(Some(body))) == Start <==> EqualIgnoringCase(Trim(body), "START")
  {
    var i, j := TrimSpan(body);
    var t := Trim(body);
    assert forall k :: 0 <= k < |t| ==> IsAscii(t[k]) by {
      forall k | 0 <= k < |t| ensures IsAscii(t[k]) { assert t[k] == body[i + k]; }
    }
    ToUpperIsKeyword(t, "YES");
    ToUpperIsKeyword(t, "STOP");
    ToUpperIsKeyword(t, "START");
  }

  /** There are no synonyms: `y` and `unsubscribe` are not keywords here. */
  lemma NoSynonyms(y: string, u: string)
    requires y == "y" && u == "unsubscribe"
    ensures ParseCommand(NormalizeBody(Some(y))) == Unrecognised
    ensures ParseCommand(NormalizeBody(Some(u))) == Unrecognised
  {
    TrimCharacterized(y, 0, 1);
    assert y[0..1] == y;
    TrimCharacterized(u, 0, 11);
    assert u[0..11] == u;
    assert ToUpper(y) == UpperChar(y[0]) + ToUpper(y[1..]);
    assert ToUpper(u)[..1] == UpperChar(u[0]);
  }

  /** `toUpperCase` maps the long s to `S`, so `ſtop` is STOP here. */
  lemma LongSIsStop(b: string)
    requires b == "\U{017F}top"
    ensures ParseCommand(NormalizeBody(Some(b))) == Stop
  {
    TrimCharacterized(b, 0, 4);
    assert b[0..4] == b;
    assert b[1..] == "top" && b[1..][1..] == "op" && b[1..][1..][1..] == "p" && b[1..][1..][1..][1..] == "";
    calc {
      ToUpper(b);
      UpperChar(b[0]) + ToUpper(b[1..]);
      "S" + (UpperChar('t') + ToUpper("op"));
      "S" + ("T" + (UpperChar('o') + ToUpper("p")));
      "S" + ("T" + ("O" + (UpperChar('p') + ToUpper(""))));
      "STOP";
    }
  }

  /** The flags each command writes: both, every time. */
  function UpdateFor(c: Command): (u: FlagUpdate)
    requires c != Unrecognised
    ensures u.optInCompleted == Some(c != Stop) && u.unsubscribed == Some(c == Stop)
  {
    match c
    case Yes => FlagUpdate(Some(true), Some(false))
    case Stop => FlagUpdate(Some(false), Some(true))
    case Start => FlagUpdate(Some(true), Some(false))
  }

  datatype Reply =
    | MissingFields          // 400 "Missing required fields"
    | SubscriptionConfirmed  // 200
    | UnsubscribedReply      // 200 "Unsubscribed successfully"
    | ResubscribedReply      // 200 "Resubscribed successfully"
    | MessageReceived        // 200
    | InternalError          // 500 "Internal server error"

  function StatusOf(r: Reply): (status: int)
    ensures status == 200 || status == 400 || status == 500
    ensures status == 400 <==> r == MissingFields
    ensures status == 500 <==> r == InternalError
  {
    match r
    case MissingFields => 400
    case InternalError => 500
    case _ => 200
  }

  /** The effect of one inbound message: the response, the collection afterwards, and the number
      the confirmation is sent to, if one is sent. */
  datatype Outcome = Outcome(reply: Reply, records: seq<Subscriber>, confirmationTo: Option<string>)

  /** What `POST` does, as a function of the collection before it and of which calls fail. */
  function Respond(records: seq<Subscriber>, from: Option<string>, body: Option<string>,
                   queryFails: bool, updateFails: bool, sendFails: bool): (o: Outcome)
    ensures |o.records| == |records|
    ensures forall k :: 0 <= k < |records| ==> o.records[k].phoneNumber == records[k].phoneNumber
    ensures o.confirmationTo.Some? ==> from == o.confirmationTo
  {
    var message := NormalizeBody(body);
    if from.None? || from.value == [] || message == [] then Outcome(MissingFields, records, None)
    else if queryFails then Outcome(InternalError, records, None)
    else match FirstMatch(records, from.value)
      case None => Outcome(MessageReceived, records, None)
      case Some(i) => Dispatch(records, i, ParseCommand(message), from.value, updateFails, sendFails)
  }

  /** The `switch` on a known number whose first record is at position `i`: update that record,
      then, on YES, send the confirmation to `from`. */
  function Dispatch(records: seq<Subscriber>, i: nat, c: Command, from: string, updateFails: bool, sendFails: bool): (o: Outcome)
    requires i < |records|
    ensures |o.records| == |records|
    ensures forall k :: 0 <= k < |records| ==> o.records[k].phoneNumber == records[k].phoneNumber
    ensures forall k :: 0 <= k < |records| && k != i ==> o.records[k] == records[k]
    ensures o.confirmationTo.Some? ==> o.confirmationTo == Some(from)
  {
    if c == Unrecognised then Outcome(MessageReceived, records, None)
    else if updateFails then Outcome(InternalError, records, None)
    else
      var updated := records[i := Apply(records[i], UpdateFor(c))];
      match c
      case Yes => Outcome(if sendFails then InternalError else SubscriptionConfirmed, updated, Some(from))
      case Stop => Outcome(UnsubscribedReply, updated, None)
      case Start => Outcome(ResubscribedReply, updated, None)
  }

  /** Dispatching the same command twice on the same record leaves it as the first time did. */
  lemma DispatchRepeat(records: seq<Subscriber>, i: nat, c: Command, from: string,
                       updateFails: bool, sendFails: bool, send1Fails: bool)
    requires i < |records|
    ensures var once := Dispatch(records, i, c, from, false, send1Fails).records;
      Dispatch(once, i, c, from, updateFails, sendFails).records == once
  {
    if c != Unrecognised {
      var once := Dispatch(records, i, c, from, false, send1Fails).records;
      assert once == records[i := Apply(records[i], UpdateFor(c))];
      assert once[i := Apply(once[i], UpdateFor(c))] == once;
    }
  }

  method HandleSms(store: SubscriberStore, gateway: Gateway, from: Option<string>, body: Option<string>,
                   queryFails: bool, updateFails: bool, sendFails: bool)
    returns (reply: Reply)
    modifies store, gateway
    ensures var o := Respond(old(store.records), from, body, queryFails, updateFails, sendFails);
      && reply == o.reply
      && store.records == o.records
      && gateway.attempts == old(gateway.attempts) +
           (if o.confirmationTo.Some? then [Outbound(o.confirmationTo.value, ConfirmationText)] else [])
  {
    var message := NormalizeBody(body);
    if from.None? || from.value == [] || message == [] {
      return MissingFields;
    }
    var ok, first := store.Query(from.value, queryFails);
    if !ok {
      return InternalError;
    }
    if first.None? {
      return MessageReceived;
    }
    var i := first.value;
    var c := ParseCommand(message);
    if c == Unrecognised {
      return MessageReceived;
    }
    var updated := store.UpdateAt(i, UpdateFor(c), updateFails);
    if !updated {
      return InternalError;
    }
    match c {
      case Yes =>
        var delivered := gateway.Send(from.value, ConfirmationText, sendFails);
        reply := if delivered then SubscriptionConfirmed else InternalError;
      case Stop =>
        reply := UnsubscribedReply;
      case Start =>
        reply := ResubscribedReply;
    }
  }

  // ---------------------------------------------------------------------------
  // properties of one inbound message

  /** Without a sender, or with a body that is missing or blank, the request is rejected before
      any lookup: nothing changes and nothing is sent. */
  lemma GuardRejects(records: seq<Subscriber>, from: Option<string>, body: Option<string>,
                     queryFails: bool, updateFails: bool, sendFails: bool)
    requires from.None? || from.value == [] || body.None? || AllWhitespace(body.value)
    ensures Respond(records, from, body, queryFails, updateFails, sendFails) == Outcome(MissingFields, records, None)
  {
  }

  /** At most one record changes, the first whose number is exactly `From`; when one changes, it
      gets the flags of its keyword whatever its state was. */
  lemma OnlyFirstMatchChanges(records: seq<Subscriber>, from: string, body: string,
                              queryFails: bool, updateFails: bool, sendFails: bool)
    ensures var o := Respond(records, Some(from), Some(body), queryFails, updateFails, sendFails);
      var first := FirstMatch(records, from);
      && (forall k :: 0 <= k < |records| && (first.None? || k != first.value) ==> o.records[k] == records[k])
      && (o.records != records ==>
            && first.Some?
            && var c := ParseCommand(NormalizeBody(Some(body)));
            && c != Unrecognised
            && o.records[first.value] == records[first.value].(optInCompleted := c != Stop, unsubscribed := c == Stop))
  {
  }

  /** Every message keeps every record consistent: each keyword writes both flags. */
  lemma KeepsConsistency(records: seq<Subscriber>, from: Option<string>, body: Option<string>,
                         queryFails: bool, updateFails: bool, sendFails: bool)
    requires AllConsistent(records)
    ensures AllConsistent(Respond(records, from, body, queryFails, updateFails, sendFails).records)
  {
    var message := NormalizeBody(body);
    if from.Some? && from.value != [] && message != [] && !queryFails {
      var first := FirstMatch(records, from.value);
      if first.Some? {
        DispatchKeepsConsistency(records, first.value, ParseCommand(message), from.value, updateFails, sendFails);
      }
    }
  }

  lemma DispatchKeepsConsistency(records: seq<Subscriber>, i: nat, c: Command, from: string, updateFails: bool, sendFails: bool)
    requires i < |records| && AllConsistent(records)
    ensures AllConsistent(Dispatch(records, i, c, from, updateFails, sendFails).records)
  {
    var o := Dispatch(records, i, c, from, updateFails, sendFails);
    if c != Unrecognised && !updateFails {
      assert o.records[i] == Apply(records[i], UpdateFor(c));
    }
  }

  /** An unknown number changes nothing and is answered with "Message received". */
  lemma UnknownNumberIgnored(records: seq<Subscriber>, from: string, body: string, updateFails: bool, sendFails: bool)
    requires FirstMatch(records, from).None?
    requires from != [] && !AllWhitespace(body)
    ensures Respond(records, Some(from), Some(body), false, updateFails, sendFails) == Outcome(MessageReceived, records, None)
  {
  }

  /** The confirmation is sent after the update: when the send fails, the request fails but the
      record stays confirmed. */
  lemma ConfirmedDespiteSendFailure(records: seq<Subscriber>, from: string, body: string)
    requires ParseCommand(NormalizeBody(Some(body))) == Yes
    requires from != [] && FirstMatch(records, from).Some?
    ensures var i := FirstMatch(records, from).value;
      var o := Respond(records, Some(from), Some(body), false, false, true);
      && o.reply == InternalError
      && ConsentOf(o.records[i]) == Confirmed
      && o.confirmationTo == Some(from)
  {
  }

  /** YES from a known number, with the update and the send succeeding, confirms the first
      matching record and sends exactly one confirmation, to `From`. */
  lemma YesConfirms(records: seq<Subscriber>, from: string, body: string)
    requires ParseCommand(NormalizeBody(Some(body))) == Yes
    requires from != [] && FirstMatch(records, from).Some?
    ensures var i := FirstMatch(records, from).value;
      var o := Respond(records, Some(from), Some(body), false, false, false);
      && o.reply == SubscriptionConfirmed
      && StatusOf(o.reply) == 200
      && ConsentOf(o.records[i]) == Confirmed
      && o.confirmationTo == Some(from)
  {
  }

  /** STOP and START from a known number get their own replies and send nothing. */
  lemma StopAndStartReplies(records: seq<Subscriber>, from: string, body: string, sendFails: bool)
    requires ParseCommand(NormalizeBody(Some(body))) in {Stop, Start}
    requires from != [] && FirstMatch(records, from).Some?
    ensures var c := ParseCommand(NormalizeBody(Some(body)));
      var i := FirstMatch(records, from).value;
      var o := Respond(records, Some(from), Some(body), false, false, sendFails);
      && o.reply == (if c == Stop then UnsubscribedReply else ResubscribedReply)
      && StatusOf(o.reply) == 200
      && ConsentOf(o.records[i]) == (if c == Stop then OptedOut else Confirmed)
      && o.confirmationTo == None
  {
  }

  /** Any other text, from a known number or not, is acknowledged, changes nothing and sends nothing. */
  lemma UnrecognisedAcknowledged(records: seq<Subscriber>, from: string, body: string,
                                    updateFails: bool, sendFails: bool)
    requires ParseCommand(NormalizeBody(Some(body))) == Unrecognised
    requires from != [] && !AllWhitespace(body)
    ensures Respond(records, Some(from), Some(body), false, updateFails, sendFails) == Outcome(MessageReceived, records, None)
  {
  }

  /** A failed update sends nothing. */
  lemma NoSendAfterFailedUpdate(records: seq<Subscriber>, from: Option<string>, body: Option<string>, sendFails: bool)
    ensures var o := Respond(records, from, body, false, true, sendFails);
      o.records == records && o.confirmationTo == None
  {
  }

  /** A repeated message leaves the collection as the first one did, whatever happens to the repeat. */
  lemma RepeatIsIdempotent(records: seq<Subscriber>, from: Option<string>, body: Option<string>,
                           queryFails: bool, updateFails: bool, sendFails: bool, send1Fails: bool)
    ensures var once := Respond(records, from, body, false, false, send1Fails).records;
      Respond(once, from, body, queryFails, updateFails, sendFails).records == once
  {
    var message := NormalizeBody(body);
    if from.Some? && from.value != [] && message != [] {
      var once := Respond(records, from, body, false, false, send1Fails).records;
      FirstMatchSameKeys(records, once, from.value);
      var first := FirstMatch(records, from.value);
      if first.Some? {
        DispatchRepeat(records, first.value, ParseCommand(message), from.value, updateFails, sendFails, send1Fails);
      }
    }
  }
}

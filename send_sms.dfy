/** The outbound-send route: phone formatting and the required-fields guard. */
module SendSms {
  import opened Values
  import opened Text

  /** `formatPhoneNumber`: keep digits and plus signs; prefix `+1` unless the result already starts with `+`.
      It never fails and checks no length. */
  function FormatPhoneNumber(phone: string): (r: string)
    ensures StartsWithPlus(r)
    ensures AllPhoneChars(r)
  {
    var cleaned := KeepPhoneChars(phone);
    if StartsWithPlus(cleaned) then cleaned else "+1" + cleaned
  }

  /** The digits of the formatted number are those of the input, in the same order, after the
      country code 1 when the filtered input did not start with `+`. A leading 1 typed by the user is kept. */
  lemma {:induction false} FormatKeepsDigits(phone: string)
    ensures Digits(FormatPhoneNumber(phone)) ==
      if StartsWithPlus(KeepPhoneChars(phone)) then Digits(phone) else "1" + Digits(phone)
  {
    var cleaned := KeepPhoneChars(phone);
    DigitsOfKept(phone);
    if !StartsWithPlus(cleaned) {
      DigitsConcat("+1", cleaned);
      assert Digits("+1") == "1" by {
        assert Digits("+1") == Digits("1");
        assert Digits("1") == "1" + Digits("");
      }
    }
  }

  /** Formatting a formatted number gives it back unchanged. */
  lemma {:induction false} FormatIdempotent(phone: string)
    ensures FormatPhoneNumber(FormatPhoneNumber(phone)) == FormatPhoneNumber(phone)
  {
    KeepPhoneCharsFixed(FormatPhoneNumber(phone));
  }

  /** Input without any digit or plus sign formats to the bare country code. */
  lemma {:induction false} FormatWithoutPhoneChars(phone: string)
    requires forall k :: 0 <= k < |phone| ==> !IsPhoneChar(phone[k])
    ensures FormatPhoneNumber(phone) == "+1"
  {
    KeepNothing(phone);
  }

  /** A character that is neither a digit nor `+` has no effect on the formatted number. */
  lemma {:induction false} FormatIgnoresNoise(a: string, c: char, b: string)
    requires !IsPhoneChar(c)
    ensures FormatPhoneNumber(a + [c] + b) == FormatPhoneNumber(a + b)
  {
    KeptIgnoresNoise(a, c, b);
  }

  /** What the route does with a request, decided before the provider is called. */
  datatype SendPlan =
    | MissingFields       // 400 "Phone number and message are required"
    | Crash               // `phoneNumber.replace` throws on a non-string: 500 with the error's message
    | Deliver(to: string) // the provider is called with the formatted number

  /** The required-fields guard of `POST` and the phone formatting that follows it. */
  function PlanSend(phoneNumber: Json, message: Json): (r: SendPlan)
    ensures r == MissingFields <==> !Truthy(phoneNumber) || !Truthy(message)
    ensures r.Deliver? <==> Truthy(message) && phoneNumber.Str? && phoneNumber.value != []
    ensures r.Deliver? ==> r.to == FormatPhoneNumber(phoneNumber.value)
  {
    if !Truthy(phoneNumber) || !Truthy(message) then MissingFields
    else if phoneNumber.Str? then Deliver(FormatPhoneNumber(phoneNumber.value))
    else Crash
  }
}

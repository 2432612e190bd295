/** The registration route: name and phone validation, then one appended record and a
    best-effort welcome message. */
module Submit {
  import opened Values
  import opened Text
  import opened Store
  import opened Messaging
  import SendSms

  // ---------------------------------------------------------------------------
  // phone validation

  datatype PhoneValidation = PhoneValidation(valid: bool, formatted: string)

  /** The regular expression `^\+?[\d]{10,15}$`. */
  predicate MatchesPhonePattern(s: string) {
    var d := if StartsWithPlus(s) then s[1..] else s;
    10 <= |d| <= 15 && AllDigits(d)
  }

  /** `validatePhoneNumber`: validity is judged on the filtered input, the formatted number is
      the filtered input with `+1` in front unless it already starts with `+`. */
  function ValidatePhoneNumber(phone: string): (r: PhoneValidation)
    ensures r.formatted == SendSms.FormatPhoneNumber(phone)
    ensures r.valid ==> 11 <= |r.formatted| <= 17
  {
    var cleaned := KeepPhoneChars(phone);
    PhoneValidation(MatchesPhonePattern(cleaned), if StartsWithPlus(cleaned) then cleaned else "+1" + cleaned)
  }

  /** A phone number is valid exactly when it has 10 to 15 digits and, of the other characters
      the filter keeps, at most one `+`, placed before every digit. */
  lemma {:induction false} ValidPhoneIff(phone: string)
    ensures ValidatePhoneNumber(phone).valid <==>
      10 <= |Digits(phone)| <= 15 &&
      (KeepPhoneChars(phone) == Digits(phone) || KeepPhoneChars(phone) == "+" + Digits(phone))
  {
    var cleaned := KeepPhoneChars(phone);
    DigitsOfKept(phone);
    if StartsWithPlus(cleaned) {
      var d := cleaned[1..];
      assert cleaned == "+" + d;
      DigitsConcat("+", d);
      assert Digits("+") == "" by { assert Digits("+") == [] + Digits(""); }
      DigitsFixedIff(d);
      assert cleaned != Digits(phone) by { assert !IsDigit(cleaned[0]); }
    } else {
      DigitsFixedIff(cleaned);
      assert cleaned != "+" + Digits(phone);
    }
  }

  /** Characters other than digits and `+` change neither validity nor the formatted number. */
  lemma {:induction false} ValidatePhoneIgnoresNoise(a: string, c: char, b: string)
    requires !IsPhoneChar(c)
    ensures ValidatePhoneNumber(a + [c] + b) == ValidatePhoneNumber(a + b)
  {
    KeptIgnoresNoise(a, c, b);
  }

  /** A leading 1 is not collapsed into the country code: validity is judged on the eleven
      digits typed, and `+1` is put in front of them. */
  lemma LeadingOneKept(typed: string)
    requires typed == "14155550100"
    ensures ValidatePhoneNumber(typed) == PhoneValidation(true, "+114155550100")
  {
    assert AllDigits(typed);
    KeepPhoneCharsFixed(typed);
    assert "+1" + typed == "+114155550100";
  }

  lemma InternationalNumber(typed: string)
    requires typed == "+14155550100"
    ensures ValidatePhoneNumber(typed) == PhoneValidation(true, typed)
  {
    assert AllDigits(typed[1..]);
    KeepPhoneCharsFixed(typed);
  }

  lemma TooFewDigits(typed: string)
    requires typed == "123"
    ensures !ValidatePhoneNumber(typed).valid
  {
    KeepPhoneCharsFixed(typed);
  }

  // ---------------------------------------------------------------------------
  // name validation

  datatype NameError = TooShort | TooLong | InvalidCharacters

  function NameErrorMessage(e: NameError): string {
    match e
    case TooShort => "Name must be at least 2 characters long"
    case TooLong => "Name must be less than 100 characters"
    case InvalidCharacters => "Name contains invalid characters"
  }

  /** The character class `[a-zA-Z\s'-]`. */
  predicate IsNameChar(c: char) {
    IsAsciiLetter(c) || IsWhitespace(c) || c == '\'' || c == '-'
  }

  /** The regular expression `^[a-zA-Z\s'-]+$`. */
  predicate MatchesNamePattern(s: string) {
    |s| > 0 && forall k :: 0 <= k < |s| ==> IsNameChar(s[k])
  }

  datatype NameValidation = NameValid | NameInvalid(error: NameError)

  /** `validateFullName`: the length checks on the trimmed name come before the character check. */
  function ValidateFullName(name: string): (r: NameValidation)
    ensures r == NameValid <==>
      2 <= |Trim(name)| <= 100 && forall k :: 0 <= k < |Trim(name)| ==> IsNameChar(Trim(name)[k])
    ensures r == NameInvalid(TooShort) <==> |Trim(name)| < 2
    ensures r == NameInvalid(TooLong) <==> |Trim(name)| > 100
  {
    var t := Trim(name);
    if |t| < 2 then NameInvalid(TooShort)
    else if |t| > 100 then NameInvalid(TooLong)
    else if !MatchesNamePattern(t) then NameInvalid(InvalidCharacters)
    else NameValid
  }

  /** Whitespace around a name does not change its validation. */
  lemma {:induction false} NamePaddingIgnored(p: string, name: string, q: string)
    requires AllWhitespace(p) && AllWhitespace(q)
    ensures ValidateFullName(p + name + q) == ValidateFullName(name)
  {
    TrimPadded(p, name, q);
  }

  /** A name that is too short is reported as such, even when its characters are invalid too. */
  lemma OneCharacterNames()
    ensures ValidateFullName("A") == NameInvalid(TooShort)
    ensures ValidateFullName("1") == NameInvalid(TooShort)
  {
  }

  /** Surrounding spaces are trimmed before the length check. */
  lemma PaddedShortName(name: string)
    requires name == "  Al  "
    ensures ValidateFullName(name) == NameValid
  {
    TrimCharacterized(name, 2, 4);
    assert name[2..4] == "Al";
  }

  /** Hyphens, apostrophes and inner spaces are name characters. */
  lemma HyphenAndApostrophe(name: string)
    requires name == "Mary-Jane O'Brien"
    ensures ValidateFullName(name) == NameValid
  {
    TrimCharacterized(name, 0, 17);
    assert name[0..17] == name;
  }

  lemma DigitInName()
    ensures ValidateFullName("John123") == NameInvalid(InvalidCharacters)
  {
    TrimCharacterized("John123", 0, 7);
    assert "John123"[0..7] == "John123";
    assert !IsNameChar("John123"[4]);
  }

  /** The length bounds are inclusive: 100 characters pass, 101 do not. */
  lemma NameLengthBounds()
    ensures ValidateFullName(seq(100, _ => 'a')) == NameValid
    ensures ValidateFullName(seq(101, _ => 'a')) == NameInvalid(TooLong)
  {
    var hundred := seq(100, _ => 'a');
    TrimCharacterized(hundred, 0, 100);
    assert hundred[0..100] == hundred;
    var more := seq(101, _ => 'a');
    TrimCharacterized(more, 0, 101);
    assert more[0..101] == more;
  }

  // ---------------------------------------------------------------------------
  // the registration handler

  datatype RegistrationOutcome =
    | Registered                    // 200 "Successfully registered! ..."
    | NameRejected(error: NameError) // 400 with the name validator's message
    | PhoneRejected                  // 400 "Please enter a valid phone number"
    | RegistrationFailed             // 500 "Failed to process registration"

  function StatusOf(o: RegistrationOutcome): (status: int)
    ensures status == 200 <==> o == Registered
    ensures status == 400 <==> o.NameRejected? || o == PhoneRejected
    ensures status == 500 <==> o == RegistrationFailed
  {
    match o
    case Registered => 200
    case NameRejected(_) => 400
    case PhoneRejected => 400
    case RegistrationFailed => 500
  }

  /** The `message` field of the response body; a name rejection carries the validator's error. */
  function MessageOf(o: RegistrationOutcome): string {
    match o
    case Registered => "Successfully registered! Please check your phone for a confirmation message."
    case NameRejected(e) => NameErrorMessage(e)
    case PhoneRejected => "Please enter a valid phone number"
    case RegistrationFailed => "Failed to process registration"
  }

  /** Every outcome has its own message, so a client can tell the rejections apart by it. */
  lemma MessagesDistinct(a: RegistrationOutcome, b: RegistrationOutcome)
    ensures MessageOf(a) == MessageOf(b) <==> a == b
  {
    if MessageOf(a) == MessageOf(b) {
      assert |MessageOf(a)| == |MessageOf(b)|;
    }
  }

  /** The effect of one registration: the response, the collection afterwards, and the number
      the welcome message is sent to, if one is sent. */
  datatype Registration = Registration(outcome: RegistrationOutcome, records: seq<Subscriber>, welcomeTo: Option<string>)

  /** What `POST` does, as a function of the collection before it. A name or phone that is not a
      string makes `trim` or `replace` throw, which the handler reports as a server error. The
      result does not depend on whether the welcome send succeeds: that failure is swallowed. */
  function Register(records: seq<Subscriber>, fullName: Json, phoneNumber: Json, now: Timestamp, addFails: bool): (r: Registration)
    ensures r.outcome == Registered <==> r.welcomeTo.Some?
    ensures r.outcome != Registered ==> r.records == records
    ensures r.outcome == Registered ==> |r.records| == |records| + 1 && r.records[..|records|] == records
  {
    if !fullName.Str? then Registration(RegistrationFailed, records, None)
    else match ValidateFullName(fullName.value)
      case NameInvalid(e) => Registration(NameRejected(e), records, None)
      case NameValid =>
        if !phoneNumber.Str? then Registration(RegistrationFailed, records, None)
        else
          var phone := ValidatePhoneNumber(phoneNumber.value);
          if !phone.valid then Registration(PhoneRejected, records, None)
          else if addFails then Registration(RegistrationFailed, records, None)
          else
            var added := Subscriber(Trim(fullName.value), phone.formatted, false, false, now);
            Registration(Registered, records + [added], Some(phone.formatted))
  }

  method HandleSubmit(store: SubscriberStore, gateway: Gateway, fullName: Json, phoneNumber: Json,
                      now: Timestamp, addFails: bool, sendFails: bool)
    returns (outcome: RegistrationOutcome)
    modifies store, gateway
    ensures var e := Register(old(store.records), fullName, phoneNumber, now, addFails);
      && outcome == e.outcome
      && store.records == e.records
      && gateway.attempts == old(gateway.attempts) + (if e.welcomeTo.Some? then [Outbound(e.welcomeTo.value, WelcomeText)] else [])
  {
    if !fullName.Str? {
      return RegistrationFailed;
    }
    var nameCheck := ValidateFullName(fullName.value);
    if nameCheck.NameInvalid? {
      return NameRejected(nameCheck.error);
    }
    if !phoneNumber.Str? {
      return RegistrationFailed;
    }
    var phoneCheck := ValidatePhoneNumber(phoneNumber.value);
    if !phoneCheck.valid {
      return PhoneRejected;
    }
    var added := store.Add(Subscriber(Trim(fullName.value), phoneCheck.formatted, false, false, now), addFails);
    if !added {
      return RegistrationFailed;
    }
    var delivered := gateway.Send(phoneCheck.formatted, WelcomeText, sendFails);
    return Registered;
  }

  // ---------------------------------------------------------------------------
  // properties of a registration

  /** The name is validated first: an invalid name is reported whatever the phone is, and nothing is written or sent. */
  lemma NameCheckedFirst(records: seq<Subscriber>, name: string, phoneNumber: Json, now: Timestamp, addFails: bool)
    requires ValidateFullName(name).NameInvalid?
    ensures Register(records, Str(name), phoneNumber, now, addFails) ==
      Registration(NameRejected(ValidateFullName(name).error), records, None)
    ensures var o := Register(records, Str(name), phoneNumber, now, addFails).outcome;
      StatusOf(o) == 400 && MessageOf(o) == NameErrorMessage(ValidateFullName(name).error)
  {
  }

  /** With a valid name, an invalid phone is rejected before anything is written or sent. */
  lemma PhoneCheckedSecond(records: seq<Subscriber>, name: string, phone: string, now: Timestamp, addFails: bool)
    requires ValidateFullName(name) == NameValid && !ValidatePhoneNumber(phone).valid
    ensures Register(records, Str(name), Str(phone), now, addFails) == Registration(PhoneRejected, records, None)
  {
  }

  /** With both fields invalid, the name error wins. */
  lemma BothInvalidExample(records: seq<Subscriber>, now: Timestamp)
    ensures Register(records, Str("1"), Str("123"), now, false) == Registration(NameRejected(TooShort), records, None)
    ensures var o := Register(records, Str("1"), Str("123"), now, false).outcome;
      StatusOf(o) == 400 && MessageOf(o) == NameErrorMessage(TooShort)
  {
    OneCharacterNames();
  }

  /** Valid input appends exactly one new pending record, with the trimmed name and the
      formatted number, leaves the earlier records as they were and sends one welcome message. */
  lemma ValidInputAppendsOne(records: seq<Subscriber>, name: string, phone: string, now: Timestamp)
    requires ValidateFullName(name) == NameValid && ValidatePhoneNumber(phone).valid
    ensures var r := Register(records, Str(name), Str(phone), now, false);
      && r.outcome == Registered
      && r.records == records + [Subscriber(Trim(name), SendSms.FormatPhoneNumber(phone), false, false, now)]
      && r.welcomeTo == Some(SendSms.FormatPhoneNumber(phone))
      && ConsentOf(r.records[|records|]) == Pending
  {
  }

  /** There is no duplicate check: registering the same number again appends a second record. */
  lemma ResubmitAppendsAgain(records: seq<Subscriber>, name: string, phone: string, t1: Timestamp, t2: Timestamp)
    requires ValidateFullName(name) == NameValid && ValidatePhoneNumber(phone).valid
    ensures var once := Register(records, Str(name), Str(phone), t1, false);
      var twice := Register(once.records, Str(name), Str(phone), t2, false);
      && twice.outcome == Registered
      && |twice.records| == |records| + 2
      && twice.records[|records|].phoneNumber == twice.records[|records| + 1].phoneNumber
  {
  }

  /** A failed append reports a server error and sends nothing. */
  lemma AddFailureReported(records: seq<Subscriber>, name: string, phone: string, now: Timestamp)
    requires ValidateFullName(name) == NameValid && ValidatePhoneNumber(phone).valid
    ensures Register(records, Str(name), Str(phone), now, true) == Registration(RegistrationFailed, records, None)
  {
  }

  /** A registration never makes a record both confirmed and opted out. */
  lemma RegisterKeepsConsistency(records: seq<Subscriber>, fullName: Json, phoneNumber: Json, now: Timestamp, addFails: bool)
    requires AllConsistent(records)
    ensures AllConsistent(Register(records, fullName, phoneNumber, now, addFails).records)
  {
  }
}

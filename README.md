# Wellness opt-in: subscriber consent bookkeeping

This project models, in Dafny, the consent bookkeeping of a small SMS subscription service built
on Next.js API routes. A web form registers a subscriber (name and phone number). Inbound
keyword replies then move the subscriber's flag pair `(opt_in_completed, unsubscribed)` between
states. Two separate inbound routes do this under different rules.

The model covers four route files:

- `submit/route.ts` (`Submit` module): `validateFullName`, `validatePhoneNumber` and the
  registration handler. The handler validates the name, then the phone, appends one pending
  record, and makes a best-effort welcome send.
- `webhook/route.ts` (`Webhook` module): keywords are trimmed and lower-cased, with the synonyms
  `y` and `unsubscribe`. The update goes to every record whose number equals `From`. A store
  error fails only the YES branch.
- `sms/route.ts` (`Sms` module): a required-fields guard, then keywords trimmed and upper-cased
  with no synonyms. Only the first matching record is updated, and a confirmation is sent after
  a YES.
- `send-sms/route.ts` (`SendSms` module): `formatPhoneNumber` and the required-fields guard.

Shared pieces:

- `Text`: the ECMAScript whitespace set used by `trim` and `\s`, case mapping, and the
  `replace(/[^\d+]/g, '')` filter.
- `Store`: the subscriber collection. It is a class whose `records: seq<Subscriber>` field is
  reassigned by `Add`, `UpdateWhere` (update every matching record) and `UpdateAt` (update one
  record). Pure functions `UpdateAll` and `FirstMatch` specify these operations.
- `Messaging`: the messaging provider, a class `Gateway` that logs every send it is asked to make.

Each handler is a method over these two objects. Its `ensures` ties the response and the new
state to a pure function of the old state (`Register`, `Webhook.Respond`, `Sms.Respond`). The
properties are proved as lemmas about those functions.

Collaborator failures are boolean parameters: `addFails`, `updateFails`, `queryFails` and
`sendFails`. A failed store call changes nothing. `Register` has no `sendFails` parameter at
all. This states that a failed welcome send cannot change the registration's outcome or the
stored records.

Behaviour of the code that the model keeps, although a reader might expect otherwise:

- There is no duplicate check. The check is commented out, so every valid registration appends
  a record. A number that unsubscribed is never "re-activated"; it gets a second record instead.
- `"14155550100"` formats to `"+114155550100"`, not `"+14155550100"`. It is a valid (11-digit)
  input. See `LeadingOneKept`.
- The webhook's YES sets only `opt_in_completed`. A subscriber who opted out and then answers
  YES is left both confirmed and opted out (`YesAfterStopConflicts`). The "never both" invariant
  holds for registration and for the SMS route (`RegisterKeepsConsistency`,
  `Sms.KeepsConsistency`, `StopAndStartKeepConsistency`), but not for the webhook's YES.
- Inbound numbers are matched verbatim, with no normalisation (`FromMatchedVerbatim`).
- A failed YES confirmation send in the SMS route fails the request (status 500), even though
  the update already persisted (`ConfirmedDespiteSendFailure`).

## Model

| member | source | states |
|---|---|---|
| `Text.Trim` | src/app/api/submit/route.ts:37 | `trim` gives the empty string exactly for an all-whitespace input, and otherwise a string that neither starts nor ends with whitespace |
| `Text.TrimSpan` | src/app/api/submit/route.ts:37 | the trimmed string is a slice of the input with only whitespace before and after it |
| `Text.TrimCharacterized` | src/app/api/submit/route.ts:37 | any slice with whitespace around it and non-whitespace at both ends is the trimmed string |
| `Text.TrimIdempotent` | src/app/api/submit/route.ts:37 | trimming twice is trimming once |
| `Text.TrimPadded` | src/app/api/webhook/route.ts:14 | whitespace added on either side does not change the trimmed string |
| `Text.ToLower` | src/app/api/webhook/route.ts:14 | `toLowerCase` keeps the length, keeps every character up to case and leaves no upper-case ASCII letter |
| `Text.ToLowerIsKeyword` | src/app/api/webhook/route.ts:14-17 | lower-casing gives a lower-case keyword exactly when the text equals it up to letter case |
| `Text.ToUpper` | src/app/api/sms/route.ts:25 | upper-casing never shortens a string and keeps a non-empty string non-empty |
| `Text.ToUpperIsKeyword` | src/app/api/sms/route.ts:25 | on ASCII text, upper-casing gives an upper-case keyword exactly when the text equals it up to letter case |
| `Text.KeepPhoneChars` | src/app/api/send-sms/route.ts:13 | the filter's output holds only digits and `+` and is no longer than its input |
| `Text.DigitsOfKept` | src/app/api/send-sms/route.ts:13 | the filter keeps every digit of its input, in order |
| `Text.KeepPhoneCharsFixed` | src/app/api/send-sms/route.ts:13 | a string of digits and `+` passes the filter unchanged |
| `Text.KeptIgnoresNoise` | src/app/api/submit/route.ts:25 | a character that is neither a digit nor `+` is dropped wherever it stands |
| `SendSms.FormatPhoneNumber` | src/app/api/send-sms/route.ts:12-15 | the formatted number always starts with `+` and holds only digits and `+`; no length is checked |
| `SendSms.FormatKeepsDigits` | src/app/api/send-sms/route.ts:13-14 | the digits of the formatted number are the input's digits in order, with a `1` in front when the filtered input did not start with `+` |
| `SendSms.FormatIdempotent` | src/app/api/send-sms/route.ts:12-15 | formatting an already formatted number returns it unchanged |
| `SendSms.FormatWithoutPhoneChars` | src/app/api/send-sms/route.ts:12-15 | an input with no digit and no `+` formats to `"+1"` |
| `SendSms.FormatIgnoresNoise` | src/app/api/send-sms/route.ts:13 | inputs that differ only in characters other than digits and `+` format identically |
| `SendSms.PlanSend` | src/app/api/send-sms/route.ts:22-29 | a missing or empty phone number or message is rejected before any send; a provider call goes only to the formatted string phone number |
| `Submit.ValidatePhoneNumber` | src/app/api/submit/route.ts:24-33 | the `formatted` field equals `formatPhoneNumber` of the same input; a valid number formats to 11–17 characters |
| `Submit.ValidPhoneIff` | src/app/api/submit/route.ts:25-31 | valid exactly when the input has 10–15 digits and, apart from them, the filter keeps at most one `+`, placed before every digit |
| `Submit.ValidatePhoneIgnoresNoise` | src/app/api/submit/route.ts:25 | characters other than digits and `+` change neither `valid` nor `formatted` |
| `Submit.LeadingOneKept` | src/app/api/submit/route.ts:31-32 | `"14155550100"` is valid and formats to `"+114155550100"`: a leading 1 is not collapsed |
| `Submit.InternationalNumber` | src/app/api/submit/route.ts:28-32 | `"+14155550100"` is valid and formats to itself |
| `Submit.TooFewDigits` | src/app/api/submit/route.ts:28-31 | `"123"` is invalid |
| `Submit.ValidateFullName` | src/app/api/submit/route.ts:36-54 | a name is accepted exactly when its trimmed length is 2–100 and every trimmed character is an ASCII letter, whitespace, `'` or `-`; too short and too long are reported from the length alone |
| `Submit.NamePaddingIgnored` | src/app/api/submit/route.ts:37 | whitespace around a name does not change its validation |
| `Submit.OneCharacterNames` | src/app/api/submit/route.ts:39-41 | `"A"` and also `"1"` report the too-short error: the length checks come before the character check |
| `Submit.PaddedShortName` | src/app/api/submit/route.ts:37-45 | `"  Al  "` is accepted: it has two letters after trimming |
| `Submit.HyphenAndApostrophe` | src/app/api/submit/route.ts:47-53 | `"Mary-Jane O'Brien"` is accepted |
| `Submit.DigitInName` | src/app/api/submit/route.ts:47-51 | `"John123"` reports invalid characters |
| `Submit.NameLengthBounds` | src/app/api/submit/route.ts:43-45 | a 100-letter name passes and a 101-letter name reports the too-long error |
| `Submit.StatusOf` | src/app/api/submit/route.ts:67-151 | status 200 exactly for a registration, 400 exactly for a name or phone rejection, 500 exactly for a server-side failure |
| `Submit.MessagesDistinct` | src/app/api/submit/route.ts:36-151 | every outcome, including each of the three name errors, carries its own response message |
| `Submit.Register` | src/app/api/submit/route.ts:61-139 | the welcome message is sent exactly when the registration succeeds; any other outcome leaves the records as they were; a success appends one record and leaves the earlier ones as they were |
| `Submit.HandleSubmit` | src/app/api/submit/route.ts:56-153 | the handler's response, the new collection and the one welcome attempt are those `Register` gives, whatever the send's outcome |
| `Submit.NameCheckedFirst` | src/app/api/submit/route.ts:64-71 | an invalid name is reported with status 400 and the validator's own message whatever the phone is, and nothing is written or sent |
| `Submit.PhoneCheckedSecond` | src/app/api/submit/route.ts:74-81 | with a valid name, an invalid phone is rejected with no write and no send |
| `Submit.BothInvalidExample` | src/app/api/submit/route.ts:64-81 | name `"1"` and phone `"123"` give 400 with the name's too-short message |
| `Submit.ValidInputAppendsOne` | src/app/api/submit/route.ts:101-107 | valid input appends exactly one pending record with the trimmed name and the formatted number, keeps the earlier records, and sends the welcome message to that number |
| `Submit.ResubmitAppendsAgain` | src/app/api/submit/route.ts:84-107 | registering the same input twice appends two records with the same number |
| `Submit.AddFailureReported` | src/app/api/submit/route.ts:141-151 | a failed append reports the server error and sends nothing |
| `Submit.RegisterKeepsConsistency` | src/app/api/submit/route.ts:101-107 | registration never makes a record both confirmed and opted out |
| `Store.Apply` | src/app/api/sms/route.ts:44-47 | a partial update changes only the flags it names and keeps the name, number and creation time |
| `Store.ApplyBoth` | src/app/api/sms/route.ts:60-63 | an update that names both flags sets them whatever the prior state was |
| `Store.UpdateAll` | src/app/api/webhook/route.ts:19-22 | every record whose number equals the key gets the update; every other record is unchanged; the count is unchanged |
| `Store.UpdateAllIdempotent` | src/app/api/webhook/route.ts:21 | updating the matching records twice with the same flags is updating them once |
| `Store.UpdateAllNoMatch` | src/app/api/webhook/route.ts:22 | a key no record carries updates nothing |
| `Store.FirstMatch` | src/app/api/sms/route.ts:35-40 | gives the position of a record with the key and no earlier one, or nothing exactly when no record has the key |
| `Store.FirstMatchSameKeys` | src/app/api/sms/route.ts:40 | the first match depends only on the records' numbers, so flag updates do not move it |
| `Store.SubscriberStore.Add` | src/app/api/submit/route.ts:101-107 | a successful add appends the record; a failed one changes nothing |
| `Store.SubscriberStore.UpdateWhere` | src/app/api/webhook/route.ts:19-22 | a successful update replaces the records with `UpdateAll`; a failed one changes nothing |
| `Store.SubscriberStore.Query` | src/app/api/sms/route.ts:35-39 | a successful query reports the first matching record, which has the key |
| `Store.SubscriberStore.UpdateAt` | src/app/api/sms/route.ts:40-47 | a successful update changes the one record at the given position |
| `Messaging.Gateway.Send` | src/app/api/submit/route.ts:117-124 | every send is logged with its number and body; its success is the collaborator's outcome |
| `Webhook.ParseKeywordIgnoresCase` | src/app/api/webhook/route.ts:14-73 | `ParseKeyword` (the if-chain): YES is `yes` or `y`, STOP is `stop` or `unsubscribe`, START is `start`, each in any letter case after trimming, and nothing else |
| `Webhook.ParseKeywordPadded` | src/app/api/webhook/route.ts:14 | whitespace around the body does not change the keyword |
| `Webhook.YesExample` | src/app/api/webhook/route.ts:14-17 | `"YES"` is YES |
| `Webhook.PaddedYesExample` | src/app/api/webhook/route.ts:14-17 | `" YES "` is YES |
| `Webhook.UpdateFor` | src/app/api/webhook/route.ts:19-81 | YES writes only `opt_in_completed = true`; STOP writes `(false, true)`; START writes `(true, false)` |
| `Webhook.StatusOf` | src/app/api/webhook/route.ts:24-121 | status 500 exactly for the YES apology and for a request that could not be handled; 200 otherwise |
| `Webhook.Respond` | src/app/api/webhook/route.ts:4-122 | the number of records never changes, and a failed update changes nothing |
| `Webhook.HandleWebhook` | src/app/api/webhook/route.ts:4-122 | the handler's response and new collection are those `Respond` gives |
| `Webhook.YesConfirmsAllMatches` | src/app/api/webhook/route.ts:17-46 | YES sets `opt_in_completed` on every record whose number equals `From`, leaves `unsubscribed` alone, leaves every other record alone, and replies with the confirmation |
| `Webhook.YesAfterStopConflicts` | src/app/api/webhook/route.ts:19-22 | an opted-out record that answers YES ends up both confirmed and opted out |
| `Webhook.StopAndStartSetBothFlags` | src/app/api/webhook/route.ts:48-96 | STOP or UNSUBSCRIBE sets `(false, true)` and START sets `(true, false)` on every matching record, whatever its state was; other records are unchanged |
| `Webhook.StopAndStartKeepConsistency` | src/app/api/webhook/route.ts:48-96 | messages other than YES keep every record consistent |
| `Webhook.OtherTextChangesNothing` | src/app/api/webhook/route.ts:97-108 | any other text changes nothing and replies with the keyword guidance |
| `Webhook.FromMatchedVerbatim` | src/app/api/webhook/route.ts:10-22 | a `From` that no record carries verbatim changes nothing |
| `Webhook.StoreErrorPolicy` | src/app/api/webhook/route.ts:24-95 | a store error changes nothing and gives status 500 exactly on the YES branch |
| `Webhook.RepeatIsIdempotent` | src/app/api/webhook/route.ts:19-81 | repeating a message leaves the collection as the first one did, whether or not the repeat's update succeeds |
| `Sms.NormalizeBody` | src/app/api/sms/route.ts:25 | the normalised body is empty exactly when the body is missing or all whitespace |
| `Sms.ParseCommandIgnoresCase` | src/app/api/sms/route.ts:25-43 | `ParseCommand` (the `switch`): on ASCII bodies, YES, STOP and START are recognised in any letter case after trimming, and only then |
| `Sms.NoSynonyms` | src/app/api/sms/route.ts:42-73 | `y` and `unsubscribe` are not keywords |
| `Sms.LongSIsStop` | src/app/api/sms/route.ts:25 | `ſtop` upper-cases to STOP and is an opt-out |
| `Sms.Dispatch` | src/app/api/sms/route.ts:39-74 | only the record at the given position can change, every record keeps its number, and a confirmation goes only to `From` |
| `Sms.DispatchRepeat` | src/app/api/sms/route.ts:44-71 | dispatching the same command twice on the same record leaves it as the first time did |
| `Sms.DispatchKeepsConsistency` | src/app/api/sms/route.ts:43-73 | dispatching a command keeps every record consistent |
| `Sms.UpdateFor` | src/app/api/sms/route.ts:44-71 | every keyword writes both flags: YES and START `(true, false)`, STOP `(false, true)` |
| `Sms.StatusOf` | src/app/api/sms/route.ts:30-81 | every status is 200, 400 or 500: 400 exactly for missing fields, 500 exactly for an internal error, 200 for every other reply |
| `Sms.Respond` | src/app/api/sms/route.ts:22-82 | the number of records never changes; a confirmation goes only to `From` |
| `Sms.HandleSms` | src/app/api/sms/route.ts:22-82 | the handler's response, new collection and confirmation attempt are those `Respond` gives |
| `Sms.GuardRejects` | src/app/api/sms/route.ts:25-32 | without `From`, or with a missing or blank body, the reply is 400 with no lookup, no change and no send |
| `Sms.OnlyFirstMatchChanges` | src/app/api/sms/route.ts:35-71 | only the first record whose number equals `From` can change, and when it does it gets its keyword's flags whatever its state was |
| `Sms.KeepsConsistency` | src/app/api/sms/route.ts:43-73 | every message keeps every record consistent |
| `Sms.UnknownNumberIgnored` | src/app/api/sms/route.ts:39-77 | a number with no record changes nothing and is answered "Message received" |
| `Sms.YesConfirms` | src/app/api/sms/route.ts:43-57 | YES from a known number, with update and send succeeding, confirms the first matching record, replies 200 "Subscription confirmed" and sends exactly one confirmation, to `From` |
| `Sms.StopAndStartReplies` | src/app/api/sms/route.ts:59-73 | STOP and START from a known number reply 200 with their own message, leave the record opted out or confirmed, and send nothing |
| `Sms.UnrecognisedAcknowledged` | src/app/api/sms/route.ts:74-77 | any other text is answered 200 "Message received", changes nothing and sends nothing, whether the number is known or not |
| `Sms.ConfirmedDespiteSendFailure` | src/app/api/sms/route.ts:43-57 | when the YES confirmation send fails, the reply is 500, but the record stays confirmed and the send was attempted to `From` |
| `Sms.NoSendAfterFailedUpdate` | src/app/api/sms/route.ts:44-54 | a failed update changes nothing and sends nothing |
| `Sms.RepeatIsIdempotent` | src/app/api/sms/route.ts:44-71 | repeating a message leaves the collection as the first one did, whatever happens to the repeat |

## Left out

- Request parsing (`request.json()`, `formData()`), logging, HTTP wiring and the literal JSON/XML
  bodies. Responses are outcome constructors with a status function.
- JSON fields are `Missing`, a string, or another JSON value with its truthiness. A failed
  `request.json()` has the same effect as a missing `fullName`: a 500 before any write.
- Form fields are `Option<string>`. A form value that is a file is not modelled.
- The webhook's `From` is taken to be present. What the store's filter does with a `null` key is
  not modelled.
- The provider client and its credentials (`getClient`, module-level `twilio(...)`),
  `messages.create` and `messages.list`. `Gateway.Send` stands for the whole send. A failure in
  building the client counts as a failed send, and it is still logged as an attempt.
- The rest of `POST` in `send-sms/route.ts`: the provider call, its message id and the
  `GET` health check. `PlanSend` covers the guard and the formatting only.
- Two stores are merged into one. In the source, the form and the SMS route use the Firestore
  collection `subscribers` (`submit/route.ts:101`, `sms/route.ts:34-37`), while the webhook
  updates a Supabase table of the same name (`webhook/route.ts:19-22`), so there the webhook
  never sees the records the form creates. The model gives all three handlers one sequence of
  records, and the webhook lemmas describe that table as if it held the same records.
- Query order. Firestore returns documents in document-id order, and an auto-generated id can
  fall anywhere in it. The model appends new records at the end and takes the sequence order as
  the query order. After the same number is registered twice, the model's SMS route therefore
  always updates the older record; the source may update either one.
- Other Firestore and Supabase specifics. `created_at` is an opaque number supplied by the
  caller.
- Concurrency. Races between a registration and an inbound reply for the same number are
  outside a sequential model.
- The commented-out duplicate check in `submit/route.ts`, because it is not active code.
- `src/app/page.tsx`, `next.config.ts` and `src/app/api/test-firebase/route.ts` are not part of
  this model: they hold UI, static headers and a raw collection dump.
- Text.ToLower: maps only ASCII letters. No non-ASCII character lower-cases into one of the
  webhook's keywords, so the keyword decision is unaffected.
- Text.ToUpper: models the ASCII letters and the non-ASCII characters whose upper-case form is
  all ASCII letters (dotless i, long s, sharp s, the ligatures U+FB00–U+FB06). Every other
  character keeps its own form, which differs from JavaScript for non-ASCII letters.
- String length counts Unicode scalar values, while JavaScript counts UTF-16 code units. A name
  with characters outside the Basic Multilingual Plane is measured differently.
- Sms.ParseCommandIgnoresCase: is stated for ASCII bodies only, because non-ASCII characters
  such as `ſ` also upper-case into keywords (`LongSIsStop`).
- The `(415) 555-0100` formatting example is covered by `FormatIgnoresNoise` and
  `ValidatePhoneIgnoresNoise` in general, not as a worked case.

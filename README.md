# WhatsApp conversation store — a Dafny model

This project models the core of a small WhatsApp messaging dashboard (a Laravel
application). One controller, `WhatsAppController`, holds all of the logic:

- **Phone normalisation**: every non-digit is dropped. A 10-digit number that starts with `3`
  (a Colombian mobile number written locally) gets the country code `57`.
- **The dashboard (`index`)**: the flat message log is grouped into one conversation per
  normalised phone. Each conversation is sorted oldest first and its final record becomes
  `last_message`. The conversations are listed newest last message first. One conversation
  is chosen as the active chat: the requested one, an empty one for an unknown phone, or
  the newest one.
- **Sending (`store`)**: the form input is validated. The message goes to the send service.
  On success exactly one `sent` record is appended to the log.
- **Webhooks**: `verifyWebhook` is the provider's subscription handshake. `handleWebhook`
  appends exactly one `received` record when the event payload carries a message, and
  nothing otherwise.

Modules, one per concern:

| file | module | models |
|---|---|---|
| wrappers.dfy | `Wrappers` | `Option` (PHP's null and missing keys, `??`) |
| phone.dfy | `Phone` | `normalizePhone` |
| sorting.dfy | `Sorting` | the `usort` calls, as a sort by an integer key |
| messages.dfy | `Messages` | the stored record |
| conversations.dfy | `Conversations` | the body of `index`: grouping loop, per-conversation sort loop, list sort, active selection |
| webhook.dfy | `Webhook` | `verifyWebhook`, the event payload shape |
| controller.dfy | `Controller` | the controller as a class whose field `messages` is the stored log; `Index`, `Store`, `HandleWebhook` |

Inputs the controller gets from outside are parameters:

- the send service is a function `(phone, text) -> SendResult`, and `Store` calls it with the normalised phone;
- `uniqid()` is `id`;
- `now()` is `now`;
- the state of the verify-token configuration key is a `TokenSetting`: missing, or present with a string or with null.

Timestamps are the integers that `strtotime` would produce.

Two behaviours of the code that are easy to misread:

- **Active selection uses PHP truthiness.** A query phone that normalises to `""` or `"0"`
  (say `"abc"`) falls back to the newest conversation, just like a missing one
  (WhatsAppController.php:71-79). With no conversations, that falsy value stays the active phone.
- **The feature test's phone is rejected.** The repository's feature test
  (tests/Feature/WhatsAppTest.php:25) posts the 9-digit `123456789`. The rule
  `digits_between:10,15` (line 94) rejects it before anything is sent (`NineDigitPhoneIsRejected`).

## Model

| member | source | states |
|---|---|---|
| Phone.StripNonDigits | app/Http/Controllers/WhatsAppController.php:23 | the stripped string holds only digits and is no longer than the input |
| Phone.StripKeepsDigitOccurrences | app/Http/Controllers/WhatsAppController.php:23 | each digit keeps its number of occurrences; every other character is removed |
| Phone.StripKeepsDigitStrings | app/Http/Controllers/WhatsAppController.php:23 | a digit-only string is left unchanged by stripping |
| Phone.StripConcat | app/Http/Controllers/WhatsAppController.php:23 | stripping commutes with concatenation |
| Phone.Normalize | app/Http/Controllers/WhatsAppController.php:20-31 | total on every string; the result is digits only |
| Phone.NormalizeIdempotent | app/Http/Controllers/WhatsAppController.php:20-31 | normalising twice equals normalising once (a 12-digit result is never re-prefixed) |
| Phone.NormalizeFixedPoints | app/Http/Controllers/WhatsAppController.php:20-31 | `Normalize(s) == s` exactly when `s` is all digits and not a 10-digit number starting with `3` |
| Phone.NormalizeIgnoresSeparator | app/Http/Controllers/WhatsAppController.php:23 | removing any one non-digit character from the input does not change the result |
| Phone.NormalizeKeepsFormLength | app/Http/Controllers/WhatsAppController.php:94-98 | a phone accepted by the form (10 to 15 digits) normalises to itself or to `57` + itself, still 10 to 15 digits |
| Phone.LocalMobileExample | app/Http/Controllers/WhatsAppController.php:26-27 | `"3001234567"` becomes `"573001234567"` |
| Phone.InternationalExample | app/Http/Controllers/WhatsAppController.php:26 | `"573001234567"` is already normalised |
| Phone.LettersDroppedExample | app/Http/Controllers/WhatsAppController.php:23 | `"abc123"` becomes `"123"` |
| Phone.NoDigitsNormalizeToEmpty | app/Http/Controllers/WhatsAppController.php:23-30 | every input without a digit normalises to `""`: the function never fails |
| Phone.NoDigitsExample | app/Http/Controllers/WhatsAppController.php:23 | the digit-free input `"+() -"` becomes `""` |
| Sorting.SortBy | app/Http/Controllers/WhatsAppController.php:57-59 | `usort` by an integer key: the result is ordered by the key and is a permutation of the input |
| Sorting.Insert | app/Http/Controllers/WhatsAppController.php:57-59 | inserting into a sorted sequence keeps it sorted and adds exactly that element |
| Conversations.Key | app/Http/Controllers/WhatsAppController.php:44 | a record groups under its normalised phone; the key is all digits and already in normal form |
| Conversations.MessagesOfCounts | app/Http/Controllers/WhatsAppController.php:43-53 | the partition for a phone holds every record with that key as often as the log does, and nothing else |
| Conversations.MessagesOfMembers | app/Http/Controllers/WhatsAppController.php:43-53 | a record is in the partition for a phone iff it is in the log and normalises to that phone |
| Conversations.GroupStep | app/Http/Controllers/WhatsAppController.php:44-52 | one iteration of the grouping loop (new key or existing key) keeps the grouping invariant |
| Conversations.GroupByPhone | app/Http/Controllers/WhatsAppController.php:42-53 | the loop yields each key once in `order`, and `groups` maps exactly those keys to their non-empty partitions; every record's key is present |
| Conversations.SortThreads | app/Http/Controllers/WhatsAppController.php:56-61 | every group becomes a conversation with that phone, sorted oldest first, a permutation of the group, `last_message` its final element |
| Conversations.KeyOrderListGroups | app/Http/Controllers/WhatsAppController.php:64 | the conversations in key order hold one conversation per key of the log |
| Conversations.GroupsUnderPermutation | app/Http/Controllers/WhatsAppController.php:65-67 | reordering the conversations keeps exactly one conversation per key |
| Conversations.ReorderedKeepsLookup | app/Http/Controllers/WhatsAppController.php:64-67 | after sorting, the list and the map by phone hold the same conversations |
| Conversations.ListConversations | app/Http/Controllers/WhatsAppController.php:41-67 | the list is the grouping of the log, sorted by last-message time newest first; the map by phone holds the same conversations |
| Conversations.BuildDashboard | app/Http/Controllers/WhatsAppController.php:41-82 | the listing above plus the active chat chosen by the selection rule |
| Conversations.Truthy | app/Http/Controllers/WhatsAppController.php:71 | the PHP truth value of the query phone: null, `""` and `"0"` are false, every other string is true |
| Conversations.RequestedPhone | app/Http/Controllers/WhatsAppController.php:70-73 | a truthy query phone is replaced by its normal form, which is all digits; any other value is kept as given |
| Conversations.ThreadMembers | app/Http/Controllers/WhatsAppController.php:44-52 | every message of a conversation is a record of the log that normalises to the conversation's phone |
| Conversations.ListingPartitionsLog | app/Http/Controllers/WhatsAppController.php:42-53 | every record lies in the conversation keyed by its normalised phone, as often as in the log, and in no other conversation |
| Conversations.LastMessageIsLatest | app/Http/Controllers/WhatsAppController.php:56-61 | `last_message` has the largest timestamp of its conversation |
| Conversations.FirstConversationIsNewest | app/Http/Controllers/WhatsAppController.php:56-67 | the first conversation's last message is at least as late as every record of the log |
| Conversations.EmptyListingIffEmptyLog | app/Http/Controllers/WhatsAppController.php:42-67 | the list is empty exactly when the log is |
| Conversations.ListingCountsEveryMessage | app/Http/Controllers/WhatsAppController.php:42-53 | the conversations together hold as many messages as the log |
| Conversations.SameKeyShareConversation | app/Http/Controllers/WhatsAppController.php:44-52 | two records with the same normalised phone form one conversation of two messages |
| Conversations.LocalAndInternationalSameKey | app/Http/Controllers/WhatsAppController.php:44 | `"3001234567"` and `"573001234567"` group under `"573001234567"` |
| Webhook.VerifyWebhook | app/Http/Controllers/WhatsAppController.php:131-139 | status 200 iff mode is `subscribe` and the token is identical to the configured value (default `ispwatch-token` when the key is missing; null when the key holds null); a 200 response carries the challenge |
| Webhook.VerifyToken | app/Http/Controllers/WhatsAppController.php:135 | the configured value: `ispwatch-token` when the key is missing, otherwise the key's value, which may be null |
| Webhook.MissingTokenPassesOnlyNullSetting | app/Http/Controllers/WhatsAppController.php:135-136 | a `subscribe` request without a token gets 200 exactly when the key holds null |
| Webhook.HasMessage | app/Http/Controllers/WhatsAppController.php:148 | the `isset` test: entry 0, its change 0, that change's `value` and its message 0 all exist |
| Webhook.FirstMessage | app/Http/Controllers/WhatsAppController.php:149 | the message at `entry[0].changes[0].value.messages[0]` |
| Webhook.TextBody | app/Http/Controllers/WhatsAppController.php:152 | `text.body` of the message, or `""` when `text` or `body` is missing |
| Webhook.HandshakeExamples | app/Http/Controllers/WhatsAppController.php:135-139 | the right token echoes `"xyz"`; a wrong token, or the default token when another is configured, gives 403; with the key holding null, a missing token echoes the challenge and the default token gives 403 |
| Controller.WhatsAppController.constructor | app/Http/Controllers/WhatsAppController.php:36-39 | the controller starts from the stored log |
| Controller.WhatsAppController.Index | app/Http/Controllers/WhatsAppController.php:33-89 | the dashboard of the stored log: the listing and the active chat |
| Controller.WhatsAppController.Store | app/Http/Controllers/WhatsAppController.php:91-127 | invalid input changes nothing. A successful send appends exactly one `sent` record: normalised phone, the text, `api_response` the data or `"mock"`. A failed send changes nothing and reports the error or `"Unknown error"` |
| Controller.WhatsAppController.HandleWebhook | app/Http/Controllers/WhatsAppController.php:142-178 | a payload with `entry[0].changes[0].value.messages[0]` appends exactly one `received` record (id verbatim, normalised `from`, `text.body` or `""`); any other payload changes nothing; the answer is always `EVENT_RECEIVED` |
| Controller.IsTrimmed | app/Http/Controllers/WhatsAppController.php:95 | the characters PHP's `trim` removes: space, tab, newline, carriage return, NUL, vertical tab |
| Controller.ValidPhoneInput | app/Http/Controllers/WhatsAppController.php:94 | the rules `required`, `numeric` and `digits_between:10,15`: only ASCII digits, 10 to 15 of them |
| Controller.ValidMessageInput | app/Http/Controllers/WhatsAppController.php:95 | the rules `required` and `string`: at least one character that `trim` does not remove |
| Controller.SentRecord | app/Http/Controllers/WhatsAppController.php:111-118 | the `sent` record: given id, phone, text and time; `api_response` is the provider data or `"mock"` |
| Controller.ReceivedRecord | app/Http/Controllers/WhatsAppController.php:163-169 | the `received` record, with id taken verbatim, phone `Normalize(from)`, the text body and no `api_response`; its phone is all digits and already its own grouping key |
| Controller.SentRecordKeyIsItsPhone | app/Http/Controllers/WhatsAppController.php:111-118 | a sent record's phone already is its grouping key |
| Controller.StoredPhoneStaysValid | app/Http/Controllers/WhatsAppController.php:94-98 | the normalised form of a valid form phone passes the form's phone rule again |
| Controller.AppendedNewestRecordLeadsListing | app/Http/Controllers/WhatsAppController.php:111-120 | once a record no older than the log is appended, the list starts at its time, and the record is in its phone's conversation |
| Controller.NineDigitPhoneIsRejected | app/Http/Controllers/WhatsAppController.php:94 | the 9-digit phone `123456789` fails the form's phone rule |

## Left out

- app/Services/WhatsAppService.php (the HTTP call, the mock branch and the exception handling) is not part of this model. Its answer is the `send` parameter of `Store`.
- Storage and serialisation: `Storage::disk`, `json_decode` and `json_encode` are left out, and so is a corrupt file that decodes to null. The file's contents are the `messages` field.
- `Inertia::render`, redirects, flash messages and `Log::*` are framework output. `StoreOutcome` keeps only the phone of the redirect and the error text.
- `uniqid()` and `now()` are nondeterministic; they are the parameters `id` and `now`.
- `strtotime` parsing and its fallback for unparsable dates are PHP library behaviour. Timestamps are integers.
- Webhook payloads whose message lacks `id` or `from`, or whose values are not strings, are not modelled; `id` and `from` are always present strings.
- Laravel's request middleware (trimming strings, empty strings to null) is left out. The `required` rule is modelled as "not empty after trimming".
- config/services.php is not part of this model. The state of its verify-token key (missing, a string or null) is a parameter.
- Provider data: `$response->json()` is a decoded JSON array stored as it is in `api_response`. The model stands for it as a string (`SendOk.data`, `Message.apiResponse`), because nothing in the core reads it.
- Concurrency: the lost update between two read-modify-write requests. The model is sequential.
- PHP's conversion of numeric-string array keys to integers is left out. It maps distinct strings to distinct keys, so grouping by the string key is the same.
- resources/js/ziggy.js and routes/web.php are route tables with no logic.
- Sorting.SortBy: promises order by the key and a permutation only. PHP 8's stable order for equal timestamps is not promised (the insertion sort happens to be stable).
- Conversations.ListConversations: does not promise which of two conversations with equal last-message times comes first.

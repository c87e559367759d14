# Payment gateway core of the journal platform, in Dafny

This project models the payment-gateway layer of a Django journal platform. The layer covers two payment providers:

- **Payme** calls the merchant over JSON-RPC:
  - a Basic-auth check;
  - `CheckPerformTransaction`, `CreateTransaction`, `PerformTransaction`, `CancelTransaction`, `CheckTransaction` and `GetStatement`;
  - the JSON-RPC error object;
  - the checkout link.
- **Click** calls the merchant with Prepare and Complete callbacks. These exist in two diverging revisions:
  - `apps/payments/click_service.py`;
  - `apps/payments/services.py`, the revision the payment URLs route to.

Both providers drive one `Transaction` record through its states. The record holds:

- status and amount;
- creation and completion times;
- the Payme id and time;
- the Click ids;
- the merchant reference.

The model also covers the small validators that feed login and the ledger:

- password confirmation, the phone check and phone login (`apps/users/serializers.py`);
- the default currency of a new transaction (`apps/payments/serializers.py`);
- the overall review score (`apps/reviews/models.py`).

**How the code is laid out.**

- **The table.** `Ledger.TransactionTable` is a class whose `rows` field is the table in query order. `Save` is the ORM's `save()` of one row.
- **Handlers that write.** Each handler that saves a transaction has two parts:
  - a method that assigns the fields step by step and calls `Save`;
  - a function from the rows before the call to the reply and the rows after it.

  The method's postcondition ties it to the function. The protocol properties are lemmas about these functions: replays, idempotence, what each path writes, and the order of the checks.
- **Payload fields.** A field is a `Values.Wire`: absent, JSON null, an integer or text. The source uses fields through Python's `str()`, truthiness and `==`, and these distinguish, for example, the integer `0` from the text `"0"`.
- **Hashes and encodings.** MD5, SHA-1, Base64 and `float()` on text are fields of function type in the configuration datatypes.
- **Units.** Amounts are integers in minor units (tiyin). Times are integers in milliseconds and are passed in as parameters.

**Behaviours the model pins down.** Each is a lemma about the code as written:

- A Payme cancellation reports -2 only when the transaction was completed before the call. The stored status forgets this: a later `CheckTransaction`, or a repeated cancellation, reports -1.
- A cancelled Payme transaction can still be performed.
- A redelivered Click Complete stamps the completion time again.
- A Click Complete whose `error` arrives as the text `"0"` marks the transaction failed and still replies with success.
- In `services.py`, Complete checks no signature. Any payload that names an existing transaction settles it.

## Model

| member | source | states |
|---|---|---|
| Ledger.FindById | apps/payments/payme_service.py:157 | The lookup by primary key returns a row with that id, and returns none exactly when no row has it |
| Ledger.Locate | apps/payments/payme_service.py:157 | A missing or null key finds nothing. Any other key finds the row whose id is the key's text, and finds nothing exactly when no row has that id |
| Ledger.FindByPaymeId | apps/payments/payme_service.py:232 | The lookup by Payme id finds no row, exactly one row (no other row has that id), or several rows. A `None` id matches rows whose Payme id is NULL |
| Ledger.TransactionTable.Save | apps/payments/payme_service.py:213 | Saving replaces exactly one row by a row with the same id; ids stay unique |
| Payme.NewError | apps/payments/payme_service.py:29-33 | A missing or empty message is replaced by the code's default from the error table ("Unknown error" for other codes); code and data are kept |
| Payme.ToDict | apps/payments/payme_service.py:35-43 | The error object always has code and message, and has `data` exactly when the data is truthy |
| Payme.CheckAuthorization | apps/payments/payme_service.py:77-108 | Every refusal (missing header, bad format, wrong scheme, undecodable token, wrong credentials) carries code -32504 |
| Payme.AuthorizedOnlyWithCredentials | apps/payments/payme_service.py:82-104 | An accepted header is a scheme word equal to "basic" in any case, one space, and a token that decodes to exactly `merchant_id:key`, where the key is the test key in test mode and the live key otherwise; neither part contains ':' |
| Payme.AuthorizedWithCredentials | apps/payments/payme_service.py:85-104 | Conversely, every such header is accepted |
| Payme.GeneratePayLink | apps/payments/payme_service.py:110-141 | The link carries the merchant id, the amount in tiyin and the transaction id; its URL is the endpoint followed by '/' |
| Payme.PayLinkDecodes | apps/payments/payme_service.py:126-132 | Decoding the URL's tail gives the fields `m=<merchant>`, `ac.transaction_id=<id>` and `a=<tiyin>` separated by ';', and the amount text reads back as the amount (given a Base64 round trip and ids without ';') |
| Payme.PaymeState | apps/payments/payme_service.py:300-306 | The status maps to 2 exactly when completed, to -1 exactly when cancelled, and to 1 otherwise; it never maps to -2 |
| Payme.CheckPerformTransaction | apps/payments/payme_service.py:143-172 | The reply is `{allow: true}` exactly when the account names a transaction, the amount equals its amount and it is not completed. Exactly these cases fail: a missing or unknown id with -31050; a wrong amount with -31051, whatever the status (the amount is checked first); a completed transaction with the right amount with -31052. Nothing raises, and the table is only read |
| Payme.CreateOutcome | apps/payments/payme_service.py:174-221 | The call succeeds exactly when the account names a transaction and the amount equals its amount. It fails with -31050 exactly when the id is missing or unknown, and otherwise with -31051; a failure writes nothing. On success the reply is state 1 with the creation time and id. A transaction that already has a Payme id is left exactly as it was. Otherwise the Payme id and pending status are set, and no other row changes |
| Payme.CreateWritesPaymeFields | apps/payments/payme_service.py:209-213 | The first successful create writes exactly the Payme id, the Payme time and status pending |
| Payme.CreateIdempotent | apps/payments/payme_service.py:200-221 | Repeating a create returns the same reply and leaves the table as the first call left it, for every input |
| Payme.CreateTransaction | apps/payments/payme_service.py:174-221 | The handler's reply and new table are those of `CreateOutcome`; ids stay unique |
| Payme.PerformOutcome | apps/payments/payme_service.py:223-255 | An unknown Payme id gives -31050 and several matches raise. Both write nothing. On success the state is 2. An already completed transaction leaves the table exactly as it was. Any other becomes completed at `now`. The reported perform time is the stored completion time when there is one, and `now` otherwise. No other row changes |
| Payme.PerformCompletes | apps/payments/payme_service.py:244-255 | Performing a transaction that is not completed sets exactly its status and completion time |
| Payme.PerformReplay | apps/payments/payme_service.py:236-242 | A repeated perform changes nothing. It returns the first reply unless the transaction was completed earlier without a completion time |
| Payme.PerformTransaction | apps/payments/payme_service.py:223-255 | The handler's reply and new table are those of `PerformOutcome` |
| Payme.CancelOutcome | apps/payments/payme_service.py:257-286 | The reply is -2 exactly when the transaction was completed before the call and -1 otherwise. The transaction is then cancelled with no other field changed; unknown ids give -31050 |
| Payme.CancelAfterPerform | apps/payments/payme_service.py:270-274 | A cancel after a successful perform reports -2 |
| Payme.CancelForgetsSettlement | apps/payments/payme_service.py:270-306 | After a cancel, a repeated cancel and `CheckTransaction` both report -1, even when the first cancel reported -2 |
| Payme.PerformAfterCancel | apps/payments/payme_service.py:236-247 | A cancelled transaction is completed again by a perform, with the new completion time |
| Payme.CancelTransaction | apps/payments/payme_service.py:257-286 | The handler's reply and new table are those of `CancelOutcome` |
| Payme.CheckTransaction | apps/payments/payme_service.py:288-321 | Reports the creation time, the id and the mapped state. A perform time is present only when the transaction is completed with a completion time; a cancel time and reason 10 only when it is cancelled. Unknown ids give -31050 |
| Payme.Selected | apps/payments/payme_service.py:336-340 | The statement query returns rows of the table, each created within [from, to] with a Payme id |
| Payme.SelectedComplete | apps/payments/payme_service.py:336-340 | Every row of the table that satisfies the query is returned |
| Payme.SelectedAppend | apps/payments/payme_service.py:336-343 | The query keeps table order |
| Payme.SelectedDistinct | apps/payments/payme_service.py:336-343 | The query returns no transaction twice |
| Payme.StatementItemOf | apps/payments/payme_service.py:344-369 | An entry carries the Payme id as `id`, the transaction id, the amount and the creation time. Its state and optional times follow the same rules as `CheckTransaction` |
| Payme.StatementOutcome | apps/payments/payme_service.py:323-375 | One entry per selected transaction in query order; a missing bound raises |
| Payme.StatementCoversRange | apps/payments/payme_service.py:336-371 | Each transaction in range with a Payme id has exactly one entry, and no other transaction has one |
| Payme.GetStatement | apps/payments/payme_service.py:342-375 | The loop builds exactly the entries of `StatementOutcome` |
| ClickProtocol.ConcatAppend | apps/payments/click_service.py:81 | The signed text of a list of fields is the text of each part, one after the other |
| ClickProtocol.AmountMinor | apps/payments/click_service.py:143 | A missing or null amount cannot be converted (the handler then fails with -9) |
| ClickProtocol.PaydocOrEmpty | apps/payments/click_service.py:195 | A missing payment document id is stored as empty text, a null one as NULL, any other as its text |
| ClickProtocol.Settle | apps/payments/click_service.py:192-199 | Complete sets completed, the completion time and the payment document id when `error` is the integer 0. Otherwise it sets failed. No other field changes |
| ClickProtocol.AuthHeader | apps/payments/click_service.py:41-48 | The header is three ':'-separated fields: the merchant user id, SHA-1 of the timestamp followed by the secret, and the timestamp (when neither the id nor the digest contains ':'). `apps/payments/services.py:22-27` builds the same header |
| ClickProtocol.AuthHeaderFields | apps/payments/click_service.py:41-48 | The `Auth` header reads back as its three fields, and the timestamp field parses back to the timestamp |
| ClickService.Signature | apps/payments/click_service.py:77-82 | `generate_signature`: MD5 of the fields' text, one after the other, followed by the secret key. It has no contract of its own; `PrepareSignedText` and `CompleteSignedText` state the signed text for each callback |
| ClickService.PrepareSigned | apps/payments/click_service.py:116-127 | Seven fields are signed when the payment document id is truthy, six otherwise. Their text is click_trans_id, service_id, the document id only if truthy, merchant_trans_id, amount, action and sign_time, one after the other |
| ClickService.PrepareSignedText | apps/payments/click_service.py:116-127 | The Prepare signature is MD5 of click_trans_id, service_id, the payment document id if truthy, merchant_trans_id, amount, action, sign_time, then the secret key |
| ClickService.PrepareOutcome | apps/payments/click_service.py:94-164 | The checks run in order: signature (-1), then lookup (-5), then amount (-2, or -9 when it cannot be converted). No refusal writes anything. The reply is a success exactly when all three checks pass. A success writes the Click id and the merchant reference, and the document id only when truthy. It keeps status and amount and replies with `merchant_prepare_id` = id |
| ClickService.PrepareIdempotent | apps/payments/click_service.py:147-160 | A redelivered Prepare gets the same reply and leaves the table as the first call left it |
| ClickService.HandlePrepare | apps/payments/click_service.py:94-164 | The handler's reply and new table are those of `PrepareOutcome` |
| ClickService.CompleteSigned | apps/payments/click_service.py:180-182 | The signed text of Complete is click_trans_id, merchant_trans_id, merchant_prepare_id, error and sign_time, one after the other |
| ClickService.CompleteSignedText | apps/payments/click_service.py:178-182 | The Complete signature is MD5 of click_trans_id, merchant_trans_id, merchant_prepare_id, error, sign_time, then the secret key |
| ClickService.CompleteOutcome | apps/payments/click_service.py:166-214 | Signature (-1), then lookup (-5), and neither refusal writes. The reply is a confirmation exactly when the signature is valid and the transaction exists. Then the transaction is settled whatever its status: completed exactly when `error` is the integer 0, failed otherwise. The reply carries `merchant_confirm_id` = id and error 0 |
| ClickService.CompleteReplayRestamps | apps/payments/click_service.py:192-199 | A redelivered successful Complete gives the same reply and only moves the completion time to the redelivery's clock |
| ClickService.TextZeroCompleteFails | apps/payments/click_service.py:192-207 | A signed Complete whose error is the text "0" marks the transaction failed and replies with error 0 |
| ClickService.HandleComplete | apps/payments/click_service.py:166-214 | The handler's reply and new table are those of `CompleteOutcome` |
| PaymentServices.Signature | apps/payments/services.py:29-32 | `generate_signature`: MD5 of the fields' text, one after the other, with nothing appended. It has no contract of its own; `PrepareSignedText` states the signed text |
| PaymentServices.PrepareSigned | apps/payments/services.py:186-189 | The signed text of Prepare is click_trans_id, service_id, the secret key, merchant_trans_id, amount, action and sign_time, one after the other |
| PaymentServices.PrepareSignedText | apps/payments/services.py:186-189 | The Prepare signature is MD5 of click_trans_id, service_id, the secret key, merchant_trans_id, amount, action and sign_time, with nothing appended |
| PaymentServices.PrepareOutcome | apps/payments/services.py:174-218 | Signature (-1), then lookup (-5), then amount (-2, or -9 when it cannot be converted); no refusal writes. The reply is a success exactly when all three checks pass. A success writes only the Click id and the merchant reference and replies with `merchant_prepare_id` = id |
| PaymentServices.PrepareIdempotent | apps/payments/services.py:204-215 | A redelivered Prepare gets the same reply and leaves the table as the first call left it |
| PaymentServices.HandlePrepare | apps/payments/services.py:174-218 | The handler's reply and new table are those of `PrepareOutcome` |
| PaymentServices.CompleteOutcome | apps/payments/services.py:220-250 | An unknown transaction gives -5 and writes nothing. Otherwise the transaction is settled as in the other revision, and the reply carries `merchant_confirm_id` = id and error 0 |
| PaymentServices.UnsignedCompleteSettles | apps/payments/services.py:220-237 | Any Complete naming an existing transaction by id settles it, whatever its signature fields: completed for error 0, failed otherwise |
| PaymentServices.CompleteReplayRestamps | apps/payments/services.py:230-237 | A redelivered successful Complete gives the same reply and only moves the completion time |
| PaymentServices.HandleComplete | apps/payments/services.py:220-250 | The handler's reply and new table are those of `CompleteOutcome` |
| Strings.Strip | apps/users/serializers.py:96 | `str.strip()`: the result is a slice of the input, everything cut off on either side is whitespace, and it neither starts nor ends with whitespace |
| UserSerializers.RegisterValidate | apps/users/serializers.py:70-73 | Registration is refused under "password" exactly when the passwords differ; otherwise the attributes are returned unchanged |
| UserSerializers.ValidatePhone | apps/users/serializers.py:90-102 | An empty value is refused as missing. The value is accepted exactly when, after stripping and removing every '+' and ' ', at least 9 characters remain. The result is the stripped value |
| UserSerializers.ValidatePhoneIdempotent | apps/users/serializers.py:96-102 | An accepted phone is accepted again unchanged |
| UserSerializers.PhoneDigits | apps/users/serializers.py:115 | The digits of the stripped phone: only digits, each digit as often as it occurs there, in the order they occur |
| UserSerializers.Candidates | apps/users/serializers.py:125-136 | The usernames tried are "+digits", then the digits, then the phone as given, the last only when it differs from both |
| UserSerializers.CandidatesDistinct | apps/users/serializers.py:134 | No username is tried twice |
| UserSerializers.FirstAuthenticated | apps/users/serializers.py:122-136 | The user found is the result of the first attempt that succeeds, and there is none exactly when every attempt fails |
| UserSerializers.AttemptOrder | apps/users/serializers.py:124-136 | The search equals the three attempts made one after the other, each only if the previous ones failed |
| UserSerializers.LoginOutcome | apps/users/serializers.py:104-145 | Errors go under "non_field_errors". A missing phone or password, a blank password or fewer than 9 digits is refused. An accepted user is active and is the first user found |
| UserSerializers.RefusedUpFrontIgnoresBackend | apps/users/serializers.py:108-118 | A login refused for a missing field, blank password or short number gets the same outcome whatever the authentication backend does |
| UserSerializers.LoginAcceptance | apps/users/serializers.py:138-145 | Past those checks, login succeeds exactly when some attempt finds a user and the first user found is active |
| UserSerializers.ValidateLogin | apps/users/serializers.py:104-145 | On refusal the attributes are unchanged. Otherwise only `attrs['user']` is added and the same dictionary is returned |
| ReviewModels.Positive | apps/reviews/models.py:67 | The kept scores are exactly the strictly positive ones, each as often as it occurs, in their original order |
| ReviewModels.Mean | apps/reviews/models.py:68 | The quotient of a non-empty list's sum by its length: times the length it gives back the sum |
| ReviewModels.OverallScore | apps/reviews/models.py:63-68 | The score is 0 when no score is positive. Otherwise it is the mean of the positive scores (the score times their count is their sum), and it is positive |
| ReviewModels.OverallScoreBetween | apps/reviews/models.py:67-68 | The score lies between any bounds of the positive scores, so between their minimum and maximum |
| ReviewModels.OnlyPositiveScoresCount | apps/reviews/models.py:65-67 | Changing scores that are not positive to other values that are not positive leaves the score unchanged |
| ReviewModels.DefaultScoresGiveZero | apps/reviews/models.py:41-68 | A review with all scores at their default 0 has score 0 |
| PaymentSerializers.WithDefaultCurrency | apps/payments/serializers.py:29-33 | A missing or falsy currency becomes "UZS" and a truthy one is kept. No other key changes |
| PaymentSerializers.WithDefaultCurrencyIdempotent | apps/payments/serializers.py:31-32 | Validating twice is validating once |
| PaymentSerializers.ValidateCreateTransaction | apps/payments/serializers.py:29-33 | The dictionary is updated in place to `WithDefaultCurrency` of its old content, and the same dictionary is returned |

## Left out

- The `Transaction` model file is not part of this model. The fields are the ones the handlers read and write. `Status.Created` stands for whatever status a transaction has before any gateway touched it.
- Ledger.Locate: the model compares the key's text with the row's stored id text; Django first converts the key to the id field's type. Two kinds of key therefore behave differently:
  - Keys that convert to an existing id but are spelled differently are found by the source and "not found" by the model. Examples are "05" for 5, " 5", or another spelling of the same UUID.
  - Keys that do not convert make the source raise, and the model does not find them. On such a key the source's Click Prepare replies -9 and the Payme handlers raise, where the model replies "not found".
- Payme `account` parameter: a JSON-RPC `account` that is null or not an object makes `account.get` raise in `check_perform_transaction` and `create_transaction`. The model has no such case: the account's `transaction_id` is a payload field that may be absent or null.
- Payme.CheckPerformTransaction and Payme.CreateOutcome: a JSON amount that is a float with an integral value equals the stored integer in Python. Payload values have no float case here, so both refuse such an amount as a wrong amount (-31051).
- Amount conversions with floats (`int(float(amount) * 100)` and the Click `float(amount) != float(transaction.amount)`) are not modelled. Amounts are integers in minor units compared exactly. `float()` on a text amount is the `parseAmount` parameter.
- Clocks are parameters: `now` in milliseconds, and the Click timestamp in seconds. The datetime and millisecond conversions of `get_statement` are not modelled. A missing `from` or `to` is modelled as the exception it raises; other non-numeric bounds are not modelled.
- The exception text in Click's -9 replies (`str(e)`) is not modelled.
- MD5, SHA-1 and Base64 are parameters: the text to be hashed is modelled exactly, the digests are not. The UTF-8 encoding and decoding around them are folded into those parameters.
- Outbound HTTP calls to Click are not modelled (`create_invoice`, `prepare_payment`, status checks, reversal, card tokens), and neither is the Payme checkout page.
- Also out of scope:
  - JSON-RPC dispatch and the views and URL routing around the handlers;
  - settings and environment loading;
  - logging.
- Django REST framework's own field validation is not modelled, and the validators receive the values it would pass on. This covers `CharField` trimming, `min_length` and the requirement that registration fields are present. The last is why `RegisterValidate` requires both password keys.
- `authenticate` is a parameter returning a user or nothing. Backend rules such as refusing inactive users live behind it. The request context is not modelled.
- UserSerializers.PhoneDigits: `str.isdigit` also accepts non-ASCII digits; the model keeps only '0'–'9'.
- `str.lower()` is modelled on ASCII letters only. This is exact for the comparison with "basic", the only place it is used.
- ReviewModels.OverallScore: the mean is exact (a real number). The rounding to one decimal (`round(..., 1)` on a float) is not modelled, nor is the integer 0 versus float distinction of the result.
- Concurrency is not modelled. The source takes no locks; redelivery is modelled as repeated sequential calls.

# Asset hire: hire/asset lifecycle and M-Pesa payment reconciliation in Dafny

This project models the core of a Django rentals application. Staff record persons (hirers),
assets and hires; every time a hire is saved, its asset's status is forced from the hire's
status (active or paid: assigned; overdue or repossessed: repossessed). An M-Pesa C2B
notification arrives at a callback. The callback matches it to a hire by its bill reference,
ignores a transaction id that is already on record, and otherwise records one successful
payment and saves the hire as paid, which assigns its asset. The admin screens refuse a new hire
on an asset that is already assigned, and they keep a hire's reference and asset, and a
payment's receipt, settlement time and hire reference, out of the editable fields.

Modules:

- `Wrappers` (wrappers.dfy): `Option` and `Result`.
- `Models` (models.dfy): the records and their status enumerations; the defaults of a new record;
  the database invariant `Valid` (foreign keys, the copied hire reference, unique national id,
  unique id, registration number, hire reference and receipt); the lookups; and `Saved`, the
  meaning of `Hire.save`, with its lemmas.
- `Persistence` (store.dfy): class `Store`, whose fields are the four tables as sequences. It
  holds the callback's queries as loops, the inserts that the unique indexes guard, and
  `SaveHire`, which updates the asset and then the hire in place. Every state-changing method
  ties the new state to `Models`' functions and keeps `Valid`.
- `Views` (views.dfy): the request, the response and the callback. `Callback` is the pure
  meaning of the callback. `C2bCallback` is the imperative handler over a `Store`, proved equal to
  `Callback`, and the lemmas state the callback's properties.
- `Admin` (admin.dfy): `clean_asset`, the read-only field rules, the forms they produce and
  the hire form's save.

Modelling decisions:

- Row positions stand for primary keys, so "first" means first in primary-key order, as
  `.first()` orders an unordered query set.
- The `Hire` model as declared has no `reference_id` field, yet the callback and the admin use
  one. The model gives `Hire` a `reference`, unique and immutable, and gives `Payment` a
  `hireReference` copied from its hire at creation. The code as written fails on that lookup; see
  Findings.
- `HireStatus` has an `Unlisted(raw)` case, because the status column is plain text and
  `Hire.save` has a defined behaviour (no asset change) for a value outside the four choices.
- Money (`TransAmount`, `amount`, `daily_rate`) is in integer cents.
- A filter on a null value matches null columns. So a notification without `TransID` is a
  "duplicate" as soon as any payment has no receipt; `HasReceipt` compares the optional values.
- An exception raised inside the handler before the payment is created (views.py:58-87) is
  answered with "Internal server error" and writes nothing. This covers a body that is not
  UTF-8, JSON that is not an object, a `TransAmount` that float() cannot convert (null, a
  non-numeric string), and a missing `MSISDN`, which the NOT NULL `phone` column refuses.
  Invalid JSON gets its own answer. A failure after the payment is created is not modelled; see
  the transactions line under "Left out".
- The clock (`paid_at`) and the reference generator are inputs: `now` and `generated`.

## Model

| member | source | states |
|---|---|---|
| `Models.FindByReference` | rentals/views.py:71-73 | the hire found carries the reference and no earlier hire does; None exactly when no hire carries it |
| `Models.FindByUniqueReference` | rentals/views.py:71 | under unique references, the lookup finds the one hire that carries the reference |
| `Models.CountReceiptPositive` | rentals/views.py:76 | a receipt is counted on some payment exactly when some payment carries it |
| `Models.ReceiptAtMostOnce` | rentals/models.py:93-95 | under the unique index, a non-null receipt is on at most one payment |
| `Models.InsertPreservesValid` | rentals/models.py:90-95 | every payment insert the database accepts keeps receipts distinct and all keys and references valid |
| `Models.NewPaymentInsertable` | rentals/models.py:93-99 | a payment created with the defaults is pending, unsettled, has no receipt and is always accepted |
| `Models.SaveAssigns` | rentals/models.py:64-66 | saving an active or paid hire leaves its asset assigned |
| `Models.SaveRepossesses` | rentals/models.py:69-71 | saving an overdue or repossessed hire leaves its asset repossessed, whatever it was |
| `Models.SaveUnlistedKeepsAssets` | rentals/models.py:64-71 | a status outside the choices leaves every asset unchanged |
| `Models.SaveFrame` | rentals/models.py:62-73 | a save changes only the saved hire's row and its own asset's status; persons, payments, other hires and other assets are unchanged |
| `Models.SaveIdempotent` | rentals/models.py:62-73 | saving the same hire twice gives the same tables as saving it once |
| `Models.SavePreservesValid` | rentals/models.py:62-73 | a save with an existing person and asset and an unchanged, unused reference keeps the database valid |
| `Models.NewHireAssignsAsset` | rentals/models.py:58-66 | a hire created with the defaults is active and its asset becomes assigned |
| `Persistence.Store.FindHire` | rentals/views.py:71 | the loop returns the first hire carrying the reference, None exactly when there is none |
| `Persistence.Store.ReceiptExists` | rentals/views.py:76 | the loop answers whether some payment carries the receipt (null matching null) |
| `Persistence.Store.RegistrationTaken` | rentals/models.py:33 | the loop answers whether an asset holds the registration number |
| `Persistence.Store.PersonKeyTaken` | rentals/models.py:10-13 | the loop answers whether a person holds the national id, or the unique id when one is given |
| `Persistence.Store.AddPerson` | rentals/models.py:8-15 | a clash on national_id or unique_id is refused with nothing written; otherwise exactly one person is appended |
| `Persistence.Store.AddAsset` | rentals/models.py:24-36 | a clash on registration_number is refused with nothing written; otherwise one asset is appended with status available |
| `Persistence.Store.InsertPayment` | rentals/models.py:83-99 | exactly one payment row is appended, nothing else changes, and the store stays valid |
| `Persistence.Store.AddPayment` | rentals/models.py:96-99 | a payment created with the defaults is appended as pending, with no receipt and no paid_at |
| `Persistence.Store.SaveHire` | rentals/models.py:62-73 | the asset's status is projected and the hire row written, as Saved says; the store stays valid |
| `Persistence.Store.AddHire` | rentals/models.py:58-73 | a new hire is active and its asset assigned after the save |
| `Views.C2bCallback` | rentals/views.py:43-100 | the handler's response and new tables are exactly those of Callback, and the store stays valid |
| `Views.NonPostRejected` | rentals/views.py:53-56 | a non-POST request gets code 1 "Invalid request method" and nothing changes |
| `Views.MissingReferenceRejected` | rentals/views.py:67-68 | a missing or empty BillRefNumber gets code 1 "Missing BillRefNumber", nothing changes, and the answer does not depend on the tables |
| `Views.UnknownReferenceRejected` | rentals/views.py:71-73 | a reference no hire carries gets code 1 "Hire not found" and nothing changes |
| `Views.DuplicateAcknowledged` | rentals/views.py:76-77 | a transaction id already on a payment gets code 0 "Duplicate transaction ignored" and nothing changes |
| `Views.PaymentRecorded` | rentals/views.py:80-93 | exactly one success payment is appended (hire, reference, amount, phone, receipt, paid now); the hire becomes paid, its asset assigned, nothing else changes |
| `Views.ResultCodes` | rentals/views.py:53-100 | every path answers 0 or 1; code 1 writes nothing; code 0 means a payment with the transaction id exists afterwards |
| `Views.CallbackPreservesValid` | rentals/views.py:80-91 | the callback keeps the database invariant, receipts unique included |
| `Views.RedeliveryIsDuplicate` | rentals/views.py:76-91 | after a recorded payment the same notification is ignored as a duplicate, and exactly one payment carries the receipt |
| `Views.CallbackIdempotent` | rentals/views.py:76-91 | a second delivery of any notification writes nothing more; it gets the duplicate answer after a success and the same answer otherwise |
| `Views.AsWrittenNeverRecords` | rentals/views.py:71-100 | with the lookup on the undeclared field, no request changes the tables or is acknowledged as received |
| `Views.AsWrittenLosesPayment` | rentals/views.py:71-93 | the worked notification is answered with the internal error as written, and recorded once the field exists |
| `Views.ReplayScenario` | rentals/views.py:43-100 | the worked delivery records one payment of 500.00 with receipt T1, the hire becomes paid, the asset stays assigned, and the replay is a duplicate |
| `Admin.CleanAsset` | rentals/admin.py:34-39 | an accepted asset is returned unchanged; a refusal carries "This asset is already assigned." |
| `Admin.CleanAssetRejectsAssignedOnCreate` | rentals/admin.py:37-38 | a hire being created may not take an assigned asset |
| `Admin.CleanAssetAcceptsFreeOnCreate` | rentals/admin.py:37-39 | on create, an asset that is not assigned is accepted unchanged |
| `Admin.CleanAssetAcceptsOnEdit` | rentals/admin.py:37-39 | when editing an existing hire, any asset is accepted unchanged |
| `Admin.HireReadonlyFields` | rentals/admin.py:65-69 | the read-only fields are exactly reference_id and asset for an existing hire, and exactly reference_id on the add page |
| `Admin.EditKeepsReferenceAndAsset` | rentals/admin.py:65-69 | editing a hire changes neither its reference nor its asset |
| `Admin.CreateTakesGeneratedReference` | rentals/admin.py:63-69 | an added hire takes the generated reference, never one from the form |
| `Admin.PaymentEditKeepsSettlement` | rentals/admin.py:87 | editing a payment never changes mpesa_receipt, paid_at or hire_reference |
| `Admin.PaymentCreateUnsettled` | rentals/admin.py:87 | a payment added through the form has no receipt, no paid_at and its hire's reference |
| `Admin.AdminCreateOnAssignedRefused` | rentals/admin.py:34-39 | adding a hire on an assigned asset is refused |
| `Admin.AdminCreateAssigns` | rentals/admin.py:34-39 | an accepted add of an active or paid hire takes an unassigned asset and leaves it assigned |
| `Admin.AdminSavePreservesValid` | rentals/admin.py:63-69 | saving the hire form keeps the database valid, because the reference and the asset are read-only on edit |

## Left out

- `get_mpesa_access_token` (rentals/views.py:15-37): it reads environment variables and makes an outbound HTTP call. It has no internal logic.
- JSON decoding, the Django ORM and `JsonResponse`: the decoded body is an input (`Body`), and the response is a code and a description.
- The float conversion of `TransAmount`: amounts are integer cents. Rounding to two decimal places, `max_digits`, and non-numeric JSON types in other fields are not modelled.
- Field lengths (`max_length`): the model assumes a database that does not enforce them, as SQLite does not. On one that does, such as PostgreSQL, an MSISDN over 20 characters or a TransID over 100 (models.py:92-95) makes the payment insert raise; the handler then answers "Internal server error" and writes nothing, whereas `Callback` records the payment.
- Concurrency and transactions: each callback is one atomic step. So the race between the duplicate check and the insert, and the unique index's refusal of a second insert, are not modelled as separate paths. The handler opens no transaction, so if `hire.save()` (views.py:91) failed after the payment insert, the payment would stay written with the hire unchanged; the model has no such failure.
- Persistence.Store.InsertPayment: it requires what the unique index admits, a null or new receipt, rather than modelling the refusal as an error path. The callback reaches it only after the duplicate check.
- Generation of reference codes: the source defines no generator, so references are given, unused inputs.
- The `print` in the generic error handler (views.py:99): console output only.
- Admin list, search, filter and ordering settings, `__str__` methods, deploy_setup.py and config/urls.py: display, bootstrap and routing only.
- Person and Asset deletion protection (`on_delete=PROTECT`): no delete operation is modelled.
- Admin editing of a payment's `hire` or `status`: both fields stay editable. A payment moved to another hire keeps its old `hire_reference`, and a status set to success leaves `paid_at` empty. The admin save of payments is therefore not part of the store model.
- Admin edits of an asset's status directly: the admin allows them, but they are not an operation of this model.

The admin `list_display` and `search_fields` settings also name `reference_id` and `hire_reference`, fields the declared models lack. Only the lookup in the callback is modelled as written (Findings).

## Findings

| source | as written | input that shows it | evidently intended | confidence | as-written member | corrected member |
|---|---|---|---|---|---|---|
| rentals/views.py:71 | filters hires on `reference_id`, which the Hire model (rentals/models.py:45-60) does not declare; the field error is caught at views.py:98-100 and answered "Internal server error" | a POST with `{"TransID":"T1","MSISDN":"254700000000","TransAmount":500,"BillRefNumber":"AB12CD34EF56"}` for a hire with that reference | Hire carries a unique reference that the lookup matches, so the payment is recorded | medium, not executed (a migration or other file outside this model may declare the field) | `Views.AsWrittenNeverRecords` | `Views.PaymentRecorded` |

# Dental clinic record service: verified model

This project models the core of a small clinic's record backend in Dafny. The core is a generic CRUD engine over a registry of schemas. A registry maps eight lowercase collection names to schemas: receptionists, doctors, patients, procedures, appointments, payments, reports and consumables. The engine offers every collection the same five operations: list, get, create, update and delete.

- **Create** validates the whole payload against the collection's schema and fills in defaults before anything is stored.
- **Update** takes the stored record without `_id` and lays the payload over it. It validates that merge, and only then writes the payload's fields. A payload that would change `_id` is refused with 500, as the database refuses the write.
- **Get and Delete** refuse a malformed identifier with 400 and an unknown one with 404.
- **Every operation** lowercases the collection name first. An unknown name gets 404.
- **Responses** carry identifiers as 24-digit lowercase hexadecimal strings instead of native ids.

## Modules

- `Values` is the document data model. A value is null, a boolean, an integer, a real, a string, a date, a date-time, a list, an object or a native identifier.
- `ObjectIds` covers native identifiers. An identifier is a number below 16^24. It is written as 24 lowercase hex digits, and it is parsed from exactly 24 hex digits in either case. Both round trips are proved.
- `Ascii` is the lowercasing of collection names.
- `Validation` is a schema-driven validator, `CheckValue`/`CheckFields`, over a small type language. The type language has strings, booleans, bounded integers and reals, dates, literal choices, lists, nested models and free dictionaries. Bound checks of reals admit integers, as the source's float fields do. Beside the validator sits an independent reference predicate, `Conforms`/`FieldsConform`. The lemmas prove four things:
  - the validator succeeds exactly when the payload conforms;
  - a failure reports a non-empty list of violations, covering every failing field and only those;
  - a success returns a record that conforms, holds exactly the declared fields, and keeps each supplied value whose type has no coercion and no defaults inside (an integer given to a real field becomes a real, and nested line items drop their undeclared keys);
  - absent fields get their declared defaults.
- `Schemas` holds the nine models of the clinic as field tables, with `Validate` over them. One lemma per schema rule pins down what the validator then does.
- `Registry` holds the collection map and the lowercase lookup.
- `Serialization` is `serialize_doc`: the field-by-field loop, proved against its specification function.
- `RecordService` has one outcome function per endpoint over the store value: `GetResult`, `CreateOutcome`, `UpdateOutcome` and `DeleteOutcome`. A write's outcome is its response plus the new store. The `Service` class holds the store in a field, and each of its methods is proved equal to its outcome function. Every method also keeps the invariant `Valid()`: every stored record carries its own `_id` and satisfies its collection's schema.
- `StoreLaws` proves what the operations promise together:
  - a failed write changes nothing;
  - an unknown collection, a malformed identifier and a missing record get their 404, 400 or 422 answers;
  - a create adds one record and a read then gives it back;
  - an update writes exactly the payload's fields and is idempotent;
  - a second delete finds nothing.

### The outside world

- The database becomes the `Store` value. It maps each collection to a map from identifiers to documents.
- The identifier the database assigns on insert becomes the `freshId` parameter. It must be unused.
- The clock behind the `datetime.utcnow` default of `Payment.date_time` becomes the `now` parameter.
- The store's order of listing becomes the nondeterministic choice in `Collect`. Only the set of records listed and their count are specified, not their order.

### Where the code may not do what it is meant to

The bound `min(limit, 500)` at main.py:115, with its default of 100 at main.py:111, is evidently meant to cap a listing at 500 records. The code passes that number to `get_documents`, whose body is in `database.py`, which is not part of this model. `ListBound` assumes that `get_documents` hands the number to the database cursor unchanged, and that the cursor reads it as MongoDB's `limit` does: 0 means no limit, and a negative `n` means `|n|`. Under that assumption only a missing or positive limit is capped, at 100 or at 500. A limit of 0 lists every record, and a limit of -1000 lists up to 1000. `IntendedBound` states the evident intent: the limit, 100 when absent, kept between 0 and 500. `ListBoundAsIntended` proves the two agree for a missing or positive limit. `NonPositiveLimitEscapesCap` proves they differ for every limit of 0 or below, and that below -500 the cursor's bound exceeds the cap of 500.

An update whose write matches nothing answers 404 (main.py:165-166). In a sequential store the record was found just before the write, so that path does not happen (see "Left out").

## Model

| member | source | states |
|---|---|---|
| Serialization.SerializeDoc | main.py:35-45 | the loop returns the document with every native identifier value replaced by its string form; an empty document stays empty |
| Serialization.SerializedFields | main.py:38-44 | a serialized document has the same keys, holds no native identifier, maps each identifier to the string that parses back to it, and leaves every other value unchanged |
| Serialization.SerializedIdempotent | main.py:35-45 | serializing twice is serializing once; a document without native identifiers is returned as it is |
| ObjectIds.ParseId | main.py:124 | an identifier string is accepted exactly when it is 24 hexadecimal digits |
| ObjectIds.IdString | main.py:40 | the string form of an identifier is 24 lowercase hexadecimal digits |
| ObjectIds.IdRoundTrip | main.py:40-44 | parsing the string form of an identifier gives the identifier back |
| ObjectIds.ParsedIdString | main.py:124 | the string form of a parsed identifier is the lowercase of the string it was parsed from |
| ObjectIds.FormatParse | main.py:124 | formatting the value of a hex string gives the string back lowercased |
| ObjectIds.IdBoundDigits | main.py:124 | the literal bound of the identifier type equals 16^24, the number of values 24 hex digits can write, so every parse of an identifier string is an identifier |
| ObjectIds.ParseFormat | main.py:40 | parsing a k-digit formatting of a number below 16^k gives the number back |
| Ascii.Lower | main.py:112 | lowercasing keeps the length and lowers each capital letter, and nothing else |
| Ascii.LowerIdempotent | main.py:112 | lowercasing twice is lowercasing once, and leaves a lowercase name unchanged |
| Registry.Name | main.py:47-56 | each model's collection name is a key of the registry that maps back to that model |
| Registry.Lookup | main.py:112-114 | a collection name finds a model exactly when its lowercase is a registered name |
| Registry.RegistryShape | main.py:47-56 | the registry has exactly eight entries, and no two models share a name |
| Registry.NamesAreLowerClassNames | schemas.py:4-9 | each collection is named by the lowercase of its model's class name |
| Registry.LookupByClassName | main.py:112-114 | a model's class name and its collection name both find that model |
| Registry.LookupExactly | main.py:112-114 | a name finds a model exactly when it lowercases to that model's collection name |
| Registry.PaymentItemIsNoCollection | main.py:47-56 | `PaymentItem`, the model of payment line items, is not a collection under any capitalisation |
| Validation.CheckValueSound | schemas.py:23-112 | a value passes the validator exactly when it conforms to its type |
| Validation.CheckFieldsSound | schemas.py:23-112 | a payload passes the model's validator exactly when every declared field conforms |
| Validation.FailingNamesStep | schemas.py:23-112 | the failing fields from position i on are the field at i when it fails, plus the failing fields after it |
| Validation.CheckFieldsReportsAll | schemas.py:23-112 | a failure reports at least one violation, and the fields the violations name are exactly the failing fields |
| Validation.CheckFieldOutput | schemas.py:23-112 | a field that passes holds a conforming value, or `None` when it is optional and given `None`; an omitted field holds its default; a supplied value of a plain type is kept |
| Validation.CheckFieldsOutput | schemas.py:23-112 | a success holds exactly the declared fields, each holding the value its own field check gives |
| Validation.CheckValueOutput | schemas.py:23-112 | a validated value conforms to its type; a value of a type with no coercion and no defaults inside comes back unchanged |
| Schemas.ModelsWellFormed | schemas.py:23-112 | every model declares distinct field names, and every default satisfies its field's type |
| Schemas.Validate | main.py:138 | validation succeeds exactly when the payload conforms to the model |
| Schemas.ValidateDetails | main.py:138 | a failed validation reports at least one violation and names all and only the failing fields; a success has exactly the model's fields and conforms |
| Schemas.RequiredField | schemas.py:24-112 | a validated payload supplied every required field, and a missing one is reported as missing |
| Schemas.DefaultField | schemas.py:24-112 | an omitted optional field holds its declared default in the record |
| Schemas.RecordField | schemas.py:24-112 | every field of a validated record satisfies its declaration |
| Schemas.PatientRequired | schemas.py:39-40 | a patient names a first and a last name |
| Schemas.PatientBalance | schemas.py:50 | a patient's balance is never negative, is 0 when omitted, and a negative one is reported as too small |
| Schemas.PatientAllergies | schemas.py:46 | a patient's allergies default to an empty list |
| Schemas.StaffRules | schemas.py:24-36 | receptionists and doctors need a name and an email, and are active unless told otherwise |
| Schemas.ReceptionistShift | schemas.py:27 | a shift is morning, evening or night, morning when omitted, and any other value is refused |
| Schemas.DurationRules | schemas.py:61-68 | procedure and appointment durations are whole numbers in [5, 480], 30 when omitted; values outside are refused |
| Schemas.ProcedureFee | schemas.py:62 | a procedure's base fee is required and never negative |
| Schemas.AppointmentRequired | schemas.py:65-67 | an appointment names its patient, its doctor and its start time |
| Schemas.AppointmentStatus | schemas.py:70 | an appointment's status is one of six states, scheduled when omitted; any other value is refused |
| Schemas.PaymentAmount | schemas.py:86 | a payment's amount is required and never negative |
| Schemas.PaymentMethod | schemas.py:87 | a payment's method is required and is cash, card, transfer or insurance |
| Schemas.PaymentDefaults | schemas.py:88-91 | a payment is paid, dated now and has no line items unless told otherwise |
| Schemas.PaymentItemAmounts | schemas.py:80-91 | every line item of a validated payment is an object with a non-negative amount |
| Schemas.ConformingItems | schemas.py:80-91 | a list that conforms to the line-item list type is a list of objects, each with a non-negative amount |
| Schemas.NegativeItemInList | schemas.py:80 | a line-item list with a negative amount at some index fails, reporting that index and `amount` as too small |
| Schemas.NegativeItemReported | schemas.py:80 | a line item with a negative amount fails the payment, reported under `items`, its index and `amount` |
| Schemas.ReportType | schemas.py:95 | a report's type is required and is one of four kinds |
| Schemas.ConsumableUnit | schemas.py:107 | a consumable's unit is one of seven units, pcs when omitted; any other value is refused |
| Schemas.ConsumableQuantities | schemas.py:108-110 | stock, reorder level and unit cost are never negative, are 0 when omitted, and a negative one is reported |
| RecordService.ListBound | main.py:111-115 | the listing bound is 100 without a limit, the limit capped at 500 when positive, none for 0 and the magnitude when negative |
| RecordService.IntendedBound | main.py:111-115 | the evidently intended bound never exceeds 500, is 100 without a limit, never exceeds a non-negative limit, and is 0 for a limit of 0 or below |
| RecordService.ListBoundAsIntended | main.py:111-115 | for a missing or positive limit, the bound the cursor applies is the intended one |
| RecordService.NonPositiveLimitEscapesCap | main.py:115 | for a limit of 0 or below, the cursor's bound differs from the intended one: 0 is unbounded, and a limit below -500 is bounded above 500 |
| RecordService.Merged | main.py:156-157 | the record an update validates has the existing keys without `_id` plus the payload's; payload values win, others are kept |
| RecordService.Patched | main.py:164 | a `$set` write keeps every existing field the payload does not name and takes the payload's value for every one it does |
| RecordService.PatchIdempotent | main.py:164 | writing the same payload twice equals writing it once, and the result validates as the original did |
| RecordService.ConformsOnFields | main.py:138 | whether a document satisfies a model depends only on the model's declared fields; extra keys are ignored |
| RecordService.NoIdField | main.py:156 | no model declares an `_id` field |
| RecordService.EmptyStoreValid | main.py:47-56 | the empty store has every collection, each empty |
| RecordService.StampStored | main.py:138-141 | a validated record stamped with its identifier is a valid stored record of its collection |
| RecordService.PatchStored | main.py:153-164 | patching a stored record with a payload whose merge validates and that does not change `_id` keeps it a valid stored record under the same identifier |
| RecordService.PutKeepsTable | main.py:141 | setting a valid record in a valid collection keeps the collection valid |
| RecordService.UpdateShape | main.py:145-168 | an update either leaves the store unchanged or returns the patched record serialized and stores it under its identifier |
| RecordService.PutKeepsValid | main.py:141 | storing a record that carries its identifier and satisfies its schema keeps the store valid |
| RecordService.RemoveKeepsValid | main.py:176 | removing a record keeps the store valid |
| RecordService.CreateKeepsValid | main.py:131-143 | a create leaves every stored record in schema |
| RecordService.UpdateKeepsValid | main.py:145-168 | an update leaves every stored record in schema |
| RecordService.DeleteKeepsValid | main.py:170-181 | a delete leaves every remaining record in schema |
| RecordService.Collect | main.py:115-116 | the cursor lists distinct records of the table, each serialized, no more than the bound, and all of them when the table fits the bound |
| RecordService.Service.constructor | main.py:47-56 | a new service holds every collection, empty |
| RecordService.Service.List | main.py:110-116 | an unknown collection gets 404; otherwise distinct serialized records of it, at most the bound, all of them when within it; the store is not changed |
| RecordService.Service.Get | main.py:118-129 | the read is `GetResult`, whose error cases `UnknownCollection`, `MalformedId` and `MissingRecord` state and whose success `CreateThenGet` and `GetReturnsId` state |
| RecordService.Service.Create | main.py:131-143 | the store and response are `CreateOutcome`'s, and the store stays valid |
| RecordService.Service.Update | main.py:145-168 | the store and response are `UpdateOutcome`'s, and the store stays valid |
| RecordService.Service.Delete | main.py:170-181 | the store and response are `DeleteOutcome`'s, and the store stays valid |
| StoreLaws.FailedCreateChangesNothing | main.py:133-140 | a create that fails leaves the store as it was |
| StoreLaws.FailedUpdateChangesNothing | main.py:147-162 | an update that fails leaves the store as it was |
| StoreLaws.FailedDeleteChangesNothing | main.py:172-180 | a delete that fails leaves the store as it was |
| StoreLaws.CreateValidates | main.py:137-140 | a create is refused unprocessable exactly when the collection exists and the payload does not conform; it succeeds exactly when it does |
| StoreLaws.CreateAddsOne | main.py:141-143 | a successful create adds exactly one record, under the fresh identifier, keeps every other record, and returns that record serialized |
| StoreLaws.CreateStoresRecord | main.py:137-141 | the created record carries the fresh `_id`, satisfies its schema and holds exactly its model's fields and `_id` |
| StoreLaws.CreateThenGet | main.py:142-143 | reading a just-created record by its identifier's string gives what the create returned |
| StoreLaws.GetReturnsId | main.py:124-129 | a record read back carries as `_id` the lowercase of the identifier string it was asked for by |
| StoreLaws.MalformedId | main.py:123-126 | a malformed identifier gets 400 from get and delete, and 422 from update (main.py:159-162) |
| StoreLaws.UnknownCollection | main.py:120-122 | an unknown collection gets 404 from read, create, update and delete, whatever the identifier and payload, and the store is unchanged (also main.py:133-135, 147-149, 172-174) |
| StoreLaws.MissingRecord | main.py:127-128 | a well-formed identifier with no record gets 404 from read, update and delete, and the store is unchanged (also main.py:154-155, 179-180) |
| StoreLaws.UpdateValidatesMerge | main.py:153-162 | an update of an existing record is refused unprocessable exactly when the merge of record and payload does not conform |
| StoreLaws.UpdateWritesPayload | main.py:164-168 | a successful update writes exactly the payload's fields, keeps the record's other fields and every other record, and returns the record serialized |
| StoreLaws.UpdateStoresRecord | main.py:153-164 | the updated record keeps its identifier and satisfies its schema |
| StoreLaws.UpdateIdempotent | main.py:164 | repeating a successful update returns the same record and leaves the same store |
| StoreLaws.DeleteTwice | main.py:175-181 | a successful delete removes exactly that record; a second delete and a read of it then get 404 |
| StoreLaws.NegativeBalanceRefused | schemas.py:50 | updating a patient's balance to a negative number, integer or real, is refused naming `balance` as too small, and the store is unchanged |
| StoreLaws.PutEffect | main.py:164 | setting one record keeps every other record, and adds one only when the identifier was new |
| StoreLaws.RemoveEffect | main.py:176 | removing one record keeps every other record |

## Left out

- The health check, the `/schema` endpoint, the CORS middleware and the process bootstrap are wiring around the core (main.py:21-29, 58-104, 184-187).
- `database.py` is not part of this model. Insertion is modelled as "store the validated record under a fresh identifier", and listing as the cursor loop `Collect`.
- Error messages are not modelled. The source answers 422 with pydantic's message text; the model answers with the list of violations, each a field path and a kind of problem.
- Pydantic's value coercions beyond integer-to-real are not modelled. Strings are not parsed into numbers, booleans or dates. Dates and date-times are opaque tokens, and only their type is checked.
- Extra keys in a payload are ignored by validation, as pydantic does, and a create stores only the declared fields. The extra keys an update writes with `$set` stay in the record: `Patched` keeps them.
- Dotted and `$`-prefixed keys in a `$set` payload are taken as plain field names. The database's path and operator interpretation of them is not modelled.
- An empty update payload is written as a no-op, as MongoDB 5.0 and later do. Older servers refuse an empty `$set`; that version-dependent error is not modelled.
- RecordService.UpdateOutcome: the 404 for a write that matches nothing (main.py:165-166) arises only when another client deletes the record between the read and the write. That race is concurrency and is not modelled, so a found record is always written.
- Identifier strings containing whitespace are refused by the model, which requires exactly 24 hex digits. The source's `ObjectId(str)` checks only the length before decoding the hex, and the decoding skips whitespace between digit pairs. Such a 24-character string may then yield a shorter identifier instead of an error. What the source then does is not modelled.
- Store failures are not modelled: the `Store` is a total map that always answers. In the source, a broad `except Exception` turns any failure of `find_one` or `delete_one` into 400 "Invalid id" on read (main.py:123-126) and delete (main.py:175-178), and into 422 on update (main.py:151-162). A lost connection or an unset `db` counts as such a failure. A failure of `create_document` or `update_one` surfaces as 500 (main.py:141, 164). In the model, 400 and 422 answer only a malformed identifier.
- RecordService.UpdateOutcome: the 500 answer to a payload that changes the record's `_id` is an assumption about the store. It rests on MongoDB refusing to change `_id` through `$set`, which the source does not show: the failing `update_one` (main.py:164) is not caught and surfaces as 500. A payload whose `_id` equals the stored one is written as a no-op for that field.
- Floating point is modelled as exact reals. Rounding and non-finite values are not covered.
- RecordService.ListBound: the cursor reading of the bound is an assumption about `get_documents`, whose body is not part of this model. For a missing or positive limit the contract states the intended `min(limit, 500)`, with 100 by default. For 0 it states no bound, and for a negative limit a bound of `|limit|`, as the cursor would apply them. That is not the intended cap of 500.
- Ascii.Lower: lowercasing covers ASCII letters only. Unicode case mapping is not modelled. This changes no lookup: the only non-ASCII character whose lowercase is an ASCII letter is U+212A, the Kelvin sign, which lowercases to `k`, and no registered name contains `k`.
- Serialization.SerializeDoc: like the source, it converts only top-level native identifiers. Identifiers nested in lists or objects stay native.
- `datetime.utcnow` and the database's choice of a new identifier are not modelled. They become the `now` and `freshId` parameters.

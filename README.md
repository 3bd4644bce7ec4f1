# Resort reservations: a Dafny model

A small resort reservation service has two parts. The backend is a Flask app that keeps a list of
reservation records, each a JSON object, and persists it to a JSON file. It comes in two variants:

- `backend/app1.py`, the full variant:
  - allocates an id;
  - folds the flat contact and ID fields into nested objects;
  - coerces `guests`;
  - stamps times;
  - validates against a schema.
- `backend/app.py`, the minimal variant: it appends, merges and filters records as they come.

The browser page comes in two copies, `frontend/script.js` and `frontend/script2.js`. It:

- checks the reservation form before sending it;
- renders the fetched list newest first. `escapeHtml` guards the guest, address, resort and payment cells; the id, check-in, checkout and guests cells are interpolated unescaped;
- in the second copy, also builds a details view.

This project models the following.

- **Backend**:
  - `Json`: record values, and Python's `int()` and `==` as applied to them.
  - `Records`: the id search and the delete filter that both backends share.
  - `FullBackend`: `app1.py`. A `Reservations` class holds the module-level `reservations` list, and its methods are the four handlers.
  - `MinimalBackend`: `app.py`. A `DataFile` class stands for the JSON file, with `Read`/`Write`. The handlers are methods over it.
  - Python exceptions the handlers do not catch are modelled as a `ServerError` reply that leaves the state unchanged:
    - a record without an `"id"`;
    - a stored record missing one of the keys an update reads with `res[k]` (`guest_name`, `street_address`, `municipality`, `region`, `country`, `valid_id`, `guests`), since those defaults are evaluated before the lookup in the body;
    - `int()` failing during an update;
    - a non-numeric last id.
- **Browser**:
  - `JsValue`: JavaScript values, truthiness, `||` and `String(v)`.
  - `HtmlEscape`: `escapeHtml` and its decoding round trip.
  - `SubmitForm`:
    - `trim`;
    - the `/^09\d{9}$/` phone test;
    - `parseInt(…, 10) || 1`;
    - date-input values and the checkout-after-check-in rule;
    - the payload.
  - `ReservationTable`:
    - the address join;
    - `slice().reverse()`;
    - the row cells;
    - the "Valid ID" detail line.

## Model

| member | source | states |
|---|---|---|
| Json.PyIntCall | backend/app1.py:63 | `int(v)` on a JSON number is that number; on null, a list or an object it raises TypeError (None) |
| Records.FirstHit | backend/app1.py:95-97 | the scan stops at the first record whose id equals the requested one, after records that all have a different id; a record without "id" stops it with a KeyError |
| Records.ScanStopsAtFirstHit | backend/app1.py:95-97 | only one outcome fits that description: the first match is unique |
| Records.FindFirst | backend/app1.py:95-97 | the `for res in reservations` loop finds exactly `FirstHit` |
| Records.Without | backend/app1.py:129 | the comprehension keeps exactly the records whose id differs from the requested one and never grows the list |
| Records.WithoutConcat | backend/app1.py:129 | filtering distributes over concatenation, so the kept records stay in their original order |
| Records.WithoutKeepsAllIff | backend/app1.py:129-131 | the filtered list has the old length exactly when no record has the id |
| Records.Delete | backend/app1.py:129-132 | KeyError iff some record lacks an id; not found iff no record matches; otherwise the remaining list is the filter and strictly shorter |
| FullBackend.Created | backend/app1.py:44-73 | the new record's keys are the body's keys less the four flat keys, plus the stamped ones. `id` is the allocated id. `contact` is {phone, email} and `valid_id` is {type, number}, each taken from the body or "". `guests` is the coerced number and `resort_id` is the body's value or 1. `created_at` equals `updated_at`. Every other key is copied unchanged |
| FullBackend.Edited | backend/app1.py:107-117 | the update fails (KeyError/int error) exactly when a required old key is missing or `guests` is not coercible. On success, the eight listed keys take the request value, else the old one, and `resort_name` falls back to null. `updated_at` is refreshed and every other key is untouched |
| FullBackend.EditWithNoChangesOnlyStamps | backend/app1.py:107-117 | for a record that already has every key PUT reads, plus `resort_name` and `updated_at`, and a numeric `guests`, an update whose body only repeats stored values changes only `updated_at` |
| FullBackend.EditAddsNullResortName | backend/app1.py:114 | a record stored without `resort_name`, updated by a body that does not set it, gains `"resort_name": null`, so even an empty body changes more than `updated_at` |
| FullBackend.CountId | backend/app1.py:44 | the id `len(reservations) + 1` is at least 1, and above every id while the ids are exactly 1, 2, …, n |
| FullBackend.CountIdRepeatsAfterDelete | backend/app1.py:44 | with ids [1, 2], deleting 1 and then adding gives a second record with id 2 |
| FullBackend.MaxId | backend/app1.py:44 | the largest id in the list: at or above every id and equal to one of them (0 for an empty list) |
| FullBackend.NextFreeId | backend/app1.py:44 | the corrected allocator returns the largest id + 1 (1 for an empty list), so an id above every existing id |
| FullBackend.NextFreeIdKeepsDistinct | backend/app1.py:44 | adding with the corrected allocator keeps ids distinct |
| FullBackend.WithoutKeepsDistinct | backend/app1.py:129 | delete keeps ids distinct |
| FullBackend.Stamped | backend/app1.py:62-73 | setting the stamps adds exactly `guests`, `resort_id`, `created_at` and `updated_at`: `guests` is the converted number, `resort_id` keeps a present value or becomes 1, both times are `now`, and every other key is unchanged |
| FullBackend.StampingCompletesCreated | backend/app1.py:62-73 | once the flat keys are folded, setting `guests`, the `resort_id` default and the two stamps gives exactly the `Created` record |
| FullBackend.Reservations.constructor | backend/app1.py:17-24 | the list starts as what was loaded from the file |
| FullBackend.Reservations.GetReservationById | backend/app1.py:94-98 | returns the first matching record, or not found when none matches, or a server error on a record without id; the list is not changed |
| FullBackend.Reservations.AddReservation | backend/app1.py:39-88 | a non-integer `guests` gives "Guests must be an integer" and a schema failure gives "Schema validation failed: " + message, both with the list unchanged; otherwise exactly the `Created` record with id `len + 1` is appended |
| FullBackend.Reservations.UpdateReservation | backend/app1.py:101-122 | only the first matching record becomes its `Edited` form and every other record is unchanged; no match gives not found with the list unchanged |
| FullBackend.Reservations.DeleteReservation | backend/app1.py:127-138 | the list becomes the filter on success; not found or a KeyError leaves it unchanged |
| MinimalBackend.DataFile.constructor | backend/app.py:13-18 | the file holds the initial records and nothing has been written |
| MinimalBackend.DataFile.Read | backend/app.py:13-18 | reading returns the stored records |
| MinimalBackend.DataFile.Write | backend/app.py:21-23 | writing replaces the stored records and counts one write |
| MinimalBackend.NextId | backend/app.py:38 | 1 for an empty list; fails exactly when the last record has no numeric id; on an increasing list the id exists and exceeds every existing id |
| MinimalBackend.AddKeepsIdsIncreasing | backend/app.py:38-39 | appending with the allocated id keeps ids strictly increasing |
| MinimalBackend.TailIdsIncreasing | backend/app.py:61 | the tail of an increasing list is increasing and above its head |
| MinimalBackend.ConsIdsIncreasing | backend/app.py:61 | a head below an increasing tail gives an increasing list |
| MinimalBackend.DeleteKeepsIdsIncreasing | backend/app.py:61 | the delete filter keeps ids strictly increasing |
| MinimalBackend.UpdateWithoutIdKeepsIdsIncreasing | backend/app.py:51 | a merge whose body has no "id" keeps ids increasing |
| MinimalBackend.UpdateWithIdCanBreakOrder | backend/app.py:51 | a merge whose body carries "id" can break the order: ids [1, 2], body {"id": 5} |
| MinimalBackend.AddReservation | backend/app.py:35-41 | the body, with `id` overwritten by last id + 1 (1 if empty), is appended and written once; a non-numeric last id or a missing last id fails without writing |
| MinimalBackend.UpdateReservation | backend/app.py:46-54 | the first match becomes `old + body` (every body key overwrites), others unchanged, one write; no match is not found with no write |
| MinimalBackend.DeleteReservation | backend/app.py:59-65 | on success the filter is written once; not found when nothing is removed, with no write |
| JsValue.NatToDecimal | frontend/script.js:74 | `String(n)` is a non-empty run of decimal digits without leading zeros: "0" for 0, otherwise not starting with "0" |
| JsValue.DecimalRoundTrip | frontend/script.js:211 | the value of `String(n)`'s digits is `n` |
| JsValue.TruthyTextNonEmpty | frontend/script.js:46 | a truthy value never prints as "" |
| HtmlEscape.ReplaceAll | frontend/script.js:75 | `replace(/c/g, rep)` leaves no `c` when `rep` has none and introduces only characters of `rep` or the input |
| HtmlEscape.EscapeText | frontend/script.js:74-78 | the replace chain leaves no `<`, `>` or `"` |
| HtmlEscape.EscapeHtml | frontend/script.js:72-79 | falsy input other than 0 gives "", 0 gives "0". The output has no `<`, `>` or `"`, and every `&` starts an entity. Decoding the output gives `String(input)`. The second copy at frontend/script2.js:35-42 behaves the same |
| HtmlEscape.ReplaceAllConcat | frontend/script.js:75-78 | a global replace works piece by piece |
| HtmlEscape.ReplaceAllAbsent | frontend/script.js:75-78 | a replace of an absent character changes nothing |
| HtmlEscape.EscapeIsSinglePass | frontend/script.js:75-78 | because `&` is replaced first, the four chained replaces equal escaping each character once |
| HtmlEscape.SinglePassHasNoSpecials | frontend/script.js:76-78 | escaped text has no `<`, `>` or `"` |
| HtmlEscape.SinglePassAmpersandsAreEntities | frontend/script.js:75 | every `&` in escaped text begins `&amp;`, `&lt;`, `&gt;` or `&quot;` |
| HtmlEscape.UnescapeEscapeOnce | frontend/script.js:75-78 | decoding the four entities undoes the escape |
| HtmlEscape.PlainTextUnchanged | frontend/script.js:74-78 | text without `&<>"` is returned unchanged |
| HtmlEscape.EscapeTextInjective | frontend/script.js:74-78 | different texts escape differently |
| SubmitForm.Trim | frontend/script.js:183 | the result has no white space at either end |
| SubmitForm.TrimStart | frontend/script.js:183 | the result does not start with white space |
| SubmitForm.TrimEnd | frontend/script.js:183 | the result does not end with white space |
| SubmitForm.TrimPadded | frontend/script.js:183 | `trim` removes exactly the surrounding white space |
| SubmitForm.TrimIdempotent | frontend/script.js:183 | trimmed text has no white space at its ends, and trimming again changes nothing |
| SubmitForm.PhoneAccepted | frontend/script.js:183-185 | an accepted value trims to eleven ASCII digits |
| SubmitForm.PhoneAcceptedIff | frontend/script.js:183-188 | the phone check passes exactly when the trimmed value has length 11, starts "09" and continues with nine ASCII digits. The second copy at frontend/script2.js:178-182 behaves the same |
| SubmitForm.AcceptsPaddedNumber | frontend/script.js:183-185 | "09" and nine digits pass even with white space around them, since the value is trimmed first |
| SubmitForm.RejectsWrongLength | frontend/script.js:183-188 | a trimmed value whose length is not 11 is rejected |
| SubmitForm.RejectsWithoutPrefix | frontend/script.js:183-188 | a trimmed value not starting "09" is rejected |
| SubmitForm.RejectsNonDigit | frontend/script.js:183-188 | a trimmed value with a non-digit after the "09" (a dash, a space) is rejected |
| SubmitForm.DigitPrefix | frontend/script.js:211 | `parseInt` reads the longest run of leading digits |
| SubmitForm.JsParseInt | frontend/script.js:211 | a number is read exactly when the first character after the white space is a digit, or a sign followed by a digit; a negative result needs a leading `-` |
| SubmitForm.ParseDigits | frontend/script.js:211 | after an optional `-`, a run of digits ended by a non-digit reads as the run's value, negated after `-` |
| SubmitForm.ParseIntSkipsSpace | frontend/script.js:211 | leading white space does not change the result |
| SubmitForm.ParseIntBlank | frontend/script.js:211 | an empty or all-blank field reads as NaN |
| SubmitForm.ParseIntNonNumeric | frontend/script.js:211 | text starting with anything other than white space, a digit or a sign reads as NaN |
| SubmitForm.ParseIntRoundTrip | frontend/script.js:211 | `parseInt(String(n) + rest, 10) == n` whenever `rest` does not continue the digits |
| SubmitForm.GuestsOrDefault | frontend/script.js:211 | `guests` is never 0: NaN and 0 become 1, every other number (negatives too) is kept. The second copy at frontend/script2.js:206 behaves the same |
| SubmitForm.GuestsTypedNumber | frontend/script.js:211 | a typed number `n` is sent as `n`, except 0, which becomes 1 |
| SubmitForm.GuestsEmptyField | frontend/script.js:211 | an empty field sends 1 |
| SubmitForm.BeforeTrichotomy | frontend/script.js:192 | two days are equal, or exactly one is earlier |
| SubmitForm.PaddedValue | frontend/script.js:191-192 | a zero-padded number reads back as itself |
| SubmitForm.IsoText | frontend/script.js:191-192 | a date input holds ten characters |
| SubmitForm.ParseIsoDate | frontend/script.js:192 | a date parsed from the date-only ISO form is a real calendar day |
| SubmitForm.IsoRoundTrip | frontend/script.js:191-192 | parsing a day's `YYYY-MM-DD` text gives the day back |
| SubmitForm.DatesClash | frontend/script.js:191-196 | only two fields that both parse as days can block; the same day in both fields blocks whenever it parses |
| SubmitForm.DatesClashIff | frontend/script.js:191-196 | with two filled-in days, submission is blocked exactly when checkout is not later than check-in (equal days block); an empty field skips the check. The second copy at frontend/script2.js:185-190 behaves the same |
| SubmitForm.Payload | frontend/script.js:198-213 | the body has exactly the fourteen form keys; `phone` is sent untrimmed and `guests` as the defaulted number |
| SubmitForm.Submit | frontend/script.js:179-213 | the `BadPhone` alert is shown iff the phone check fails. Otherwise the `CheckoutNotLater` alert is shown iff the dates clash. Otherwise the payload is sent. The second copy at frontend/script2.js:174-208 differs only in the phone alert text |
| SubmitForm.SentPayloadIsChecked | frontend/script.js:183-211 | anything sent has a phone trimming to "09" plus nine digits and a non-zero guest count; when both dates parse, checkout comes after check-in |
| SubmitForm.PagesAgree | frontend/script2.js:178-182 | both copies block and send the same forms |
| ReservationTable.KeepTruthy | frontend/script.js:46 | `filter(Boolean)` keeps exactly the truthy parts and never adds any |
| ReservationTable.KeepTruthyConcat | frontend/script.js:46 | filtering distributes over concatenation, so the kept parts stay in their original order |
| ReservationTable.TextsKeepTruthy | frontend/script.js:46 | filtering and taking texts gives each truthy part's text, in the parts' order |
| ReservationTable.AddressScript1 | frontend/script.js:41-46 | defaulting each part to "" before `filter(Boolean)` gives the same address as frontend/script2.js's `AddressScript2` |
| ReservationTable.AddressScript2 | frontend/script2.js:50 | the address is the truthy parts' texts, in street, municipality, region, country order, joined by ", " |
| ReservationTable.AddressSegments | frontend/script.js:41-46 | the segments are the truthy parts' texts in the parts' order; all are non-empty and there are at most four |
| ReservationTable.AddressIsSegments | frontend/script.js:41-46 | on either page the address is `AddressSegments` (the truthy parts' texts, in order) joined by ", " |
| ReservationTable.JoinCommaEmpty | frontend/script.js:46 | joining non-empty segments gives "" only for no segments |
| ReservationTable.AddressEmptyIff | frontend/script.js:41-46 | the address is empty exactly when no part is truthy |
| ReservationTable.AddressAllParts | frontend/script.js:41-46 | four filled-in parts show as "street, town, region, country" |
| ReservationTable.RowOf | frontend/script.js:48-56 | the guest, address, resort and payment cells contain no `<`, `>` or `"`, and the address cell decodes to the address. The id and guests cells are `String(v)`; the check-in and checkout cells are the dates as text, or "" when missing, and are not escaped |
| ReservationTable.Reversed | frontend/script.js:38 | the k-th row is the k-th record from the end |
| ReservationTable.ReversedTwice | frontend/script.js:38 | reversing is its own inverse |
| ReservationTable.ReversedNewestFirst | frontend/script.js:38 | the last record the server holds becomes the first row |
| ReservationTable.ReverseInPlace | frontend/script.js:38 | `reverse()` leaves the array holding the reverse of its old contents |
| ReservationTable.CopyOf | frontend/script.js:38 | `slice()` gives a new array with the same contents |
| ReservationTable.RenderRows | frontend/script.js:38-64 | `forEach` builds one row per record, in order |
| ReservationTable.ShowNewestFirst | frontend/script.js:38-64 | one row per record, the k-th built from the k-th newest record. The reverse works on a copy, so the fetched array is not changed. The second copy at frontend/script2.js:49-68 behaves the same |
| ReservationTable.Member | frontend/script2.js:91 | `v?.type` and `v?.number` are undefined on anything that is not an object |
| ReservationTable.DashIfMissing | frontend/script2.js:91 | the `"-"` fallback gives "-" for a falsy value and `String(v)` otherwise, never empty |
| ReservationTable.ValidIdDetailShows | frontend/script2.js:91 | a stored `valid_id` shows as "type (number)", with "-" for an empty part |
| ReservationTable.ValidIdDetail | frontend/script2.js:91 | a record whose `valid_id` is missing or not an object shows "- (-)" |

## Left out

- Concurrency is not modelled: the handlers run one at a time. `app.run(debug=True)` (backend/app1.py:142, backend/app.py:69) serves requests on threads, so two backend/app.py POSTs can read the same list and allocate the same id.
- HTTP routing, CORS, `request.get_json`, `jsonify`, status codes and logging are left out. The handlers return a `Reply` tag, and the list they leave is what gets persisted.
- File I/O is reduced to the following:
  - the full variant's startup load (backend/app1.py:17-24) is the constructor's argument;
  - the minimal variant's `read_data`/`write_data` are `DataFile.Read`/`Write`;
  - a missing or corrupt file is not modelled.
- `datetime.now().isoformat() + "Z"` is the parameter `now`.
- The schema check (`jsonschema.validate`, backend/app1.py:77) is the parameter `schema`, whose `Some(message)` is a violation. The schema file is not part of this model.
- Python `int()` on strings is the parameter `parseText`. JSON numbers with a fraction or an exponent (Python floats) are not modelled, so `int()` truncating them (backend/app1.py:63, 115) and float ids comparing equal to integers (`1.0 == 1`, backend/app1.py:96) are not captured.
- Request bodies that are not JSON objects, for example a list or null, are not modelled.
- The `<int:res_id>` route converter is taken as already done: ids reach the handlers as integers.
- The backend's GET-all route only returns the list and is not modelled.
- JavaScript numbers are integers here. NaN, fractions, -0 and arrays as field values are not modelled.
- `JsValue.IntToDecimal`/`JsValue.ToText` print every integer as plain digits. JavaScript's `String(n)` switches to exponent form ("1e+21") from 10^21 up. Integers above 2^53 are not exact in JavaScript, neither in `String(n)` nor in `parseInt`. Neither is modelled.
- `new Date(s)` is modelled only for the date-only `YYYY-MM-DD` form that a date input produces. The ECMAScript date-time string format bounds the day only to 01-31, so text such as "2023-02-30" fits the format, and engines differ on it (some roll it over to 2 March). `SubmitForm.ParseIsoDate` returns None (an Invalid Date) for a day the month does not have; that is a modelling choice, and a date input never holds such text. The extended-year form and the implementation-specific fallback formats are not modelled.
- `SubmitForm.Before` compares days as (year, month, day). The millisecond time value is not computed; for valid days the two orders agree.
- The DOM, `fetch`, `alert`, modals and event listeners are left out:
  - the `editMode`/`editId` state and the PUT-versus-POST choice;
  - form population in `editReservation`;
  - the fetch-failure row;
  - the input-time `setCustomValidity` phone hint, which tests the untrimmed value.
- The date-input `min` restrictions (frontend/script2.js:14-19) are not modelled.
- frontend/script.js's alert-based view (lines 90-103) is not modelled.
- frontend/script2.js's details view (lines 80-94) is modelled only in its "Valid ID" line. Not modelled:
  - the raw interpolation of id, guest name and guests (lines 81-82, 89);
  - the address line (line 85), which is the same join as `ReservationTable.AddressScript2`;
  - the `|| "-"` fallbacks of the other lines;
  - the "(not available)" fallback of the SMS token (line 93).
- ReservationTable.Member: primitive values carry no properties in this model. That is right for the keys read here ("type" and "number"), but not for a key such as "length".
- JSON key order and the pretty-printing of the file are not modelled.
- `ReservationTable.RowOf` models the eight text cells only, not the action buttons.

## Findings

| source | as written | input that shows it | evidently intended | confidence | as-written member | corrected member |
|---|---|---|---|---|---|---|
| backend/app1.py:44 | the new id is `len(reservations) + 1`, which repeats an existing id once a record has been deleted | records with ids 1 and 2; delete 1; add a record: it gets id 2, which the remaining record already has | a fresh id, above every existing one | high (not executed) | FullBackend.CountIdRepeatsAfterDelete | FullBackend.NextFreeIdKeepsDistinct |

`FullBackend.Reservations.AddReservation` keeps the allocation as written. The corrected allocator `FullBackend.NextFreeId` is proved to keep ids distinct, together with `FullBackend.WithoutKeepsDistinct` for delete.

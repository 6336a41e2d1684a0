# Thunder freight core, modelled in Dafny

Thunder is a freight-forwarding backend. A supplier creates a shipment, which starts as
a `draft`. Forwarders submit quotes against it, and the supplier accepts one of them.
That acceptance rejects the other pending quotes and moves the shipment to `quoted`.
The assigned forwarder then posts tracking events: an append-only log, in which a
milestone overwrites the shipment's status. Documents uploaded for a shipment go
through an extraction run, and the extracted values can be auto-filled onto the
shipment's columns. A handful of pure helpers build shipment and quote numbers,
validate a GSTIN, sanitise file names and build query strings.

The model keeps the database in memory. `Store.Database` is a class with one sequence
per table: users, shipments, quotes, tracking events, documents and extraction jobs. A
query's `.first()` is the first row in storage order, and `ORDER BY` is a stable sort
on the named key.

Each handler that writes is modelled twice:
- a pure `...Outcome` function of the old tables that gives the answer and the new
  tables;
- a method that changes exactly the table fields it names in `modifies` and ends in the
  state that function describes.

The lemmas about those functions state what the handler promises. A handler that only
reads is either a function or a method that changes nothing, specified by a function.

An `HTTPException` becomes `Err(HttpError(code, detail))`. Any other exception raised
before the commit becomes `Err(InternalError)` (a 500) and writes nothing. The caller,
the clock (`now`, `today`), the random picks, fresh row ids, the storage upload's
outcome and the extractor's outcome are all parameters.

The modules follow the source files:
- `Values`: Python values, truthiness, `dict.get`, users and roles, results.
- `Store`: the rows, the `setattr` rule for shipment columns, the row finders and the database.
- `Sorting`: the stable sort used for `ORDER BY`.
- `Helpers`: `utils/helpers.py`.
- `ShipmentService`: `shipments/service.py`.
- `QuoteRouter`: `quotes/router.py`.
- `TrackingRouter`: `tracking/router.py`.
- `DocumentRouter`: `documents/router.py`.

The documented design says that at most one quote per shipment is ever accepted, and
that a quote's terminal states are final. The code does not keep either promise:
`update_quote` lets a forwarder set any of its own quotes back to `pending`, including
an accepted or expired one. The model follows the code. It proves that accepting keeps
"at most one accepted" only under a side condition (`QuoteRouter.AcceptKeepsOneAccepted`).
It also exhibits a concrete run that ends with two accepted quotes
(`QuoteRouter.ReopenThenAcceptGivesTwoAccepted`).

## Model

| member | source | states |
|---|---|---|
| Store.SetColumn | shipments/service.py:103-105 | `setattr` keeps a value only for a mapped shipment column; the named column then holds the value, and every other column and the row's identity are unchanged |
| Store.FindShipment | shipments/service.py:61-63 | the index found is the first row with that id; None iff no row has it |
| Store.FindQuoteOf | quotes/router.py:85-88 | the first quote with that id that belongs to the shipment; None iff there is none |
| Sorting.SortBy | shipments/service.py:74-76 | the result is ordered by the key and is a permutation of the input |
| Helpers.PadValue | utils/helpers.py:11 | zero-padding a number below 10^w to width w gives w digits that read back as the number |
| Helpers.ShipmentNumber | utils/helpers.py:7-13 | a shipment number has 17 characters |
| Helpers.ShipmentNumberFormat | utils/helpers.py:7-13 | the number is `TF-`, the 8 digits of the date, `-`, then 5 characters from A-Z/0-9 |
| Helpers.ShipmentNumberRoundTrip | utils/helpers.py:7-13 | parsing a generated shipment number gives back its date and its suffix |
| Helpers.ShipmentNumberInjective | utils/helpers.py:7-13 | different dates or different suffixes give different shipment numbers |
| Helpers.QuoteNumber | utils/helpers.py:15-21 | a quote number has 14 characters |
| Helpers.QuoteNumberFormat | utils/helpers.py:15-21 | the number is `Q-`, the 6 digits of the year and month, `-`, then 5 digits |
| Helpers.QuoteNumberRoundTrip | utils/helpers.py:15-21 | parsing a generated quote number gives back its year, month and suffix |
| Helpers.MatchesPrefixAt | utils/helpers.py:47-49 | the expanded pattern matches a prefix iff each position is in its character class |
| Helpers.GstinClasses | utils/helpers.py:47 | the pattern has 15 positions: 2 digits, 5 upper-case letters, 4 digits, 1 upper-case letter, one of 1-9/A-Z, `Z`, one of 0-9/A-Z |
| Helpers.ValidateGstinIff | utils/helpers.py:45-49 | valid iff the string is 2 digits, 5 upper-case letters, 4 digits, 1 upper-case letter, one of 1-9/A-Z, `Z`, one of 0-9/A-Z, with at most a single trailing newline |
| Helpers.RemoveSpecial | utils/helpers.py:55 | every character of the result is a word or whitespace character, `.` or `-`; a character occurs in the result iff it occurs in the input and is one of those |
| Helpers.RemoveSpecialConcat | utils/helpers.py:55 | removal works character by character: removing from `s + t` is removing from `s` followed by removing from `t`, so the kept characters stay in order with their multiplicity |
| Helpers.RemoveSpecialKeepsSafe | utils/helpers.py:55 | a string made only of kept characters comes back unchanged (with the concatenation lemma: a kept character stays, a removed one disappears) |
| Helpers.ReplaceSpaces | utils/helpers.py:57 | same length; every space becomes `_` and every other character stays |
| Helpers.SanitizeSafeChars | utils/helpers.py:55-57 | a sanitised name has no space; every character is a word character, `.`, `-`, `_` or whitespace other than space |
| Helpers.SanitizeLength | utils/helpers.py:59-61 | at most 255 characters comes back unchanged; a longer name is the first 250 characters before the last `.`, then `.`, then the extension; a long name without `.` is an error |
| Helpers.SanitizeIdempotent | utils/helpers.py:51-62 | sanitising a sanitised name gives it back unchanged |
| Helpers.AssignmentsShape | utils/helpers.py:73 | with keys free of `&` and `=` and values free of `&`, each item contains `=` and no `&`, and the items read back as exactly the entries whose value is not None, in insertion order |
| Helpers.QueryParamsRoundTrip | utils/helpers.py:72-74 | with keys free of `&` and `=` and values free of `&`, splitting the string on `&` and each item on its first `=` gives back exactly the entries whose value is not None, in order |
| Helpers.QueryParamsAllNone | utils/helpers.py:72-74 | an empty input, or one whose values are all None, gives the empty string |
| ShipmentService.NewShipmentDefaults | shipments/service.py:25-53 | a new shipment is a `draft` owned by its supplier and buyer, records `created_via: "api"`, stores only columns, has no `updated_at`, and carries a 17-character number starting `TF-` |
| ShipmentService.NewShipmentKeys | shipments/service.py:27-53 | the new row stores every shipment column except `updated_at`, and nothing else |
| ShipmentService.CreateShipment | shipments/service.py:16-59 | appends exactly the new shipment row |
| ShipmentService.OwnedRows | shipments/service.py:70-74 | exactly the rows owned by the party that pass the status filter, which applies only when it is non-empty; no row appears more often than it is stored |
| ShipmentService.GetSupplierShipments | shipments/service.py:65-76 | exactly the supplier's shipments that pass the filter, a permutation of them, newest first |
| ShipmentService.GetBuyerShipments | shipments/service.py:78-89 | exactly the buyer's shipments that pass the filter, a permutation of them, newest first |
| ShipmentService.QuotedRows | shipments/service.py:119-128 | exactly the shipments the forwarder has quoted that pass the filter; its multiset is within that of the stored rows, so each row appears at most as often as it is stored however many quotes join it |
| ShipmentService.GetShipmentsForForwarder | shipments/service.py:113-130 | exactly the quoted shipments that pass the filter, a permutation of them, newest first, each row no more often than it is stored |
| ShipmentService.ApplyUpdatesAt | shipments/service.py:101-105 | a column named in the update holds the last value given for it; every other column and every unknown name is untouched |
| ShipmentService.UpdateShipmentSpec | shipments/service.py:91-111 | an unknown id is None and changes nothing; otherwise only that row changes, with the explicitly set columns, `updated_at` = now and every other column kept |
| ShipmentService.UpdateShipment | shipments/service.py:91-111 | the loop over the explicitly set fields ends in the state `UpdateShipmentOutcome` describes |
| ShipmentService.MappingStaysNone | shipments/service.py:146-161 | once an entry of the mapping raises, the rest of the mapping is not reached |
| ShipmentService.MapEntryShape | shipments/service.py:150-161 | one entry either leaves the progress alone or writes and reports its column |
| ShipmentService.ApplyMappingSpec | shipments/service.py:146-161 | after the mapping, each column is reported and written exactly when its guard holds, in mapping order, and nothing else is modified |
| ShipmentService.MappedColumnRule | shipments/service.py:146-161 | a number column is reported, and holds the extracted value, iff the key is present, truthy, different from the current value and greater than 0 |
| ShipmentService.HsCodeRule | shipments/service.py:163-167 | `hs_code` is reported iff the first item has a truthy `hs_code`, even when it equals the current one; it then holds that value |
| ShipmentService.GoodsDescriptionRule | shipments/service.py:169-173 | `goods_description` is reported iff there are 1 to 3 items; it is then the `"; "`-join of the non-empty descriptions |
| ShipmentService.DescriptionsNonEmpty | shipments/service.py:171 | the descriptions kept by `filter(None, …)` are all non-empty |
| ShipmentService.OrderedIsShort | shipments/service.py:143-173 | a list in reporting order has at most six entries |
| ShipmentService.UpdatedFieldsOrder | shipments/service.py:143-177 | `updated_fields` has no duplicates and at most 6 entries, in mapping order, then `hs_code`, then `goods_description`; only reported columns change |
| ShipmentService.FromDocumentCommit | shipments/service.py:132-179 | an unknown shipment gives `[]` and changes nothing; the answer is an error iff the mapping raises, and otherwise the columns `FromDocument` reports; the row `FromDocument` computes is committed, with `updated_at`, only when something was reported |
| ShipmentService.UpdateShipmentFromDocument | shipments/service.py:132-179 | the mapping loop ends in the state `FromDocumentOutcome` describes, including its early exit on a raise |
| QuoteRouter.ViewOf | quotes/router.py:53-56 | the view carries the forwarder's name and company, or `Unknown` for both when there is no such user |
| QuoteRouter.VisibleQuotes | quotes/router.py:38-48 | exactly the quotes of the shipment, restricted to the caller's own quotes when the caller is a forwarder; no quote appears more often than it is stored |
| QuoteRouter.Views | quotes/router.py:50-57 | one view per quote, in the same order |
| QuoteRouter.ShipmentQuotesSpec | quotes/router.py:15-59 | a missing shipment is 404; a supplier who does not own it is 403; otherwise exactly the visible quotes, one entry per visible quote in the same order, each with its forwarder's details |
| QuoteRouter.GetShipmentQuotes | quotes/router.py:15-59 | the loop builds the answer `ShipmentQuotes` describes and changes nothing |
| QuoteRouter.RejectSiblings | quotes/router.py:117-122 | exactly the other pending quotes of the shipment become rejected; every other quote is untouched |
| QuoteRouter.AcceptErrorOrder | quotes/router.py:72-100 | in order: missing shipment 404, not the supplier 403 (before the quote is looked up), quote absent or of another shipment 404, quote not pending 400; none of them changes anything |
| QuoteRouter.AcceptExpired | quotes/router.py:102-109 | a pending quote past its validity date becomes `expired` and that write stays, but the call fails with 400; the shipment and every other quote are unchanged |
| QuoteRouter.AcceptSucceedsIff | quotes/router.py:72-124 | the call succeeds iff the shipment exists, the caller owns it, the quote of that shipment exists, is pending and is not expired |
| QuoteRouter.AcceptSuccess | quotes/router.py:111-141 | the target becomes accepted and is answered; the shipment status becomes `quoted`; pending siblings become rejected; non-pending siblings and other shipments' quotes are untouched |
| QuoteRouter.AcceptLeavesNoPending | quotes/router.py:111-124 | after success no quote of the shipment is pending, and only the target newly became accepted |
| QuoteRouter.AcceptKeepsOneAccepted | quotes/router.py:111-124 | if no accepted quote sat beside a pending one, at most one quote of the shipment is accepted afterwards, and the side condition holds again |
| QuoteRouter.UpdateQuoteSpec | quotes/router.py:143-186 | quote absent 404, not the own forwarder 403, status other than pending or rejected 400, none of them writing; otherwise the status is overwritten and remarks change only when the new ones are truthy |
| QuoteRouter.ReopenThenAcceptGivesTwoAccepted | quotes/router.py:167-173 | accept one quote, let another quote's forwarder reopen it to pending, accept that one: the shipment ends with two accepted quotes |
| QuoteRouter.AcceptQuote | quotes/router.py:61-141 | the method ends in the state `AcceptQuoteOutcome` describes, the expired write included |
| QuoteRouter.UpdateQuote | quotes/router.py:143-186 | the method ends in the state `UpdateQuoteOutcome` describes |
| TrackingRouter.EventsOf | tracking/router.py:45-47 | an event is selected iff it belongs to the shipment, and none appears more often than it is stored |
| TrackingRouter.Timeline | tracking/router.py:45-47 | the shipment's events in ascending timestamp order, a permutation of them |
| TrackingRouter.ActualArrivalSpec | tracking/router.py:49-57 | `actual_arrival` is None iff no event is delivered; otherwise it comes from the last delivered event: its actual time, else its timestamp |
| TrackingRouter.EstimatedArrivalSpec | tracking/router.py:49-57 | `estimated_arrival` is None iff no non-delivered event has an estimate; otherwise it is the estimate of the first such event |
| TrackingRouter.ScanStep | tracking/router.py:52-57 | how one event in the scan changes both arrival values |
| TrackingRouter.ShipmentTrackingSpec | tracking/router.py:15-68 | missing shipment 404; a supplier or buyer who is not the shipment's 403 (forwarders unrestricted); otherwise the current status, the events in time order and the two arrival values |
| TrackingRouter.GetShipmentTracking | tracking/router.py:15-68 | the scan loop computes the answer `ShipmentTracking` describes and changes nothing |
| TrackingRouter.LatestTrackingEventSpec | tracking/router.py:140-179 | the same permission rules; no event of the shipment is 404; otherwise an event of the shipment with the greatest timestamp |
| TrackingRouter.FindAcceptedQuote | tracking/router.py:94-100 | finds an accepted quote of the shipment by the caller; None iff there is none |
| TrackingRouter.CreateEventSpec | tracking/router.py:70-138 | missing shipment 404; no accepted quote by the caller 403, neither writing; otherwise exactly one event is appended with the shipment, the creator, and the actual time or now; only a milestone overwrites the status |
| TrackingRouter.CreateEventAppendOnly | tracking/router.py:115-119 | the old events stay a prefix and at most one is added |
| TrackingRouter.CreateTrackingEvent | tracking/router.py:70-138 | the method ends in the state `CreateEventOutcome` describes |
| DocumentRouter.UploadSpec | documents/router.py:25-109 | in order: missing shipment 404, supplier not the owner 403, type outside pdf/jpeg/png/jpg 400, storage failure 500, none writing; otherwise one document row, not yet extracted |
| DocumentRouter.UploadDocument | documents/router.py:25-109 | the method ends in the state `UploadOutcomeOf` describes |
| DocumentRouter.ChosenAppend | documents/router.py:245-253 | the chosen fields of a longer request extend those of its prefix |
| DocumentRouter.FillUpdated | documents/router.py:245-253 | `updated_fields` is exactly the requested fields, in request order, with a truthy extracted value |
| DocumentRouter.FillValues | documents/router.py:245-254 | the keys of `extracted_values` are exactly the updated fields, mapped to their extracted values |
| DocumentRouter.FillColumns | documents/router.py:252 | each updated column holds its extracted value; nothing else changes |
| DocumentRouter.FillSpec | documents/router.py:245-254 | everything the three lemmas above state, together |
| DocumentRouter.AutoFillSpec | documents/router.py:211-264 | in order: missing document 404, no extracted data 400, missing shipment row 500, then supplier not the owner 403, none writing; it succeeds iff the data is there, the row exists and the caller is not a non-owning supplier; on success only that shipment's row changes and the answer reports the confidence |
| DocumentRouter.AutofillShipment | documents/router.py:211-264 | the loop ends in the state `AutoFillOutcomeOf` describes |
| DocumentRouter.ExtractSpec | documents/router.py:266-310 | an unknown document changes nothing; otherwise a job is added; success stores the data with its defaults in the document and leaves its other columns as they were, and completes the job with defaults; failure fails the document's first job, records the error and adds exactly one attempt |
| DocumentRouter.ExtractDocumentData | documents/router.py:266-310 | the method ends in the state `ExtractOutcomeOf` describes |

## Left out

- HTTP and FastAPI plumbing, database sessions, `commit` and `refresh`: each handler is one atomic step on the in-memory tables.
- The role dependencies `require_supplier`, `require_forwarder` and `get_current_user`: the caller, with its role, is an input; the role gate is not modelled.
- Background tasks: `notify_quote_accepted` and `notify_tracking_update` only print.
- Concurrency: extraction runs as a detached task that can race with reads of the same document. The model runs each step atomically.
- File I/O: the temporary file and the storage upload of `upload_document` are not modelled; their outcome is an input. `generate_file_hash` is left out because it is MD5 over file chunks.
- The AI extractor: its outcome is an input, either a dictionary or an error message.
- Scheduling extraction: `upload_document` queues `extract_document_data` as a background task. The model offers `DocumentRouter.ExtractDocumentData` as a separate step, taken after the upload. It does not model that the temporary file the task reads has already been removed by then.
- The customs and carrier proxies are left out: they are HTTP wrappers around third-party APIs.
- Floating-point arithmetic: `calculate_cbm`, `format_currency`, the quote total and the `QuoteCreate` total validator.
- Quote monetary and routing columns: no modelled handler reads or writes them.
- Quote timestamps: a quote's `created_at` and `updated_at` (with its `onupdate` refresh) are not modelled. No modelled handler reads them, and the model does not build the response body that returns them.
- `trigger_extraction` is left out: it never extracts anything. It always ends in an error: 404 for an unknown document, 403 for a supplier who does not own the shipment, and otherwise the 501 it raises inside its `try`, which is re-raised as a 500.
- `get_shipment_documents` and `get_document` are left out: they are plain reads outside the modelled core.
- `get_shipment_by_id` is modelled only as `Store.FindShipment`.
- Helpers.ValidateGstinIff: `\d` is taken as ASCII digits only; Python's `re` also accepts other Unicode digits.
- Helpers.RemoveSpecial: `\w` and `\s` are taken as their ASCII sets; Python's `re` also accepts Unicode word and space characters.
- Helpers.ShipmentNumber: the year is always padded to four digits; `%Y` for years below 1000 depends on the platform.
- Store.SetColumn: `setattr` on `id`, `created_at` or a relationship attribute is not modelled; such a name is treated as unknown.
- Store.ShipmentColumns: the shipment column set is inferred from the attribute names `create_shipment` sets, plus `updated_at`, because `shipments/models.py` is not part of this model. A column of the real table outside that set counts as unknown, so an update of it is not persisted.
- Column types are not checked at commit; a value of the wrong type is stored as given.
- Validation of the response model is not modelled: for example, a NULL company name, or a confidence that is not a float.
- Datetime comparison: naive and aware datetimes are not distinguished; times are integers.
- Automatic `updated_at`: the ORM's `onupdate` refresh of `updated_at` after an accept or a milestone is not modelled, because `shipments/models.py` is not part of this model.
- Values.PyEq: equality between nested containers holding mixed numbers is approximated.
- Helpers.QueryParams: `str()` of a value is taken as the text given for it.
- The defaults of the document and extraction-job columns come from the response schemas, because `documents/models.py` is not part of this model. A new job starts with `attempts` = 0.
- An explicit null `documents` list in an event body is not modelled.
- An exception part-way through `update_shipment_from_document` (the `> 0` comparison on a non-number, the `items[0]` lookups, the `"; "` join) leaves the earlier `setattr` writes uncommitted, and is modelled as writing nothing.

# Goods receipt for purchase orders — a Dafny model

This project models the core of a SAPUI5 goods-receipt app. Two screens are covered.

**Purchase-order screen.** A user opens a purchase order and records goods movements against its items. Each movement is a line in an editable table. The screen:

- checks the order the backend returns;
- keeps the line table in step with the order's items: asset flags, the highest line id, and totals with and without tax;
- validates the table before submitting;
- runs a dry run, then up to two confirmation prompts, then the post.

**Goods-receipt screen.** A user displays or cancels a material document. The screen:

- splits the object id into document number and year;
- checks the returned document;
- keeps the items that may still be cancelled.

Shared pieces come from the base controller and the value-help dialogs:

- the message button's type and icon, derived from the message list;
- the `isNumber` test;
- the reduce that turns a filter bar into filters.

The controllers' JSON models become state:

- `PurchaseOrder.PoController` holds:
  - the order's items;
  - the movement lines;
  - the view model;
  - the message list;
  - the stage of the submission workflow. The stage stands for the callback that is waiting, and carries the payload that callback closes over.
- `GoodsReceipt.GrController` holds:
  - the view model;
  - the item model;
  - the message list;
  - the error box on screen.

What the pure parts compute is stated as specification functions: `ReconcileAll`, `MaxId`, `NetTotal`, `GrossTotal`, `Validated`, `Coerced`, `DominantType`, `BuildFilters`, `EligibleItems`. The methods are proved against those functions. Lemmas then state what the functions mean:

- exact sums;
- order independence;
- idempotence;
- round trips;
- the order of the checks.

Modules:

- `Wrappers` — `Option`.
- `Messages` — the message list and the error scan.
- `Numbers` — `Number()` and `isNumber` on quantity strings.
- `Severity` — the message button.
- `Filters` — the value-help filter bar.
- `MovementLines` — the line datatype, reconciliation and totals.
- `FieldValidation` — the validator's specification.
- `PurchaseOrder` — the purchase-order controller.
- `GoodsReceipt` — the goods-receipt controller.

Three behaviours of the code worth knowing:

- **Totals and non-numeric quantities.** A line whose item matches and whose quantity is not a number makes both totals NaN. See `NetTotalExact` and `GrossTotalExact`.
- **Line ids can be reused.** A new line id is the highest live id plus one. Deleting the line with the highest id lets that id be issued again. See `DeletedIdIsReissued`.
- **Every duplicate is marked.** Each line whose item number repeats another line's gets the error state, including the first occurrence. See `DuplicatesMarkEveryOccurrence`.

## Model

| member | source | states |
|---|---|---|
| Messages.CheckForErrors | UI5/controller/GR.controller.js:902-910 | the early-return scan answers true exactly when some message has type Error |
| Numbers.IsNumber | UI5/controller/BaseController.js:251-253 | a numeric string is never empty and contains a digit |
| Numbers.IsNumberAgreesWithToNumber | UI5/controller/BaseController.js:251-253 | `isNumber` holds exactly when the string is non-empty and `Number()` gives a finite value, and then that value is the parsed decimal |
| Numbers.EmptyIsNotNumber | UI5/controller/BaseController.js:251-253 | the empty string is not a number |
| Numbers.ZeroForms | UI5/controller/PO.controller.js:628-632 | "0", written in place of a non-number, and "0.000", the zero the backend returns, are both numbers with value 0 |
| Severity.GetMessageButtonType | UI5/controller/BaseController.js:129-151 | the loop returns the dominant type: Reject exactly when some message is an Error, else Emphasized for a Warning, else Accept for a Success, else Ghost |
| Severity.GetMessageButtonIcon | UI5/controller/BaseController.js:159-181 | the icon loop returns the icon of the dominant type, so icon and button always name the same tier |
| Severity.DominantTypeOrderIndependent | UI5/controller/BaseController.js:133-148 | two lists holding the same messages give the same button type, whatever their order and however often each message occurs |
| Severity.NeutralMessageIgnored | UI5/controller/BaseController.js:129-181 | inserting an Information or None message changes neither the type nor the icon |
| Severity.EmptyIsNeutral | UI5/controller/BaseController.js:129-181 | an empty list gives Ghost and the warning2 icon |
| Severity.UpgradeOnlyRaises | UI5/controller/BaseController.js:133-148 | each message can only raise the rank of the result, and Reject is never left |
| Severity.IconStep | UI5/controller/BaseController.js:163-178 | one step of the icon loop matches one step of the type loop |
| Filters.FirstTen | UI5/controller/GR.controller.js:540 | `substring(0, 10)` takes the first ten characters, or the whole string when it is shorter |
| Filters.LastTen | UI5/controller/GR.controller.js:541 | `substring(length - 10)` takes the last ten characters, or the whole string when it is shorter |
| Filters.BuildFiltersAppend | UI5/controller/GR.controller.js:535-560 | the reduce distributes over concatenation, so filters come out in control order |
| Filters.BuildFiltersCount | UI5/controller/GR.controller.js:535-560 | exactly one filter per control with a non-empty value |
| Filters.BuildFiltersShape | UI5/controller/GR.controller.js:537-556 | every filter comes from a control with a value: BT on the date field, Contains on any other |
| Filters.DateRangeSplit | UI5/controller/PO.controller.js:1366-1376 | a range "from - to" of two ten-character dates becomes BT(from, to) |
| Filters.SearchFor | UI5/controller/PO.controller.js:1361-1400 | the search applies all filters when there is one, and takes the no-parameter error branch exactly when every control is empty |
| Filters.NoFiltersIffNoValues | UI5/controller/GR.controller.js:507-527 | the filter list is empty exactly when every control's value is empty |
| MovementLines.CopyOf | UI5/controller/PO.controller.js:406-421 | a copied line takes the new id and clears item, quantity and asset flag; every other field is the source line's |
| MovementLines.MaxId | UI5/controller/PO.controller.js:442-479 | the highest live id is at least 0, at least every line's id, and is either 0 or some line's id |
| MovementLines.FirstMatch | UI5/controller/PO.controller.js:461-468 | the scan finds the first item with the line's item number, or none when no item has it |
| MovementLines.Reconciled | UI5/controller/PO.controller.js:461-468 | reconciling a line changes only its asset flag: it copies the first matching item's flag and leaves an unmatched line alone |
| MovementLines.ReconcileAll | UI5/controller/PO.controller.js:442-479 | every line is reconciled in place; the count is kept |
| MovementLines.NetTotalExact | UI5/controller/PO.controller.js:442-479 | the net total is the exact sum of price times quantity over matched lines, and NaN once a matched quantity is not a number |
| MovementLines.GrossTotalExact | UI5/controller/PO.controller.js:442-479 | the gross total is the sum of amount plus tax on it, NaN on the same condition |
| MovementLines.ReconcileKeepsAggregates | UI5/controller/PO.controller.js:442-479 | reconciliation changes neither the highest id nor either total |
| MovementLines.ReconcileIdempotent | UI5/controller/PO.controller.js:442-479 | refreshing twice gives the same lines as refreshing once |
| MovementLines.PrefixAggregates | UI5/controller/PO.controller.js:449-472 | one more line extends the maximum and both running totals by that line |
| FieldValidation.ClearedLine | UI5/controller/PO.controller.js:558-570 | a cleared line has no value states and no status, and keeps every other field |
| FieldValidation.ValidatedLine | UI5/controller/PO.controller.js:577-612 | after validation a line's item is in error exactly when it was, is empty, or is repeated; its quantity when it was or is not a number; its date when it was or is missing |
| FieldValidation.DuplicatesMarkEveryOccurrence | UI5/controller/PO.controller.js:588-592 | both lines of a repeated item end up marked |
| FieldValidation.DuplicatesDoNotBlock | UI5/controller/PO.controller.js:577-612 | two tables whose lines agree on which item, quantity and date fields are empty get the same "missing" verdict, whatever their item numbers and however they repeat |
| FieldValidation.ClearedKeepsInputs | UI5/controller/PO.controller.js:558-570 | clearing value states changes neither the missing verdict, the duplicates nor the quantity errors |
| FieldValidation.ValidatedMarksExactly | UI5/controller/PO.controller.js:534-612 | after clear and validate, each mark is set exactly when its own condition holds |
| FieldValidation.DuplicateCountHasText | UI5/controller/PO.controller.js:990-1008 | a list holds a duplicate error exactly when some message shows its text |
| FieldValidation.CountSplit | UI5/controller/PO.controller.js:577-612 | every message is either a duplicate error or one of the others |
| FieldValidation.QuantityMessagesEmpty | UI5/controller/PO.controller.js:599-602 | no quantity error is produced exactly when no quantity is a typed non-number |
| FieldValidation.ValidationMessagesErrors | UI5/controller/PO.controller.js:577-612 | when only Errors were added, the quantity errors are those of the lines and the duplicate error is there once exactly when an item repeats, an Error is present exactly when an item repeats or a typed quantity is not a number |
| FieldValidation.DuplicateErrorOnce | UI5/controller/PO.controller.js:990-1008 | repeated `_addError` calls with the duplicate text add it at most once |
| FieldValidation.ProgressStep | UI5/controller/PO.controller.js:581-609 | one pass of the validation loop extends the marks and messages from lines 0..i-1 to 0..i |
| FieldValidation.ProgressComplete | UI5/controller/PO.controller.js:577-612 | after the last line the marks are the validated ones and the messages hold every quantity error and at most one duplicate error |
| PurchaseOrder.TruncatePoNumber | UI5/controller/PO.controller.js:180-192 | the lookup key is a prefix of the route id, ten characters long unless the id is shorter |
| PurchaseOrder.ClassifyPo | UI5/controller/PO.controller.js:249-268 | an order is accepted exactly when it exists, has a number, is not excluded, is complete, is approved and has items or was just posted; only "not approved" is formatted text |
| PurchaseOrder.ClassificationOrder | UI5/controller/PO.controller.js:255-266 | each rejection key is returned exactly when its check is the first to fail |
| PurchaseOrder.PostedOrderWithoutItemsIsKept | UI5/controller/PO.controller.js:263-264 | an order left without open items is accepted after a post and rejected otherwise |
| PurchaseOrder.FilterByProperty | UI5/controller/PO.controller.js:1082-1088 | the result holds exactly the objects that match every criterion, and is no longer than the input |
| PurchaseOrder.FilterByPropertyAppend | UI5/controller/PO.controller.js:1082-1088 | filtering distributes over concatenation, so order is kept |
| PurchaseOrder.FilterByNoCriteria | UI5/controller/PO.controller.js:1082-1088 | no criteria keep every object |
| PurchaseOrder.FilterByPropertyIdempotent | UI5/controller/PO.controller.js:1082-1088 | filtering twice is filtering once |
| PurchaseOrder.NormalisedLine | UI5/controller/PO.controller.js:670-677 | the "00000" item and the "0.000" quantity are emptied, all else is kept, and the quantity's number is unchanged |
| PurchaseOrder.NormalisedLineIdempotent | UI5/controller/PO.controller.js:670-677 | normalising twice is normalising once |
| PurchaseOrder.CoercedLine | UI5/controller/PO.controller.js:628-632 | a payload quantity is always a number: kept if it was one, otherwise "0" |
| PurchaseOrder.CoercedTotalsFinite | UI5/controller/PO.controller.js:628-632 | totals computed over the coerced lines, the ones left in the movement model, cannot be NaN |
| PurchaseOrder.GrValueBeforeCoercion | UI5/controller/PO.controller.js:619-635 | `GrValue` is read from the view before coercion, so the dry run sends a NaN gross total exactly when a matched line holds a non-number quantity, while every line sent holds a number |
| PurchaseOrder.RouteDryRun | UI5/controller/PO.controller.js:684-721 | any Error routes to the error list; otherwise code ZFSS_GR/003 routes to the duplicate prompt; otherwise to the final prompt |
| PurchaseOrder.NormaliseReturned | UI5/controller/PO.controller.js:669-677 | the loop normalises every returned line in place |
| PurchaseOrder.RefreshEstablishesBookkeeping | UI5/controller/PO.controller.js:442-479 | the count, maximum and totals computed from the old lines describe the reconciled lines, which are in sync |
| PurchaseOrder.AppendKeepsLines | UI5/controller/PO.controller.js:379-399 | adding to a consistent table keeps the old lines, appends one line last, and gives it an id above every other |
| PurchaseOrder.NextIdIsFresh | UI5/controller/PO.controller.js:383-384 | in a consistent table, the id add and copy issue (recorded maximum plus one) is positive, belongs to no live line, and is the maximum after the line is appended and the table refreshed |
| PurchaseOrder.DeletedIdIsReissued | UI5/controller/PO.controller.js:428-436 | when the line just issued is deleted again, the refreshed maximum plus one is that line's id, so the same id is issued next |
| PurchaseOrder.DeleteKeepsOrder | UI5/controller/PO.controller.js:428-436 | deleting from a consistent table removes exactly line i and keeps the order of the rest |
| PurchaseOrder.Removed | UI5/controller/PO.controller.js:434 | `splice(i, 1)` removes line i when it exists and changes nothing otherwise |
| PurchaseOrder.PoController.Recompute | UI5/controller/PO.controller.js:449-477 | the loop yields the reconciled lines, the highest id and both totals |
| PurchaseOrder.PoController.MatchLine | UI5/controller/PO.controller.js:458-468 | the inner loop yields the reconciled line and its net and gross amounts |
| PurchaseOrder.PoController.RefreshMovts | UI5/controller/PO.controller.js:442-479 | the lines become their reconciliation, the view records count, maximum and totals, and the controller is consistent afterwards |
| PurchaseOrder.PoController.AddMovtLine | UI5/controller/PO.controller.js:379-399 | a fresh empty line numbered after the recorded maximum is appended, and consistency is restored |
| PurchaseOrder.PoController.CopyMovtLine | UI5/controller/PO.controller.js:406-421 | a copy of line k with a new id is appended, and consistency is restored |
| PurchaseOrder.PoController.DeleteMovtLine | UI5/controller/PO.controller.js:428-436 | line i is spliced out, the rest keep their order, and consistency is restored |
| PurchaseOrder.PoController.ShowErrorAndNavigate | UI5/controller/PO.controller.js:276-303 | the key becomes the only message and the view is reset |
| PurchaseOrder.PoController.SetupModelsAndData | UI5/controller/PO.controller.js:311-346 | the order's items and lines are installed with one fresh line numbered 1; the view is bound, counts the items, has changes and is consistent; messages are cleared; every other view field is kept |
| PurchaseOrder.PoController.OnDataReceived | UI5/controller/PO.controller.js:249-268 | a rejected order leaves one error message and a reset view; an accepted order is set up as above, with busy off and every other view field kept |
| PurchaseOrder.PoController.ClearValidationStates | UI5/controller/PO.controller.js:558-570 | every line is cleared and the confirmation field's value state is reset |
| PurchaseOrder.PoController.AddError | UI5/controller/PO.controller.js:990-1008 | the text is added as an Error only when no message shows it yet, and line j's item is marked |
| PurchaseOrder.PoController.MarkDuplicatesOf | UI5/controller/PO.controller.js:586-593 | every other line with line i's item is marked, and the duplicate error is added once |
| PurchaseOrder.PoController.ValidateMandatoryFields | UI5/controller/PO.controller.js:577-612 | the result is "missing" exactly when some line lacks item, quantity or date; the lines become `Validated`; only Errors are added, namely the quantity errors and at most one duplicate error |
| PurchaseOrder.PoController.CheckQuantity | UI5/controller/PO.controller.js:595-602 | an empty quantity is missing; a typed non-number adds an error that carries the value |
| PurchaseOrder.PoController.CheckDate | UI5/controller/PO.controller.js:604-608 | a missing date is missing input |
| PurchaseOrder.PoController.PrepareAndSubmitData | UI5/controller/PO.controller.js:619-656 | quantities are coerced in place and the dry run is sent with the recorded gross total and the post switch off |
| PurchaseOrder.PoController.OnSubmit | UI5/controller/PO.controller.js:534-552 | no request is sent exactly when mandatory input is missing; either way the lines are cleared and validated, the confirmation state reset, and the validation messages kept: only Errors, the quantity errors in line order, the duplicate error once when an item repeats, so an Error is present exactly when there is a duplicate or a non-numeric quantity; when input is missing the mandatory error follows them; otherwise the dry run carries the coerced validated lines and the view turns busy |
| PurchaseOrder.PoController.HandleValidationResponse | UI5/controller/PO.controller.js:665-721 | a transport error ends the flow; otherwise the normalised lines and the backend messages are taken over and the route follows the error/duplicate/final order |
| PurchaseOrder.PoController.HandleDuplicateAnswer | UI5/controller/PO.controller.js:729-750 | OK leads to the final prompt; Cancel ends the flow without a request |
| PurchaseOrder.PoController.HandleFinalAnswer | UI5/controller/PO.controller.js:757-797 | a request is sent exactly on OK: the dry-run payload with the post switch on, with messages cleared |
| PurchaseOrder.PoController.HandlePostResponse | UI5/controller/PO.controller.js:805-823 | the post succeeded exactly when the response arrived and no Error is listed; only then is `posted` set; on a reported error the message button shows the dominant type; busy goes off and no other view field changes |
| GoodsReceipt.ParseObjectId | UI5/controller/GR.controller.js:603-621 | never fails: the result is a prefix of the id, the number is ten characters or empty, and the year is four characters exactly when the id has fourteen or more |
| GoodsReceipt.ParseObjectIdRoundTrip | UI5/controller/GR.controller.js:603-621 | a ten-character number followed by a four-character year parses back to both |
| GoodsReceipt.ParseObjectIdIgnoresTail | UI5/controller/GR.controller.js:608-613 | characters after the fourteenth do not matter |
| GoodsReceipt.StoredObjectIdParsesBack | UI5/controller/GR.controller.js:758 | the stored object id of a full-width document parses back to its key |
| GoodsReceipt.ValidateGrData | UI5/controller/GR.controller.js:689-719 | a document is valid exactly when it exists, has a number other than "_", and is not a negative-first-item document in edit mode; otherwise exactly one key comes back, fixed by the first failing check: `grNotFoundErrorText` for no document or an empty number, `grCancelCancellation` (formatted) for a negative first item in edit mode, `grNotStandardPo` / `grNotStandardPoDisplay` for "_" in edit / display mode |
| GoodsReceipt.DisplayNeverCancelsCancellation | UI5/controller/GR.controller.js:701-708 | display mode never reports `grCancelCancellation` |
| GoodsReceipt.ValidationReadsFirstItemOnly | UI5/controller/GR.controller.js:689-719 | of the items only the sign of the first one matters, and in display mode no item does |
| GoodsReceipt.EligibleItems | UI5/controller/GR.controller.js:735-737 | the kept items are exactly those neither blocked nor reversed |
| GoodsReceipt.EligibleItemsAppend | UI5/controller/GR.controller.js:735-737 | filtering distributes over concatenation, so the original order is kept |
| GoodsReceipt.EligibleItemsIdempotent | UI5/controller/GR.controller.js:735-737 | filtering twice is filtering once |
| GoodsReceipt.NoEligibleIffAllExcluded | UI5/controller/GR.controller.js:745-748 | nothing remains exactly when every item is blocked or reversed |
| GoodsReceipt.GrController.HandleGrSelection | UI5/controller/GR.controller.js:571-578 | the view is reset and remembers the mode |
| GoodsReceipt.GrController.ShowErrorAndNavigate | UI5/controller/GR.controller.js:787-800 | the error box opens with the key, formatted or plain |
| GoodsReceipt.GrController.CloseErrorDialog | UI5/controller/GR.controller.js:332-341 | closing the box clears bound, selected and busy |
| GoodsReceipt.GrController.ProcessValidGrData | UI5/controller/GR.controller.js:730-762 | edit mode with nothing cancellable opens the "no lines" box and changes nothing else; otherwise the item model shows the kept items (edit) or all items (display), `canBeCancelled` is "some item cancellable and not edit mode", the view is bound, the object id is number plus year, and messages are cleared |
| GoodsReceipt.GrController.OnDataReceived | UI5/controller/GR.controller.js:661-677 | busy goes off; the first failed check opens its error box; a valid document in edit mode with nothing cancellable opens the "no lines" box and leaves item model and messages alone; otherwise the document is taken over in full as in `ProcessValidGrData`, with the error box untouched |

## Left out

- OData I/O is not modelled: `bindElement`, the create calls, `metadataLoaded`, and element-binding refreshes. Responses are inputs to the methods: a `Response` value, or the record delivered by `dataReceived`.
- Busy timing is not modelled. The busy flag is kept as a view field only.
- i18n text lookup is not modelled. Texts are their keys.
- The message manager is replaced by an explicit list. Backend messages are appended to it as received, and local Error messages stay in it when the dry-run response is routed.
- Dialogs, popovers, FormattedText/HTML building, focus, value-help dialog setup, routing and navigation are not modelled, and neither are the rating dialog and its timers. The goods-receipt error box is only a state field. The 300 ms popover delay is dropped.
- `selectMovtPoItem` and `onLiveChangeQty` (per-keystroke UI reactions) are not modelled. Neither are the asset detail dialog, the GR submission, or its success dialog.
- Prices, tax rates and quantities are exact reals, not IEEE doubles. Rounding is not modelled. `Number(NetPrice)` is taken as already numeric.
- Numbers.ToNumber: models a decimal grammar only. JavaScript's leading and trailing white space, exponents, hex literals, "Infinity" and the prefix parse of `parseFloat` are not modelled.
- Date parsing (`getDateValue`, `_parseDateString`) is not modelled. The BT filter keeps the two date strings, and a line's date is only present or absent.
- View fields the core never reads are not modelled: currency, company code, scroll height, delay, selection flags and the GR cancel reason.
- GoodsReceipt.GrController.ProcessValidGrData: the reassignment of `oGR.Items` is visible only through the item model. The event's data object itself is not kept.
- PurchaseOrder.PoController.AddMovtLine: "the appended line is the new one" is stated under the condition that the controller was consistent before the call. Otherwise only the reconciled result is stated.
- PurchaseOrder.PoController.CopyMovtLine: "the old lines are kept and the copy is appended last" is stated under the same condition, that the controller was consistent before the call. Otherwise only the reconciled result is stated.
- PurchaseOrder.PoController.DeleteMovtLine: "the rest keep their order" is stated under the condition that the controller was consistent before the call and line i exists. Otherwise only the reconciled result of the splice is stated.

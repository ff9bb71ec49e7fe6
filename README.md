# eMerchantPay OpenCart payment module — a Dafny model of its core

This project models the core of the eMerchantPay payment extension for
OpenCart. The extension offers two payment methods:

- the hosted Web Payment Form ("checkout"), which redirects the customer to the gateway's page;
- direct card payments ("direct").

Both methods keep a ledger of gateway transactions per order: one database
table per method, keyed by the gateway's `unique_id`. Follow-up
transactions reference their parent through `reference_id`. The model
covers:

- **The ledger** (`DbHelper`, `Rows`). The stored row is a map from
  column to value. Writes are upserts (`populateTransaction`), cell by
  cell escaped (`sanitizeData`), and failures are logged (`logEx`) along
  with the Java-style trace text (`jTraceEx`).
- **The admin side** (`AdminModel`, `AdminController`, `TransactionTree`,
  `AdminSettings`, `RecurringLog`):
  - the ledger queries;
  - the order's transaction list, with parents before children and roots sorted by time;
  - which of capture, refund and void a transaction offers;
  - the amounts the action dialogs offer;
  - the capture, refund and void requests, whose gateway answers are filed as child rows;
  - closing a recurring order once its initial sale is fully refunded;
  - the settings form's validation;
  - the recurring log.
- **The storefront side** (`CheckoutController`, `CheckoutModel`,
  `DirectController`, `DirectModel`, `CatalogBase`, `SettingsHelper`,
  `EmerchantpayHelper`, `CardExpiry`):
  - the payment confirmation (`send`) and what it files;
  - the reconciliation of gateway notifications (`callback`);
  - the status history added to the order;
  - the method's availability;
  - transaction-type lists and settings defaults;
  - the card-form input filtering, and the page script that prepares the card expiry;
  - the small helpers (URLs, addresses, order totals, secure connection).
- **Library semantics** (`Php`, `OpenCart`, `Genesis`). These cover the
  PHP string and array functions the code relies on (`trim`, `explode`,
  `substr`, `intval` of integer texts, `strtoupper`, stable `uasort`), OpenCart's response
  and order tables, and the gateway SDK's constants and type lists.

The gateway is not called. Its answers (a response object, an exception, a
notification) are parameters, and the requests sent to it are recorded
in the model's state. The database's failures are parameters too
(`Option<Exception>`).

## Model

| member | source | states |
|---|---|---|
| AdminController.CheckReferenceActionByCustomAttr | system/admin/base_controller.php:1577-1643 | true exactly when the configured transaction types are an array and hold `<type>_<subtype>` for a subtype that allows the action on a Google Pay, PayPal or Apple Pay transaction; any other type is refused |
| AdminController.HasApprovedState | system/admin/base_controller.php:1652-1661 | true exactly when the status is `approved`; an empty status is refused |
| AdminController.CanCaptureTransaction | system/admin/base_controller.php:745-759 | capture is offered only on an approved transaction: for a wallet type exactly when its `authorize` subtype is configured, otherwise exactly when the gateway can capture the type |
| AdminController.CanRefundTransaction | system/admin/base_controller.php:768-782 | refund is offered only on an approved transaction: for PayPal when `sale` or `express` is configured, for Google Pay and Apple Pay when `sale` is, otherwise exactly when the gateway can refund the type |
| AdminController.CanVoidTransaction | system/admin/base_controller.php:791-795 | void is offered exactly when the gateway can void the type and the transaction is approved |
| AdminController.WalletEligibilityIgnoresSdk | system/admin/base_controller.php:745-782 | for wallet types, capture and refund do not depend on the gateway's type lists, and nothing is offered without a configured subtype array |
| AdminController.IsInitialRecurringTransaction | system/admin/base_controller.php:688-694 | true exactly for `init_recurring_sale` and `init_recurring_sale3d` |
| AdminController.IsVoidTransactionExist | system/admin/base_controller.php:805-813 | true exactly when an approved void in the order references the transaction |
| AdminController.UniqueRowUids | system/admin/base_controller.php:219-236 | the rows of the ledger table have distinct ids, which building the tree needs |
| AdminController.LedgerSumOver | system/admin/base_controller.php:300-320 | the sum the dialogs read adds up exactly the matching rows of the ledger table |
| AdminController.SelectEmpty | admin/model/payment/emerchantpay_checkout.php:166-188 | a selection of ledger rows is empty exactly when no row matches |
| AdminController.SelectSnoc | admin/model/payment/emerchantpay_checkout.php:166-188 | one more row extends a selection by itself exactly when it matches |
| AdminController.SelectSumSnoc | admin/model/payment/emerchantpay_checkout.php:142-164 | one more row changes a selection's sum by its amount exactly when it matches |
| AdminController.SumOfSnoc | admin/model/payment/emerchantpay_checkout.php:142-164 | one more ledger row changes a sum by its amount exactly when it matches the order, reference, types and status |
| AdminController.CaptureLowersCapturable | system/admin/base_controller.php:299-313 | a filed approved capture of the transaction lowers what the capture dialog offers by its amount |
| AdminController.RefundLowersRefundable | system/admin/base_controller.php:316-324 | a filed approved refund lowers what the refund dialog offers by its amount, and never counts as a void |
| AdminController.VoidClosesRefund | system/admin/base_controller.php:316-328 | a filed approved void leaves nothing to refund and closes the void dialog |
| AdminController.RowsOfSnoc | system/db_helper.php:117-144 | filing a row under a new id appends it to the ledger table |
| AdminController.Validation | system/admin/base_controller.php:371-379 | a request goes ahead exactly when it has a non-blank `reference_id` naming a stored transaction whose `order_id` passes the test; a missing or blank reference is an invalid request |
| AdminController.GatewayCall | system/admin/base_controller.php:376-390 | the gateway request names the action, the stored transaction's id, the stored terminal token (null without that column) and the admin's message or the default usage text |
| AdminController.ChildData | system/admin/base_controller.php:395-412 | the data array an answered action files has distinct keys |
| AdminController.ChildStored | system/admin/base_controller.php:392-414 | filing the answer adds a row under the answer's id, in the target's order, referencing the target, with the answer's type and status and, but for a void, its amount; every other row is unchanged |
| AdminController.Filing | system/db_helper.php:58-76 | upserting a data array that starts with order, reference, id, type and status (and amount) stores them under the id and changes no other row |
| AdminController.VoidFilesNoAmount | system/admin/base_controller.php:556-634 | a void files no amount or currency: a new void row has none and an existing row keeps its own |
| AdminController.Unfiled | system/db_helper.php:58-76 | a data array without amount and currency leaves the row's own amount and currency as they were |
| AdminController.AnswerTokenNeedsColumn | system/admin/base_controller.php:408-419 | when the table has no `terminal_token` column, an answer carrying a token cannot be filed (unknown column), yet the action still answers with success |
| AdminController.ReplyJson | system/admin/base_controller.php:416-425 | the answer is an error exactly when the gateway returned no transaction id; a request whose exception the admin model caught answers `text_response_failure` |
| AdminController.UnknownReferenceFailsAsWritten | system/admin/base_controller.php:374-379 | as written, a reference with no stored transaction reaches `array_key_exists` on `false` and dies with a TypeError, where the `order_id` test after it answers `text_invalid_reference_id` |
| AdminController.PrepareAgreesOnStored | system/admin/base_controller.php:374-379 | for a stored transaction, or a blank reference, the as-written order of the checks and the corrected one agree |
| AdminController.AdminController.constructor | system/admin/base_controller.php:99-111 | a fresh controller has sent nothing and answered nothing |
| AdminController.AdminController.CaptureOffer | system/admin/base_controller.php:299-313 | the capture dialog offers the approved authorizations referencing the transaction's parent less the approved captures referencing the transaction |
| AdminController.AdminController.VoidAllowed | system/admin/base_controller.php:327-328 | a void is allowed exactly when no approved void references the transaction |
| AdminController.AdminController.RefundOffer | system/admin/base_controller.php:316-324 | the refund dialog offers nothing once voided, else the amount less the approved refunds |
| AdminController.AdminController.ModalForm | system/admin/base_controller.php:287-360 | no dialog unless both reference and kind are posted; otherwise the named transaction with the amount to capture, the amount to refund or whether a void is allowed, by kind |
| AdminController.AdminController.AnnotateAll | system/admin/base_controller.php:190-203 | every listed entry carries the capture, refund and void flags and the void test, in list order |
| AdminController.AdminController.TransactionList | system/admin/base_controller.php:167-280 | corrected — see Findings row 1: nothing when the module is disabled or the order has no transactions; otherwise the tree-ordered listing with each entry's actions, roots in ascending stored time where the source sorts on the "H:i:s m/d/Y" text |
| AdminController.AdminController.UpdateOrder | system/admin/base_controller.php:728-736 | the order's status is set and one history entry added |
| AdminController.AdminController.CancelOrderRecurring | system/admin/base_controller.php:658-667 | corrected — see Findings row 5: the order's recurring order is set to cancelled; true exactly when that changed a row; an order without one changes nothing where the source dies |
| AdminController.AdminController.AddRecurringTransaction | system/admin/base_controller.php:704-716 | corrected — see Findings row 5: a recurring transaction is added exactly when the order has a non-zero recurring order; an order without one adds nothing where the source dies |
| AdminController.AdminController.OrderRecurringIdAsWritten | system/admin/base_controller.php:674-679 | as written, an order without a recurring order is a TypeError, exactly where the corrected lookup finds none; otherwise the same id |
| AdminController.AdminController.FullRefundWithoutRecurringOrderDies | system/admin/base_controller.php:496-502 | a full refund of an initial recurring sale whose order has no recurring order is accepted and settled, and then meets the as-written TypeError |
| AdminController.AdminController.ClosedWithoutRecurringOrder | system/admin/base_controller.php:502-516 | corrected, closing an order without a recurring order still sets it to Refunded with the history entry and leaves all recurring orders and recurring transactions as they were |
| AdminController.AdminController.Respond | system/admin/base_controller.php:439-444 | the answer adds the 500 status header before the JSON content type exactly for an error, and the JSON body |
| AdminController.AdminController.Answer | system/admin/base_controller.php:367-437 | a refused request reaches neither the gateway nor the ledger; an accepted one sends the request and files a settled answer as the target's child; an exception the admin model caught adds its trace to the log and files nothing |
| AdminController.AdminController.Capture | system/admin/base_controller.php:367-445 | `capture` answers as `Answer` (a caught gateway exception logged, nothing filed) and adds the headers and body the answer calls for |
| AdminController.AdminController.Void | system/admin/base_controller.php:556-634 | `void` answers as `Answer` (a caught gateway exception logged, nothing filed) and adds the headers and body the answer calls for |
| AdminController.AdminController.Refund | system/admin/base_controller.php:452-549 | `refund` answers as `Answer` (a caught gateway exception logged); when the refund completes the refunds of an initial recurring sale, the recurring order is closed, corrected for an order without one (Findings row 5), and otherwise the shop is unchanged |
| AdminController.AdminController.FollowRefund | system/admin/base_controller.php:498-518 | the recurring order is closed exactly when the settled refund completes the refunds of an initial recurring sale; corrected for an order without a recurring order (Findings row 5) |
| AdminController.AdminController.CloseRecurringOrder | system/admin/base_controller.php:502-516 | the recurring order is cancelled, the cancellation is added with the refunded total, and the order is set to Refunded without notifying the customer; corrected for an order without a recurring order (Findings row 5) |
| AdminController.AdminController.RecurringRefund | system/admin/base_controller.php:498-518 | closes exactly when the row is an initial recurring sale whose approved refunds add up to its amount |
| AdminModel.RowsOf | admin/model/payment/emerchantpay_checkout.php:190-206 | the table's rows are the rows filed under the ids, in insertion order |
| AdminModel.Select | admin/model/payment/emerchantpay_checkout.php:166-188 | a WHERE clause keeps exactly the rows that match, in table order |
| AdminModel.SelectUniqueIds | admin/model/payment/emerchantpay_checkout.php:166-188 | a selection of rows with distinct `unique_id`s has distinct `unique_id`s |
| AdminModel.TypeList | admin/model/payment/emerchantpay_checkout.php:166-176 | `type in ('<implode>')` is never an empty list; a non-empty type list is used as given |
| AdminModel.SumAmounts | admin/model/payment/emerchantpay_checkout.php:142-164 | the `foreach` adds up exactly the rows' amounts |
| AdminModel.AmountSumAppend | admin/model/payment/emerchantpay_checkout.php:142-164 | the sum over two lists of rows together is the sum of their sums |
| AdminModel.AmountSumSplit | admin/model/payment/emerchantpay_checkout.php:142-164 | the matching rows' sum plus the other rows' sum is the table's sum |
| AdminModel.AmountSumNonNegative | admin/model/payment/emerchantpay_checkout.php:142-164 | with no negative amount stored, a sum is never negative |
| AdminModel.GenTransactionId | admin/model/payment/emerchantpay_checkout.php:504-510 | the id starts with the prefix; for a prefix shorter than 32 it is 32 characters long and ends with the hash's tail; a 32-character prefix gets the whole hash |
| AdminModel.GenTransactionIdDistinguishes | admin/model/payment/emerchantpay_checkout.php:504-510 | for one short prefix, two hashes give the same id exactly when their tails after the prefix agree |
| AdminModel.UntranslatedTypeName | admin/model/payment/emerchantpay_checkout.php:393-405 | a type with no phrase that the SDK does not know is labelled with its upper-cased id |
| AdminModel.TranslatedTypeName | admin/model/payment/emerchantpay_checkout.php:393-405 | a translated phrase labels the type as it is |
| AdminModel.GetTransactionTypes | admin/model/payment/emerchantpay_checkout.php:340-424 | the keys are exactly the WPF types that are not excluded, plus the wallet subtypes; they are distinct and ascending, and each entry holds its own id and label |
| AdminModel.FileTypes | admin/model/payment/emerchantpay_checkout.php:410-421 | filing the sorted types gives exactly those keys, distinct and ascending, each with its id and label |
| AdminModel.Put | admin/model/payment/emerchantpay_checkout.php:410-421 | `$d[$key] = $value` keeps the keys when the key exists and appends it otherwise |
| AdminModel.DirectTransactionTypes | admin/model/payment/emerchantpay_direct.php:327-364 | the direct method lists exactly authorize, authorize3d, sale and sale3d, once each, with the SDK's names |
| AdminModel.AdminModel.Table | admin/model/payment/emerchantpay_checkout.php:190-206 | the table has one row per filed id |
| AdminModel.AdminModel.TableUniqueIds | admin/model/payment/emerchantpay_checkout.php:50-101 | no two rows of the table share a `unique_id`, the primary key |
| AdminModel.AdminModel.GetTransactionById | admin/model/payment/emerchantpay_checkout.php:119-140 | a row is found exactly when one has that `unique_id`, and the row found has it |
| AdminModel.AdminModel.GetTransactionsByTypeAndStatus | admin/model/payment/emerchantpay_checkout.php:166-188 | false exactly when no row of the order (`abs(intval)`) has one of the types, the status and the reference; otherwise exactly the matching rows |
| AdminModel.AdminModel.GetTransactionsSumAmount | admin/model/payment/emerchantpay_checkout.php:142-164 | the sum of the amounts of exactly the rows the selection returns, 0 when it returns false |
| AdminModel.AdminModel.GetTransactionsByOrder | admin/model/payment/emerchantpay_checkout.php:190-206 | false exactly when the order has no rows; otherwise exactly its rows, with distinct ids |
| AdminModel.DirectOrderKeyKeepsSign | admin/model/payment/emerchantpay_direct.php:188-204 | the direct model keeps the sign of a negative order id where the checkout model takes its absolute value |
| AdminSettings.RequiredFields | system/admin/base_controller.php:1668-1680 | five required fields, six for the direct module (its asynchronous order status) |
| AdminSettings.NegativeFraction | system/admin/base_controller.php:1267-1269 | "-0.5" counts as below zero, although its integer part does not |
| AdminSettings.MinusZero | system/admin/base_controller.php:1267-1269 | "-0" does not count as below zero |
| AdminSettings.MissingErrorsExact | system/admin/base_controller.php:1682-1686 | an error is recorded under a key exactly when some required field with that key was posted empty |
| AdminSettings.ValidationPasses | system/admin/base_controller.php:1259-1272 | the form passes exactly when the user may modify the module, every required field is non-empty and the SCA exemption amount is not below zero |
| AdminSettings.ValidationErrorsWatched | system/admin/base_controller.php:75-84 | every key `validate` can record is one the error answer watches |
| AdminSettings.ListedKeys | system/admin/base_controller.php:1040-1042 | the error list holds only watched keys that have an error |
| AdminSettings.ListedKeysComplete | system/admin/base_controller.php:1040-1042 | every error under a watched key is listed |
| AdminSettings.ValidationErrorsListed | system/admin/base_controller.php:1038-1044 | every error `validate` records appears in the answer's list |
| AdminSettings.SettingsController.constructor | system/admin/base_controller.php:99-111 | a fresh controller holds no errors and has answered nothing |
| AdminSettings.SettingsController.ValidateRequiredFields | system/admin/base_controller.php:1668-1687 | adds an error for each required field left empty |
| AdminSettings.SettingsController.CheckFields | system/admin/base_controller.php:1682-1686 | the loop adds exactly the errors of the empty fields |
| AdminSettings.SettingsController.Validate | system/admin/base_controller.php:1259-1272 | records the form's errors, and passes exactly when there are none at all |
| AdminSettings.SettingsController.ErrorListMessage | system/admin/base_controller.php:1038-1044 | the message is one `<li>` per watched error, in watch order, inside `<ul>` |
| AdminSettings.SettingsController.ProcessPostIndexAction | system/admin/base_controller.php:1019-1057 | a passing form is stored under the module's code, with its status and sort order again under `payment_<code>`, and answers success; a failing one stores nothing and answers the error list; both answer JSON |
| CardExpiry.LeadingSpaces | catalog/view/javascript/emerchantpay/emp-direct-encrypt.js:44-46 | the length of exactly the longest white-space prefix |
| CardExpiry.TrailingSpaces | catalog/view/javascript/emerchantpay/emp-direct-encrypt.js:44-46 | the length of exactly the longest white-space suffix |
| CardExpiry.JsTrim | catalog/view/javascript/emerchantpay/emp-direct-encrypt.js:44-46 | the result has no white space at either end and is the middle of the input, with only white space dropped around it |
| CardExpiry.JsTrimTrimmed | catalog/view/javascript/emerchantpay/emp-direct-encrypt.js:44-46 | a trimmed string is its own trim, so trimming is idempotent |
| CardExpiry.StripWhitespace | catalog/view/javascript/emerchantpay/emp-direct-encrypt.js:28 | the result has no white space and keeps every other character as often as the input has it |
| CardExpiry.StripWhitespaceAppend | catalog/view/javascript/emerchantpay/emp-direct-encrypt.js:28 | stripping a concatenation is concatenating the stripped parts, so the characters kept keep their order |
| CardExpiry.StripWhitespaceChar | catalog/view/javascript/emerchantpay/emp-direct-encrypt.js:28 | one white-space character is removed, any other character is kept |
| CardExpiry.StripWhitespaceKeeps | catalog/view/javascript/emerchantpay/emp-direct-encrypt.js:28 | a card number without white space is left as it is |
| CardExpiry.LastTwo | catalog/view/javascript/emerchantpay/emp-direct-encrypt.js:47 | the last two characters, or the whole string when it is shorter |
| CardExpiry.TransformCardExpiry | catalog/view/javascript/emerchantpay/emp-direct-encrypt.js:37-51 | no input gives two empty strings; with a month and a year part, the month is trimmed and the year becomes the current century plus the last two characters of the trimmed year; otherwise the parts come back as they were |
| CardExpiry.ExplodeTwo | catalog/view/javascript/emerchantpay/emp-direct-encrypt.js:41 | splitting "M/Y" at '/' gives the two parts |
| CardExpiry.CenturyOfThisCentury | catalog/view/javascript/emerchantpay/emp-direct-encrypt.js:40-47 | any year from 2000 to 2099 gives the century "20" |
| CardExpiry.TransformCardExpiryOfMonthYear | catalog/view/javascript/emerchantpay/emp-direct-encrypt.js:37-51 | "MM/YY" comes back as the month and the century followed by the year |
| CardExpiry.TransformCardExpiryPartial | catalog/view/javascript/emerchantpay/emp-direct-encrypt.js:43-50 | a half-typed expiry comes back untouched: "12" gives ("12", "") and "/25" gives ("", "25") |
| CardExpiry.CreditCardData | catalog/view/javascript/emerchantpay/emp-direct-encrypt.js:19-33 | the holder as typed; the number stripped of all white space with the other characters in order (StripWhitespace); the expiry transformed; the CVV exactly the trimmed input |
| CatalogBase.Coalesce | system/catalog/base_controller.php:311-326 | `$v ?? $default` is null only when both are, and is the cell itself when it is set |
| CatalogBase.BuildUrl | system/catalog/base_controller.php:62-72 | the link carries the store's language; its route is the controller, followed by "." and the action exactly when the action is not `empty` |
| CatalogBase.BuildUrlSeparatesActions | system/catalog/base_controller.php:62-72 | two non-empty actions on one controller give the same link exactly when they are the same action |
| CatalogBase.ZeroActionIsDropped | system/catalog/base_controller.php:62-72 | the action "0" is `empty` in PHP, so it links to the bare controller |
| CatalogBase.BuildActionUrls | system/catalog/base_controller.php:246-264 | the three gateway return URLs, each the method's controller with its action |
| CatalogBase.ActionUrlsDistinct | system/catalog/base_controller.php:246-264 | the three gateway URLs (notification, success return and failure return) are pairwise different and lead to `callback`, `success` and `failure` of the same controller |
| CatalogBase.PopulateAddresses | system/catalog/base_controller.php:82-132 | each address comes from its own fields when name and first line are all given, and from the other address's fields otherwise |
| CatalogBase.PopulateAddressesSymmetric | system/catalog/base_controller.php:82-132 | swapping the order's two addresses swaps billing and shipping |
| CatalogBase.PopulateAddressesFallBack | system/catalog/base_controller.php:82-132 | when either address is complete both addresses sent are named, and when only one is complete both are that one |
| CatalogBase.GetCustomerId | system/catalog/base_controller.php:231-237 | 0 for a guest, the customer's id when logged in |
| CatalogBase.PopulateDataUniqIdTrx | system/catalog/base_controller.php:311-326 | the ledger data of a newly created transaction has ten distinct keys, with the gateway's id among them |
| CatalogBase.UniqIdRowStored | system/catalog/base_controller.php:311-326 | the row filed is a root (reference '0', falsy) of the order; it is typed `checkout` when the gateway gives no type, has empty messages by default, and holds the gateway's id, status, amount, currency and time |
| CatalogBase.UniqIdRowKeepsToken | system/catalog/base_controller.php:311-326 | a row a notification already stored keeps its mode and terminal token |
| CatalogBase.UniqIdDataOmits | system/catalog/base_controller.php:311-326 | the data names neither the mode nor the terminal token |
| CatalogBase.ErrorText | catalog/controller/payment/emerchantpay_checkout.php:172-173 | an empty exception message becomes the generic payment-system error; any other is shown as it is |
| CatalogBase.RespondWithError | system/catalog/base_controller.php:273-276 | the answer is a JSON body holding only the error |
| CheckoutModel.GetMethods | catalog/model/payment/emerchantpay_checkout.php:61-91 | the method is offered exactly when no geo zone is configured, no billing address is required, or the address is in the zone |
| CheckoutModel.GeoZoneDecidesOnlyWhenConfigured | catalog/model/payment/emerchantpay_checkout.php:61-91 | the zone check can hide the method only when a zone is configured and a billing address required |
| CheckoutModel.GetTransactionById | catalog/model/payment/emerchantpay_checkout.php:137-150 | an empty id gives false without a query; otherwise the row stored under that `unique_id`, or false |
| CheckoutModel.ZeroIdIsNeverFound | catalog/model/payment/emerchantpay_checkout.php:137-150 | a row stored under '0' is never found, although it is in the table |
| CheckoutModel.RetrievedConsumerId | catalog/model/payment/emerchantpay_checkout.php:500-528 | null on an exception or an error response, otherwise the response's consumer id |
| CheckoutModel.ConsumerStore.constructor | catalog/model/payment/emerchantpay_checkout.php:98-128 | a fresh store knows no consumers |
| CheckoutModel.ConsumerStore.GetConsumerId | catalog/model/payment/emerchantpay_checkout.php:98-111 | the stored consumer id of a known e-mail; for an unknown one, what the gateway lookup gives |
| CheckoutModel.ConsumerStore.AddConsumer | catalog/model/payment/emerchantpay_checkout.php:117-128 | a failed insert (a known e-mail or a database error) is logged and changes nothing; a successful one makes the e-mail read back its new id whatever the gateway says |
| CheckoutModel.ConsumerStore.SaveWpfTokenizationData | catalog/model/payment/emerchantpay_checkout.php:561-568 | a non-empty consumer id in the gateway's answer is stored for the e-mail; an empty one changes nothing |
| CheckoutModel.TokenizationConsumerId | catalog/model/payment/emerchantpay_checkout.php:535-543 | the request carries the consumer id exactly when the lookup gives a non-empty one |
| CheckoutModel.IntersectSameMembers | catalog/model/payment/emerchantpay_checkout.php:600-608 | intersecting with two lists that have the same members gives the same result |
| CheckoutModel.WithoutSorted | catalog/model/payment/emerchantpay_checkout.php:600-608 | removing types from a sorted list keeps it sorted |
| CheckoutModel.OrderCardTransactionTypesOrder | catalog/model/payment/emerchantpay_checkout.php:600-608 | the result holds exactly the selected types: first the selected card types in the SDK's card-type order, then the rest in ascending order, none of them a card type |
| CheckoutModel.GetCustomParameterKey | catalog/model/payment/emerchantpay_checkout.php:575-592 | `payment_method` for PPRO, `payment_type` for PayPal, `payment_subtype` for Google Pay and Apple Pay, `unknown` for anything else |
| CheckoutModel.AliasMap | catalog/model/payment/emerchantpay_checkout.php:309-330 | every PPRO method with the `_ppro` suffix and every wallet selection is an alias |
| CheckoutModel.AliasTargetsHaveKeys | catalog/model/payment/emerchantpay_checkout.php:309-339 | every alias stands for a gateway type that has a custom attribute, never `unknown` |
| CheckoutModel.AliasedAt | catalog/model/payment/emerchantpay_checkout.php:336-341 | `$processed_list[$b]` is the first entry for the gateway type, or none |
| CheckoutModel.GetTransactionTypes | catalog/model/payment/emerchantpay_checkout.php:302-359 | the processed list keeps every selection that is not an alias, in card-first order; it has one entry per aliased gateway type, whose parameters are those of its selections in selection order |
| CheckoutModel.AddSelection | catalog/model/payment/emerchantpay_checkout.php:332-356 | the loop body either appends the selection or adds its parameter to its gateway type's entry |
| CheckoutModel.TypeListStep | catalog/model/payment/emerchantpay_checkout.php:332-356 | seeing one more selection is one more loop step |
| CheckoutModel.TypeListProperties | catalog/model/payment/emerchantpay_checkout.php:302-359 | the list the loop builds has the pass-through entries, the single entry per type and the parameters that `GetTransactionTypes` promises |
| CheckoutModel.PlainTypesUpdate | catalog/model/payment/emerchantpay_checkout.php:336-352 | rewriting an aliased entry leaves the pass-through entries alone |
| CheckoutModel.PlainTypesOfTypeList | catalog/model/payment/emerchantpay_checkout.php:332-356 | the pass-through entries are exactly the unaliased selections, in order |
| CheckoutModel.AliasedAtAppend | catalog/model/payment/emerchantpay_checkout.php:336-354 | appending an entry leaves an earlier entry for a type where it was |
| CheckoutModel.AliasedAtUpdate | catalog/model/payment/emerchantpay_checkout.php:336-352 | rewriting an aliased entry keeps every type's position |
| CheckoutModel.ParametersOfTypeList | catalog/model/payment/emerchantpay_checkout.php:332-356 | a type's entry holds exactly the parameters of its selections, in order |
| CheckoutModel.ParametersOfAddType | catalog/model/payment/emerchantpay_checkout.php:333-352 | one selection adds its parameter to the entry of the type it stands for and to no other |
| CheckoutModel.AliasedOnceTypeList | catalog/model/payment/emerchantpay_checkout.php:332-356 | no gateway type has two entries |
| CheckoutModel.CustomerIdentity | catalog/model/payment/emerchantpay_checkout.php:417-441 | the customer's id when it is positive, the user hash otherwise |
| CheckoutModel.GetCustomRequiredAttributes | catalog/model/payment/emerchantpay_checkout.php:405-447 | iDebit and InstaDebit carry the user hash, Klarna exactly the items GetKlarnaCustomParamItems builds (EmerchantpayHelper.KlarnaItemsFor: the order's currency, one item per ordered product with its name, quantity, price and digital-or-physical type, then the Taxes and Shipping Costs items when their exact sums are non-zero, corrected as in Findings row 2), Trustly and paysafecard the customer's identity, online banking the bank codes when there are any, and every other type carries nothing |
| CheckoutModel.UpperOfLower | catalog/model/payment/emerchantpay_checkout.php:481-493 | upper-casing a lower-cased string is upper-casing it |
| CheckoutModel.GetLanguageSupported | catalog/model/payment/emerchantpay_checkout.php:481-493 | the page language is "en", or at most two lower-case characters that start the chosen language, whose upper-case form the SDK supports; and whenever the SDK supports the start of the chosen language, that start in lower case is used, never "en" |
| CheckoutController.GetPaymentTransaction | catalog/controller/payment/emerchantpay_checkout.php:363-373 | the first payment the reconcile reports, or the reconcile itself when it reports none |
| CheckoutController.RootData | catalog/controller/payment/emerchantpay_checkout.php:201-209 | a notification's root data is exactly the WPF transaction's id, status, currency, amount and time |
| CheckoutController.PaymentData | catalog/controller/payment/emerchantpay_checkout.php:222-237 | the payment's data has twelve distinct keys, with the payment's own id as its id |
| CheckoutController.Found | catalog/model/payment/emerchantpay_checkout.php:137-150 | a row is found exactly when the id is non-empty and a row is stored under it, and the row found is that row |
| CheckoutController.StatusEntry | catalog/controller/payment/emerchantpay_checkout.php:246-264 | a history entry exactly for approved, declined and error: the success status and comment for approved, the failure status otherwise, with the customer notified |
| CheckoutController.LastData | catalog/controller/payment/emerchantpay_checkout.php:203-239 | the data filed last, passed on to the recurring bookkeeping, has distinct keys |
| CheckoutController.Reference | catalog/controller/payment/emerchantpay_checkout.php:217-243 | the recurring reference is the filed payment's id when it is an initial recurring one, and null otherwise |
| CheckoutController.RootWriteKeepsColumns | catalog/controller/payment/emerchantpay_checkout.php:203-211 | the root write keeps every other column (order, parent, type, token) of a row already filed |
| CheckoutController.PaymentFiledUnderRoot | catalog/controller/payment/emerchantpay_checkout.php:219-239 | a filed payment is a child of the WPF transaction: it references the reconciled id, is in the root row's order, and has its own id, type, status and token ('' when none) |
| CheckoutController.UnlinkedNotification | catalog/controller/payment/emerchantpay_checkout.php:211-270 | when the root row belongs to no order, only the root data is filed, no history is added, and the root data is passed on with no reference |
| CheckoutController.ReplayKeepsLedger | catalog/controller/payment/emerchantpay_checkout.php:183-280 | replaying a notification the ledger took without errors leaves the ledger as it is, and gives the same history entry and recurring calls again |
| CheckoutController.PaymentKeepsRoot | catalog/controller/payment/emerchantpay_checkout.php:224-239 | the payment write leaves the root row alone |
| CheckoutController.RootAgain | catalog/controller/payment/emerchantpay_checkout.php:203-211 | filing the root data again over what the first filing made changes nothing |
| CheckoutController.GetCurrentUserIdHash | catalog/controller/payment/emerchantpay_checkout.php:348-354 | at most `length` characters: the start of the SHA-1 of the customer's id when one is logged in, else the start of a fresh generated id |
| CheckoutController.UserHashIsThirtyCharacters | catalog/controller/payment/emerchantpay_checkout.php:348-354 | with the default length, the hash is exactly 30 characters |
| CheckoutController.Checkout.constructor | catalog/controller/payment/emerchantpay_checkout.php:103-108 | a fresh controller has made no recurring calls |
| CheckoutController.Checkout.Callback | catalog/controller/payment/emerchantpay_checkout.php:183-280 | a notification that is not authentic changes and answers nothing; one that throws is only logged; an authentic one performs the reconciliation and is acknowledged in XML with the reconciled id |
| CheckoutController.Checkout.Reconcile | catalog/controller/payment/emerchantpay_checkout.php:197-275 | the ledger, history, order status and recurring calls are those of the reconciliation, and the answer is the XML acknowledgement |
| CheckoutController.Checkout.FileNotification | catalog/controller/payment/emerchantpay_checkout.php:203-265 | files the root data, the payment under it when linked, and the status's history entry |
| CheckoutController.Checkout.FileRoot | catalog/controller/payment/emerchantpay_checkout.php:203-215 | the root data is upserted and the root row read back |
| CheckoutController.Checkout.FilePayment | catalog/controller/payment/emerchantpay_checkout.php:219-244 | the payment is filed exactly when the root row belongs to an order and the reconcile reports a payment |
| CheckoutController.Checkout.AddStatusHistory | catalog/controller/payment/emerchantpay_checkout.php:246-264 | adds the status's history entry, if any, and applies its status to the order |
| CheckoutController.Checkout.PrepareRedirect | catalog/controller/payment/emerchantpay_checkout.php:383-403 | files the created transaction as a root of the order's ledger, moves the order to the configured status with the "initiated" comment, and makes the recurring calls for a recurring order |
| CheckoutController.Checkout.RecordInitiated | catalog/controller/payment/emerchantpay_checkout.php:390-395 | adds the "initiated" history entry and applies its status |
| CheckoutController.Checkout.AddRedirectCalls | catalog/controller/payment/emerchantpay_checkout.php:397-401 | adds the recurring calls of a recurring order |
| CheckoutController.Checkout.Send | catalog/controller/payment/emerchantpay_checkout.php:103-176 | without an order in the session it answers only "Incorrect call!"; a rethrown exception is answered with its message and logged; one the model caught is logged and answered with the generic error; a created transaction with an id is filed and the browser redirected; one without an id is answered with the generic error; only the redirect changes the ledger and the order, which it moves to the configured status with the "initiated" history entry |
| CheckoutController.SendAnswer | catalog/controller/payment/emerchantpay_checkout.php:110-173 | the answer redirects exactly when there is an order in the session and the created transaction has an id, and then to its redirect URL; an exception the model caught answers the generic error |
| DbHelper.Escape | system/db_helper.php:103-105 | the escaper never shortens a text |
| DbHelper.UnescapeEscape | system/db_helper.php:99-108 | a literal the escaper wrote is read back by the database as the original text |
| DbHelper.UnescapeOne | system/db_helper.php:103-105 | one escaped character is read back as that character, whatever follows |
| DbHelper.EscapeInjective | system/db_helper.php:99-108 | escaping never merges two texts, so `sanitizeData` never merges two keys |
| DbHelper.EscapePlain | system/db_helper.php:103-105 | a text without special characters is left as it is |
| DbHelper.EscapeColumnName | system/db_helper.php:103-105 | the table's column names pass through the escaper unchanged |
| DbHelper.DecodeSanitize | system/db_helper.php:103-105 | a sanitized cell is read back as the value written, with null stored as '' |
| DbHelper.SanitizedText | system/db_helper.php:103-105 | the text of a sanitized cell is the escaped text of the original |
| DbHelper.SanitizedData | system/db_helper.php:99-108 | the sanitized array has one entry per entry of the input, with the same key and the escaped value |
| DbHelper.Put | system/db_helper.php:104 | `$result[$key] = $value` with a new key appends the entry |
| DbHelper.SanitizeData | system/db_helper.php:99-108 | `array_walk` produces exactly the sanitized array, still with distinct keys |
| DbHelper.SanitizedSnoc | system/db_helper.php:103-105 | one more entry walked is one more sanitized entry |
| DbHelper.DecodedData | system/db_helper.php:137-140 | the database reads back each literal of the array in place |
| DbHelper.StoredRow | system/db_helper.php:58-76 | a data array written through the escaper stores each value in its column, with null stored as '' |
| DbHelper.SameKeys | system/db_helper.php:99-108 | arrays naming the same columns at the same places name the same set, both with distinct keys or neither |
| DbHelper.Dotted | system/db_helper.php:206-208 | `str_replace('\\', '.', ...)` keeps the length and leaves no backslash |
| DbHelper.Basename | system/db_helper.php:209 | `basename` is the tail of the path after its last '/' |
| DbHelper.Walk | system/db_helper.php:199-219 | a section of the trace has at least one line |
| DbHelper.JTraceEx | system/db_helper.php:185-227 | the loop and the recursion into the cause produce exactly the trace text |
| DbHelper.TraceStartsWithHeader | system/db_helper.php:186-194 | a trace starts with "Class: message" |
| DbHelper.WalkGrowsSeen | system/db_helper.php:199-219 | the walk only adds to the seen list, and adds the location it starts from when that is new |
| DbHelper.CauseIsIntroduced | system/db_helper.php:221-224 | a cause is introduced on a line of its own as "Caused by: Class: message" |
| DbHelper.CauseStartsWithHeader | system/db_helper.php:186-194 | with a non-empty seen list, a section starts with "Caused by: " and its header |
| DbHelper.WalkSeenDistinct | system/db_helper.php:199-219 | the seen list never holds a location twice |
| DbHelper.SeenLocationEndsSection | system/db_helper.php:199-203 | a section whose first location was already seen is cut short with " ... N more", N being the frames left plus one |
| DbHelper.UnknownColumn | system/db_helper.php:137-140 | the write names an unknown column exactly when one of its keys is not a column of the table |
| DbHelper.TableInsert | system/db_helper.php:117-144 | inserting a row under its own new id keeps the table well formed |
| DbHelper.TableUpdate | system/db_helper.php:153-172 | replacing a row by one under the same id keeps the table well formed |
| DbHelper.DbHelper.constructor | system/db_helper.php:58-76 | a fresh helper holds an empty table and an empty log |
| DbHelper.DbHelper.LogEx | system/db_helper.php:85-90 | the trace is added to the log exactly when debugging is enabled |
| DbHelper.DbHelper.AddTransaction | system/db_helper.php:117-144 | on a database error the table is unchanged and the error logged; otherwise the new row is filed under its id, appended to the ids |
| DbHelper.DbHelper.InsertedRow | system/db_helper.php:137-140 | the inserted row has exactly the supplied columns plus `unique_id`, filed under its id |
| DbHelper.DbHelper.UpdateTransaction | system/db_helper.php:153-172 | on a database error the table is unchanged and the error logged; otherwise exactly the supplied columns of the row are overwritten |
| DbHelper.DbHelper.PopulateTransaction | system/db_helper.php:58-76 | the ledger afterwards is `Write`: the upsert of the sanitized data, or the old table with the error logged |
| DbHelper.DbHelper.UpdateFiled | system/db_helper.php:68-69 | the UPDATE branch gives the `Write` ledger |
| DbHelper.DbHelper.AddFiled | system/db_helper.php:70-71 | the INSERT branch gives the `Write` ledger |
| DbHelper.DecodedKeys | system/db_helper.php:137-140 | the stored row has exactly the keys of the data array |
| DbHelper.SanitizedUnknown | system/db_helper.php:99-108 | sanitizing does not change which unknown column a write names |
| DbHelper.DecodedLookup | system/db_helper.php:137-140 | a stored column holds its literal read back; a column not stored was not in the data |
| DbHelper.DecodedRowSnoc | system/db_helper.php:137-140 | the last entry of the data overrides the stored row's column |
| DbHelper.LookupSanitized | system/db_helper.php:65 | the `unique_id` the SELECT looks for is the sanitized one |
| DbHelper.UpsertOthers | system/db_helper.php:63-72 | after the upsert the table has the data's row too, and every other row is untouched |
| DbHelper.UpsertSupplied | system/db_helper.php:153-168 | the upserted row holds every supplied value, with null stored as '' |
| DbHelper.Filed | system/db_helper.php:58-76 | each entry of a filed data array is in the row it was filed as |
| DbHelper.UpsertUnsupplied | system/db_helper.php:153-168 | a column the data does not name keeps what the row held, nothing for a new row |
| DbHelper.UpsertIdempotent | system/db_helper.php:58-76 | upserting the same data twice is upserting it once |
| DbHelper.UpsertUpdates | system/db_helper.php:68-69 | on an existing row the upsert is the UPDATE of its supplied columns |
| DbHelper.UpsertInserts | system/db_helper.php:70-71 | on a new id the upsert is the INSERT of the row |
| DbHelper.Write | system/db_helper.php:58-76 | a refused write leaves the table as it was; a successful one is the upsert and logs nothing |
| DbHelper.WriteKeepsUnnamed | system/db_helper.php:153-168 | a write leaves every column its data does not name as the row held it |
| DbHelper.UpsertAgain | system/db_helper.php:153-168 | an upsert over a row that already holds what that upsert made of it changes nothing |
| DbHelper.WriteAgain | system/db_helper.php:58-76 | on a table that has every column the data names, writing the same data twice is writing it once |
| DbHelper.WriteOver | system/db_helper.php:58-76 | writing data over a row that already holds what writing it on another ledger made of it leaves the ledger as it was |
| DirectController.InputFilter | catalog/controller/payment/emerchantpay_direct.php:292-325 | a card number is RemoveSpaces of the input, every space gone and the other characters in order; a CVV is kept; year and month are read from the expiry split at '/'; every other field is trimmed |
| DirectController.YearField | catalog/controller/payment/emerchantpay_direct.php:298-310 | with exactly two parts, a two-character year gets "20" in front and any other is cut to four characters; otherwise the trimmed input |
| DirectController.MonthField | catalog/controller/payment/emerchantpay_direct.php:311-321 | with exactly two parts and a month PHP does not take as empty (neither "" nor "0"), the month cut to two characters; otherwise the trimmed input |
| DirectController.PlainChars | catalog/controller/payment/emerchantpay_direct.php:299-302 | every character of a plain field is neither '/' nor white space |
| DirectController.InputFilterOfMonthYear | catalog/controller/payment/emerchantpay_direct.php:298-321 | an expiry typed "MM/YY" gives the month as typed and the year "20YY" |
| DirectController.MonthOfParts | catalog/controller/payment/emerchantpay_direct.php:312-319 | a trimmed, non-empty month of at most two characters is kept |
| DirectController.ShortYearOfParts | catalog/controller/payment/emerchantpay_direct.php:299-306 | a trimmed two-character year becomes "20" followed by it |
| DirectController.MonthYearParts | catalog/controller/payment/emerchantpay_direct.php:299-320 | "M/Y" of plain fields splits into exactly M and Y, each its own trim |
| DirectController.PlainNoSlash | catalog/controller/payment/emerchantpay_direct.php:299 | a plain field holds no '/' |
| DirectController.InputFilterAgreesWithPage | catalog/controller/payment/emerchantpay_direct.php:292-325 | the page script's transformed month and year of an "MM/YY" expiry (catalog/view/javascript/emerchantpay/emp-direct-encrypt.js:37-51) are the month and year the store sends |
| DirectController.FalsyMonth | catalog/controller/payment/emerchantpay_direct.php:317 | an expiry of two parts whose month part PHP takes for empty gives the whole trimmed expiry as the month |
| DirectController.MonthZeroIsNotAMonth | catalog/controller/payment/emerchantpay_direct.php:317 | a month of "0" is empty to PHP, so an expiry "0/YY" is sent whole, trimmed, as the month |
| DirectController.FourDigitYearIsKept | catalog/controller/payment/emerchantpay_direct.php:308 | a four-character year is sent as typed |
| DirectController.WholeYearOfParts | catalog/controller/payment/emerchantpay_direct.php:308 | a trimmed year of three or four characters is kept whole |
| DirectController.StatusHistory | catalog/controller/payment/emerchantpay_direct.php:420-462 | a history entry exactly for a pending-async, approved, declined or error payment, for the session's order; the customer is notified exactly when it is not approved; each status gets its own configured order status and phrase |
| DirectController.StatusThrown | catalog/controller/payment/emerchantpay_direct.php:430-461 | an exception exactly for a failed payment (with its message) or a pending one that asks for the 3-D Secure v2 method |
| DirectController.StatusRedirect | catalog/controller/payment/emerchantpay_direct.php:436-438 | the target differs from the default only for a pending payment, and then it is the gateway's redirect URL |
| DirectController.ThrownText | catalog/controller/payment/emerchantpay_direct.php:174-176 | the answered error is the 3-D Secure phrase, or the payment's message, or the generic error when that message is empty |
| DirectController.ThrownException | catalog/controller/payment/emerchantpay_direct.php:174-177 | the logged exception is a plain Exception with the thrown message and no cause |
| DirectController.SendAnswer | catalog/controller/payment/emerchantpay_direct.php:113-178 | the browser is sent on exactly when the order is in the session, the payment came back with an id and nothing was thrown; no order in the session answers "Incorrect call!"; an exception the model caught answers the generic error; a failed payment answers its message |
| DirectController.FiledAnswer | catalog/controller/payment/emerchantpay_direct.php:149-176 | a filed payment is answered with the text of what it threw, or sent on to its redirect target |
| DirectController.SendLedger | catalog/controller/payment/emerchantpay_direct.php:150-152 | after a payment with an id, the ledger is the write of that payment's data |
| DirectController.FailedPaymentIsFiled | catalog/controller/payment/emerchantpay_direct.php:150-155 | a declined payment is still stored, under its id and with its failed status, before the exception is thrown |
| DirectController.Stored | catalog/model/payment/emerchantpay_direct.php:99-112 | the lookup finds a row exactly when one is stored under that id, and then it is that row |
| DirectController.NotificationData | catalog/controller/payment/emerchantpay_direct.php:211-222 | the notification's data has ten distinct columns, starting with the stored order and the reconciled id, and never a parent id or terminal token |
| DirectController.NotificationHistory | catalog/controller/payment/emerchantpay_direct.php:226-242 | approved adds the success status, declined or error the failure status, anything else nothing; the customer is never notified |
| DirectController.Notified | catalog/controller/payment/emerchantpay_direct.php:198-256 | a notification is acknowledged exactly when its reconciled id is stored for an order; otherwise nothing changes |
| DirectController.NotificationKeepsParent | catalog/controller/payment/emerchantpay_direct.php:211-224 | a notification never changes the row's parent id or terminal token |
| DirectController.NotificationFilesStatus | catalog/controller/payment/emerchantpay_direct.php:211-224 | a notification the database takes leaves the row holding the reconciled status for the same order |
| DirectController.ReplayKeepsLedger | catalog/controller/payment/emerchantpay_direct.php:185-260 | a second delivery of the same notification computes the same outcome as the first: the ledger stays as the first left it, and the same history entry and recurring calls are made again |
| DirectController.Direct.constructor | catalog/controller/payment/emerchantpay_direct.php:47-54 | the controller holds the given database, shop and response, with no recurring calls yet |
| DirectController.Direct.ProcessTransactionStatus | catalog/controller/payment/emerchantpay_direct.php:420-462 | appends exactly the status's history entry, applies its order status, and returns what is thrown and the redirect target |
| DirectController.Direct.FilePayment | catalog/controller/payment/emerchantpay_direct.php:149-155 | the ledger becomes the write of the payment's data, then the status is acted on |
| DirectController.Direct.AddSendCalls | catalog/controller/payment/emerchantpay_direct.php:157-161 | the order's recurring calls are appended in the source's order |
| DirectController.Direct.SendFiled | catalog/controller/payment/emerchantpay_direct.php:149-177 | the payment is filed; a thrown exception is answered and logged and skips the recurring calls; otherwise the browser is sent on |
| DirectController.Direct.Conclude | catalog/controller/payment/emerchantpay_direct.php:155-177 | a thrown exception is answered and logged; otherwise the recurring calls are made and the redirect is answered |
| DirectController.Direct.Proceed | catalog/controller/payment/emerchantpay_direct.php:157-173 | the recurring calls are made and the redirect is answered as JSON |
| DirectController.Direct.Refuse | catalog/controller/payment/emerchantpay_direct.php:174-177 | the thrown exception's text is answered as JSON and the exception logged |
| DirectController.Direct.Send | catalog/controller/payment/emerchantpay_direct.php:113-178 | the JSON answer is SendAnswer; nothing is filed unless the payment was sent with an id; a build or send exception, rethrown or caught by the model, is logged only; a filed payment leaves the ledger, history, order status and recurring calls as SendLedger, StatusHistory (applied to the order) and the calls say |
| DirectController.Direct.Callback | catalog/controller/payment/emerchantpay_direct.php:185-260 | an unauthentic notification changes nothing; one that throws is only logged; an authentic one is Notified and answered in XML exactly when acknowledged |
| DirectController.Direct.Reconcile | catalog/controller/payment/emerchantpay_direct.php:198-256 | the ledger, history, recurring calls and answer are those Notified gives |
| DirectController.Direct.FileNotification | catalog/controller/payment/emerchantpay_direct.php:224-247 | the ledger becomes the write of the notification's data, its history entry is added and the recurring calls made |
| DirectController.Direct.AddHistory | catalog/controller/payment/emerchantpay_direct.php:226-242 | appends the entry when there is one and applies its status |
| DirectModel.GetMethod | catalog/model/payment/emerchantpay_direct.php:53-90 | the method is offered exactly when the connection is HTTPS, the order is not below a configured minimum total, and no geo zone is set or the address lies in it; then it is offered under its code with the configured sort order |
| DirectModel.MinimumTotalWins | catalog/model/payment/emerchantpay_direct.php:64-65 | an order below a configured minimum total is never offered the method |
| DirectModel.InsecureConnectionWins | catalog/model/payment/emerchantpay_direct.php:74-76 | over plain HTTP the method is never offered |
| DirectModel.GeoZoneDecides | catalog/model/payment/emerchantpay_direct.php:66-72 | otherwise it is offered exactly when no zone is configured or the zone query matched |
| DirectModel.Is3dTransaction | catalog/model/payment/emerchantpay_direct.php:254-267 | true exactly when the configured type (the recurring one for a recurring order) is authorize3d, sale3d or init_recurring_sale3d |
| DirectModel.PlainTypesAreNot3d | catalog/model/payment/emerchantpay_direct.php:256-266 | authorize and sale are not 3-D Secure, and for a recurring order only the recurring type counts |
| DirectModel.RequestUrls | catalog/model/payment/emerchantpay_direct.php:166-172 | the notification and return URLs are set on the request exactly for a 3-D Secure type, and as given |
| DirectModel.GetTransactionById | catalog/model/payment/emerchantpay_direct.php:99-108 | a row is found exactly when one is stored under that unique id, and it is the row stored under that id |
| DirectModel.LookupsAgree | catalog/model/payment/emerchantpay_direct.php:99-108 | the direct and checkout lookups agree on every non-empty id; only the direct one finds a row stored under '0' (catalog/model/payment/emerchantpay_checkout.php:137-150) |
| EmerchantpayHelper.SumOfCode | system/emerchantpay_helper.php:181-212 | the loop's sum is the sum of the values of the lines with that code |
| EmerchantpayHelper.GetShippingFromOrderTotals | system/emerchantpay_helper.php:181-192 | the shipping cost is the sum of the order's shipping lines |
| EmerchantpayHelper.GetTaxFromOrderTotals | system/emerchantpay_helper.php:201-212 | the tax is the sum of the order's tax lines |
| EmerchantpayHelper.CodeSumAbsent | system/emerchantpay_helper.php:183-191 | with no line of that code the sum is 0 |
| EmerchantpayHelper.CodeSumAppend | system/emerchantpay_helper.php:185-189 | the sum over two lists of lines is the sum of their sums |
| EmerchantpayHelper.CodeSumIgnoresOthers | system/emerchantpay_helper.php:186 | a line of another code changes no sum, wherever it is |
| EmerchantpayHelper.TruncateToUnit | system/emerchantpay_helper.php:181-191 | the declared int return type keeps a whole number of units, rounding toward zero and losing less than one unit |
| EmerchantpayHelper.ShippingAsWritten | system/emerchantpay_helper.php:181-192 | as written, the shipping sum comes back truncated to whole units |
| EmerchantpayHelper.TaxAsWritten | system/emerchantpay_helper.php:201-212 | as written, the tax sum comes back truncated to whole units |
| EmerchantpayHelper.ShippingLosesFraction | system/emerchantpay_helper.php:181-192 | a shipping cost of 5.99 comes back as 5, and one of 0.50 as 0 so no shipping item is sent |
| EmerchantpayHelper.TaxLosesFraction | system/emerchantpay_helper.php:201-212 | a tax of 1.25 comes back as 1 |
| EmerchantpayHelper.TruncationExactIff | system/emerchantpay_helper.php:181-212 | the truncation changes nothing exactly when the sum is a whole number of units |
| EmerchantpayHelper.GetTaxClassIdFromProductInfo | system/emerchantpay_helper.php:163-172 | the map has a key exactly for each product id that occurs, and holds the tax class of the last entry for it |
| EmerchantpayHelper.LastTaxClassFound | system/emerchantpay_helper.php:167-169 | a tax class is found exactly for the ids that occur |
| EmerchantpayHelper.LastTaxClassIsLast | system/emerchantpay_helper.php:168 | a later entry for the same product overwrites an earlier one |
| EmerchantpayHelper.GetKlarnaCustomParamItems | system/emerchantpay_helper.php:107-153 | corrected — see Findings row 2: one item per ordered product in order, with its name, quantity and price, digital exactly for the virtual tax class; then a "Taxes" surcharge and a "Shipping Costs" fee, each exactly when its exact sum is non-zero, where the source tests the truncated whole-unit sum |
| EmerchantpayHelper.IsSecureConnection | system/emerchantpay_helper.php:234-249 | HTTPS exactly when HTTPS is set to anything but "off" in any case, or the forwarded scheme is https, or the forwarded port equals 443 |
| EmerchantpayHelper.OffInAnyCase | system/emerchantpay_helper.php:236-241 | "OFF" and "Off" mean plain HTTP, as "off" does |
| EmerchantpayHelper.OnIsSecure | system/emerchantpay_helper.php:236-241 | "on" means HTTPS |
| EmerchantpayHelper.ForwardedHttpIsPlain | system/emerchantpay_helper.php:236-248 | forwarded http on port 80 is not secure |
| EmerchantpayHelper.ForwardedPortIsNumeric | system/emerchantpay_helper.php:244 | a forwarded port of "0443" counts as 443 under PHP's loose comparison |
| OpenCart.Response.constructor | catalog/controller/payment/emerchantpay_direct.php:172-173 | a response starts with no headers and no body |
| OpenCart.Response.Send | catalog/controller/payment/emerchantpay_direct.php:172-173 | the header is appended and the body replaces any earlier one |
| OpenCart.Applied | catalog/controller/payment/emerchantpay_direct.php:423-428 | an entry moves only its own order to its status, and only when the order exists; every other order keeps its status |
| OpenCart.Shop.constructor | system/admin/base_controller.php:728-736 | a shop starts with the given statuses and no history or recurring transactions |
| OpenCart.Shop.Record | system/admin/base_controller.php:728-736 | a status change appends exactly one history entry and updates the order's status when the order exists |
| Php.LeadingTrim | catalog/controller/payment/emerchantpay_direct.php:302-315 | the count of leading trim characters: every character before it is one and the character at it is not |
| Php.TrailingTrim | catalog/controller/payment/emerchantpay_direct.php:302-315 | the count of trailing trim characters: every character after the kept part is one and the last kept one is not |
| Php.TrimLeft | catalog/controller/payment/emerchantpay_direct.php:302-315 | what is kept is a suffix of the input that does not start with a trim character, and everything dropped is one |
| Php.TrimRight | catalog/controller/payment/emerchantpay_direct.php:302-315 | what is kept is a prefix of the input that does not end with a trim character, and everything dropped is one |
| Php.Trim | catalog/controller/payment/emerchantpay_direct.php:302-324 | the result neither starts nor ends with a trim character and is no longer than the input |
| Php.TrimMiddle | catalog/controller/payment/emerchantpay_direct.php:302-324 | the trimmed text is the infix of the input starting after its leading trim characters; everything dropped before and after it is a trim character, so it is the maximal infix without trim characters at its ends |
| Php.TrimIsInfix | catalog/controller/payment/emerchantpay_direct.php:324 | what trim keeps occurs in the input |
| Php.TrimIdempotent | system/admin/base_controller.php:371 | trimming twice is trimming once |
| Php.TrimKeeps | catalog/controller/payment/emerchantpay_direct.php:302 | a string with no trim character at either end is its own trim |
| Php.Prefix | catalog/controller/payment/emerchantpay_direct.php:308-318 | substr from 0 gives the first n characters, or the whole string when shorter |
| Php.SubstrFrom | catalog/model/payment/emerchantpay_checkout.php:281 | a non-negative start gives the tail from there ("" past the end); a negative one counts from the end and gives the whole string when it reaches past the start |
| Php.Explode | catalog/controller/payment/emerchantpay_direct.php:299-312 | the pieces are at least one, none holds the separator, and joined with it they give the input back |
| Php.IndexOf | catalog/controller/payment/emerchantpay_direct.php:299 | the first position of the character |
| Php.RemoveAll | catalog/model/payment/emerchantpay_checkout.php:342-345 | the result is no longer than the input, and an input without the pattern is kept |
| Php.ContainsOfTail | catalog/controller/payment/emerchantpay_direct.php:295 | a pattern in the tail is in the string |
| Php.RemoveEach | catalog/model/payment/emerchantpay_checkout.php:342-345 | removing several patterns shortens or keeps the input, and keeps it when none occurs |
| Php.RemoveSpaces | catalog/controller/payment/emerchantpay_direct.php:295 | no space is left and every other character is kept as often as it occurred |
| Php.RemoveSpacesAppend | catalog/controller/payment/emerchantpay_direct.php:295 | removing spaces from a concatenation concatenates the parts without spaces, so the other characters keep their order |
| Php.RemoveSpacesChar | catalog/controller/payment/emerchantpay_direct.php:295 | a space is removed, any other character is kept |
| Php.Upper | admin/model/payment/emerchantpay_checkout.php:417 | every character is upper-cased and no lower-case ASCII letter is left |
| Php.Lower | system/emerchantpay_helper.php:236 | every character is lower-cased, position by position |
| Php.LowerEqualsIgnoringCase | system/emerchantpay_helper.php:236 | comparing the lower-cased text with a lower-case word is a comparison that ignores case |
| Php.DigitChar | system/admin/base_controller.php:462 | a digit value gives a digit character |
| Php.DigitValue | system/admin/base_controller.php:462 | a digit character's value is below ten and gives the character back |
| Php.NatToString | system/admin/base_controller.php:462 | at least one digit, all digits, no leading zero |
| Php.DigitsOfNat | system/admin/base_controller.php:462 | the digits of a number read back as that number |
| Php.IntToString | system/admin/base_controller.php:462 | a negative number is "-" before the digits of its magnitude |
| Php.LeadingDigits | system/admin/base_controller.php:462 | the longest prefix made of digits |
| Php.LeadingIntSpace | system/admin/base_controller.php:462 | the count of leading white space characters: every character before it is one and the character at it is not |
| Php.SkipIntSpace | system/admin/base_controller.php:462 | exactly the leading white space is dropped: the rest is kept in order and does not start with white space |
| Php.IntValOfIntToString | system/admin/base_controller.php:462 | intval reads back every integer PHP writes |
| Php.IntValOfDigits | system/admin/base_controller.php:462 | intval of a run of digits is its value |
| Php.LeadingDigitsOfDigits | system/admin/base_controller.php:462 | a run of digits is its own leading digits |
| Php.Intersect | catalog/model/payment/emerchantpay_checkout.php:605 | an entry is kept exactly when it occurs in both lists |
| Php.Without | catalog/model/payment/emerchantpay_checkout.php:607 | an entry is kept exactly when it is not excluded |
| Php.StrLeTotal | system/admin/base_controller.php:211-216 | any two strings compare one way or the other |
| Php.StrLeRefl | system/admin/base_controller.php:211-216 | every string compares equal to itself |
| Php.StrLeTrans | system/admin/base_controller.php:211-216 | the string order is transitive |
| Php.StrLeAntisym | system/admin/base_controller.php:211-216 | two strings each at most the other are equal |
| Php.TakeNext | system/admin/base_controller.php:211-216 | a prefix one element longer ends with that element |
| Php.InsertBy | system/admin/base_controller.php:211-216 | inserting into a sorted list keeps it sorted and adds exactly that element |
| Php.InsertFrontSorted | system/admin/base_controller.php:211-216 | an element not greater than the first keeps the list sorted in front |
| Php.ConsSorted | system/admin/base_controller.php:211-216 | an element not greater than any other keeps the list sorted in front |
| Php.WithKeyCons | system/admin/base_controller.php:211-216 | the elements of a key in a list with one more in front |
| Php.InsertByWithKey | system/admin/base_controller.php:211-216 | an insertion goes in front of its own key's group and leaves the other groups alone |
| Php.StableSortBy | system/admin/base_controller.php:211-216 | the sort is ascending by key and a permutation of its input |
| Php.StableSortByIsStable | system/admin/base_controller.php:211-216 | elements sharing a key keep their order (PHP 8's sort is stable) |
| RecurringLog.LogEntryStatus | system/admin/base_controller.php:1449-1464 | completed exactly when a run time is stored; otherwise running exactly when the process is alive, and terminated when it is not |
| RecurringLog.DeclaredArray | system/admin/base_controller.php:1473 | a return type of array turns every non-array into a TypeError |
| RecurringLog.RecurringTransactionTypeAsWritten | system/admin/base_controller.php:1473-1497 | as written, every call ends in a TypeError |
| RecurringLog.RecurringTransactionType | system/admin/base_controller.php:1479-1494 | a phrase exactly for the type ids 0 to 9, each its own key |
| RecurringLog.RecurringTypeFailsAsWritten | system/admin/base_controller.php:1473-1497 | a payment of type 1 aborts the report as written, but shows as a payment once corrected |
| RecurringLog.Groups | system/admin/base_controller.php:847-878 | every run of the report holds at least one row |
| RecurringLog.Entries | system/admin/base_controller.php:864-873 | one transaction line per row |
| RecurringLog.GroupsPartition | system/admin/base_controller.php:847-878 | the runs hold exactly the recurring rows, in order, none skipped or repeated |
| RecurringLog.GroupsUniform | system/admin/base_controller.php:848-849 | every row of a run is recurring and has the run's log entry |
| RecurringLog.GroupsBreak | system/admin/base_controller.php:849-850 | a new summary starts exactly where the log entry changes |
| RecurringLog.SummaryCounts | system/admin/base_controller.php:852-876 | a summary's amount is the total of its run, its counter the run's length, and its reference empty |
| RecurringLog.SummarySnoc | system/admin/base_controller.php:875-876 | one more row adds its amount to the summary and one to its counter |
| RecurringLog.EntriesSnoc | system/admin/base_controller.php:864-873 | one more row appends its line |
| RecurringLog.RenderSnoc | system/admin/base_controller.php:847-878 | one more run appends its summary and its lines |
| RecurringLog.SummaryOne | system/admin/base_controller.php:852-876 | a one-row run's summary is the opened summary with that row counted |
| RecurringLog.RenderExtend | system/admin/base_controller.php:864-876 | a row of the open entry counts into its summary and appends its line |
| RecurringLog.Regroup | system/admin/base_controller.php:875-876 | updating the summary position of the lines updates only that line |
| RecurringLog.RenderOpen | system/admin/base_controller.php:849-876 | a new entry opens a summary, appends the row's line and counts the row |
| RecurringLog.GroupsStep | system/admin/base_controller.php:847-878 | a non-recurring row changes no run; a recurring one opens a run on a new entry and extends the last one otherwise |
| RecurringLog.Accumulate | system/admin/base_controller.php:843-878 | the lines the first loop builds are the summaries and transactions of the runs, in order |
| RecurringLog.AccumulateRow | system/admin/base_controller.php:848-877 | one more row keeps the lines the rendering of the runs, with the open summary's position |
| RecurringLog.OpenRun | system/admin/base_controller.php:849-862 | a new entry opens a summary after everything rendered so far |
| RecurringLog.ExtendRun | system/admin/base_controller.php:864-876 | a row of the open entry is counted into its summary and appended |
| RecurringLog.Show | system/admin/base_controller.php:895-921 | a line is shown as a summary exactly when its reference is empty |
| RecurringLog.GetRecurringLog | system/admin/base_controller.php:833-927 | one result line per rendered line, in order, each shown as a summary or a transaction |
| Rows.KeysOf | system/db_helper.php:117-131 | a column is a key exactly when some entry of the data names it |
| Rows.DataRow | system/db_helper.php:117-131 | the row has exactly the data's columns, and with distinct keys each holds its entry's value |
| Rows.DataRowStep | system/db_helper.php:117-131 | adding the last entry to the row of the others gives the row of the whole data |
| Rows.KeysOfLast | system/db_helper.php:117-131 | the keys are those of the entries before the last, plus the last one's |
| Rows.DistinctInit | system/db_helper.php:117-131 | dropping the last entry keeps the keys distinct, and none of them is the last one's |
| Rows.Overlay | system/db_helper.php:153-168 | an UPDATE sets the named columns to the new values and keeps every other column |
| Rows.OverlayTwice | system/db_helper.php:153-168 | setting the same columns twice is setting them once |
| Rows.Lookup | system/db_helper.php:70-71 | with distinct keys, the data's value for a column is the row's |
| Rows.LookupAt | system/db_helper.php:70-71 | looking up an entry's own key finds its value |
| Rows.NotAKey | system/db_helper.php:117-131 | a column no entry names is not a key |
| Rows.Pow10 | system/admin/base_controller.php:198 | a power of ten is at least 1 |
| Rows.Pad | system/admin/base_controller.php:198 | a zero-padded field has exactly its width, all digits |
| Rows.PadValue | system/admin/base_controller.php:198 | a padded field reads back as its number |
| Rows.DigitsInjective | system/admin/base_controller.php:198 | two digit strings of equal width and value are equal |
| Rows.StrLeDigits | system/admin/base_controller.php:211-216 | equal-width digit strings compare as their values |
| Rows.StrLeSnoc | system/admin/base_controller.php:211-216 | strings one character longer compare by their common part first |
| Rows.StrLeConcat | system/admin/base_controller.php:211-216 | concatenations compare by their equal-length first parts unless those tie |
| Rows.PadOrder | system/admin/base_controller.php:198-216 | two padded fields compare, and are equal, as their numbers do |
| Rows.FieldThen | system/admin/base_controller.php:198-216 | a field before a separator decides the comparison unless it ties |
| Rows.Field2 | system/admin/base_controller.php:198 | a two-digit field has two characters |
| Rows.Field4 | system/admin/base_controller.php:198 | a four-digit field has four characters |
| Rows.FieldOrder2 | system/admin/base_controller.php:198-216 | two-digit fields compare as their numbers |
| Rows.FieldOrder4 | system/admin/base_controller.php:198-216 | four-digit fields compare as their numbers |
| Rows.ClockTextOrder | system/admin/base_controller.php:198-216 | "H:i:s" texts compare by hour, then minute, then second |
| Rows.DayClockTextOrder | system/admin/base_controller.php:198-216 | the day field, then the clock, decides |
| Rows.MonthDayClockTextOrder | system/admin/base_controller.php:198-216 | the month, then the day, then the clock decides |
| Rows.IsoTextChronological | system/admin/base_controller.php:211-216 | the table's "Y-m-d H:i:s" text of valid date-times orders exactly as time does |
| SettingsHelper.GetFieldValue | system/catalog/settings_helper.php:146-152 | the posted value when it is set and not null, else the configured one; null exactly when both are |
| SettingsHelper.FieldValues | system/catalog/settings_helper.php:54-95 | one entry per name, its module key with its form value |
| SettingsHelper.GetBaseSettings | system/catalog/settings_helper.php:54-62 | exactly the username, password, token and sandbox keys of the module, in that order, each with its form value |
| SettingsHelper.GetModuleSettings | system/catalog/settings_helper.php:69-95 | the module's 23 further keys in their order, each with its form value |
| SettingsHelper.SettingKeysApart | system/catalog/settings_helper.php:56-93 | different setting names give different keys of one module |
| SettingsHelper.DefaultTable | system/catalog/settings_helper.php:104-118 | thirteen default entries |
| SettingsHelper.Defaults | system/catalog/settings_helper.php:104-118 | the default table with each name turned into the module's key |
| SettingsHelper.DefaultForSnoc | system/catalog/settings_helper.php:120-121 | one more table entry sets the default of its key only when no earlier entry did |
| SettingsHelper.DefaultListed | system/catalog/settings_helper.php:120-121 | only a key the table names has a default |
| SettingsHelper.FilledAt | system/catalog/settings_helper.php:120-121 | a key the table does not name, or one holding a value, is kept; a named key that is missing or null takes the table's default |
| SettingsHelper.SetDefaultOptions | system/catalog/settings_helper.php:103-124 | the settings after the loop are the given ones with every missing or null default key filled |
| SettingsHelper.FillDefaults | system/catalog/settings_helper.php:120-121 | the settings after the loop are the given ones filled entry by entry from the table, a set value kept and a missing or null one taking the default |
| SettingsHelper.FilledKeepsSet | system/catalog/settings_helper.php:120-121 | filling keeps every key and every set value and only adds keys of the table |
| SettingsHelper.FilledIdempotent | system/catalog/settings_helper.php:103-124 | with every default set, a second fill changes nothing |
| SettingsHelper.DefaultSet | system/catalog/settings_helper.php:104-118 | with every default set, every named key has a set default |
| SettingsHelper.DefaultOptions | system/catalog/settings_helper.php:103-124 | on a module's settings, the stored values stay and a second run changes nothing |
| SettingsHelper.FreshDefaults | system/catalog/settings_helper.php:105-117 | an unset module gets sandbox 1, status 0, debug 1, a cron limit of 25 and an SCA exemption amount of 100 |
| SettingsHelper.DefaultAt | system/catalog/settings_helper.php:104-121 | each default entry gives its value to a setting that had none |
| SettingsHelper.FirstDefault | system/catalog/settings_helper.php:120-121 | the first entry for a key with a set value is that key's default |
| TransactionTree.Touch | system/admin/base_controller.php:225-234 | writing to a key keeps every key already there and adds that one |
| TransactionTree.PassContents | system/admin/base_controller.php:219-236 | after the pass the keys are the ids written to, in first-written order; under each is the row with that id, if any, and the ids of the rows naming it as parent, in sorted order |
| TransactionTree.Group | system/admin/base_controller.php:219-236 | the loop leaves the grouping the pass describes |
| TransactionTree.PassWellFormed | system/admin/base_controller.php:219-236 | built from rows with unique ids, the grouping is well formed: each row under its own id, each child listed under its parent |
| TransactionTree.PassHoldsRows | system/admin/base_controller.php:225-231 | every sorted row is held under its own id |
| TransactionTree.SortTransactionByRelation | system/admin/base_controller.php:1303-1321 | the output grows by the node's row and then the subtrees of its children, in the order listed |
| TransactionTree.Emit | system/admin/base_controller.php:239-247 | the listing is the subtrees of the keys without a parent, in key order |
| TransactionTree.ListingDistinct | system/admin/base_controller.php:1303-1321 | no row is listed twice |
| TransactionTree.ListingParents | system/admin/base_controller.php:1303-1321 | every listed row with a parent comes after it |
| TransactionTree.ListingContains | system/admin/base_controller.php:241-247 | everything below a walked root is listed |
| TransactionTree.ListingRoots | system/admin/base_controller.php:241-247 | the listed rows without a parent are the walked keys' rows, in key order |
| TransactionTree.TopRoots | system/admin/base_controller.php:239-247 | the only row without a parent in a root's subtree is the root's own |
| TransactionTree.Indexed | system/admin/base_controller.php:211-216 | one entry per stored row, keyed by its position |
| TransactionTree.SortedEntries | system/admin/base_controller.php:211-216 | the sorted list holds exactly the store's rows, once each |
| TransactionTree.Filter | system/admin/base_controller.php:241-244 | the picked rows are rows of the input that pass the test |
| TransactionTree.FilterSorted | system/admin/base_controller.php:211-216 | picking rows from a sorted list keeps it sorted |
| TransactionTree.TreeOfWellFormed | system/admin/base_controller.php:211-236 | the grouping of the sorted rows is well formed |
| TransactionTree.TreeHoldsRow | system/admin/base_controller.php:225-231 | each stored row sits under its own id |
| TransactionTree.OrderedRows | system/admin/base_controller.php:167-247 | every listed row is a stored row under its own position |
| TransactionTree.OrderedOnce | system/admin/base_controller.php:1310 | no row is listed twice, and no two listed rows share a position, so the output only ever grows |
| TransactionTree.OrderedParentsFirst | system/admin/base_controller.php:167-247 | every listed row with a parent comes after its parent |
| TransactionTree.OrphansLeftOut | system/admin/base_controller.php:241-244 | a listed row with a parent names a stored row: a row whose parent is missing is never listed |
| TransactionTree.OrderedRoots | system/admin/base_controller.php:241-247 | every row without a parent is listed |
| TransactionTree.OrderedChildren | system/admin/base_controller.php:1314-1319 | every row naming a listed row is listed too |
| TransactionTree.ChildListed | system/admin/base_controller.php:1314-1319 | a child of a listed row is listed |
| TransactionTree.Order | system/admin/base_controller.php:198-247 | the listing holds stored rows once each, parents before children, every row without a parent and every child of a listed row |
| TransactionTree.OrderedSiblings | system/admin/base_controller.php:211-234 | the children of a listed row are all its stored children, in sorted order, ties in stored order |
| TransactionTree.OrderedRootsSorted | system/admin/base_controller.php:205-216 | when no child sorts before its parent, the rows without a parent are listed in key order |
| TransactionTree.SortedKeyOrdered | system/admin/base_controller.php:211-236 | under that condition the sorted list puts every key in key order |
| TransactionTree.ChronologicalKeyOrders | system/admin/base_controller.php:211-216 | on valid timestamps the stored text orders exactly as time does |
| TransactionTree.TwoRoots | system/admin/base_controller.php:211-247 | two rows without a parent are both listed, in key order |
| TransactionTree.AllRoots | system/admin/base_controller.php:211-247 | when no row has a parent the listing is sorted by key |
| TransactionTree.ListingKeyMisorders | system/admin/base_controller.php:198-216 | as written, a transaction at 23:00 on one day is listed after one at 08:00 the next day |
| TransactionTree.SortedPlaces | system/admin/base_controller.php:211-216 | in a sorted list an element whose key sorts after another's stands after it |
| TransactionTree.ExampleRows | system/admin/base_controller.php:198 | the example holds two transactions without a parent, late one evening and early the next morning |
| TransactionTree.ListingKeyOf | system/admin/base_controller.php:198 | the sort key as written is the "H:i:s m/d/Y" text of the timestamp |
| TransactionTree.ClockComesFirst | system/admin/base_controller.php:198-216 | "23:00:00 01/01/2024" sorts after "08:00:00 01/02/2024" |
| TransactionTree.ChronologicalKeyOrdersThem | system/admin/base_controller.php:205-216 | with the stored text as the key, the same two transactions are listed in the order they were made |
| TransactionTree.ChronologicalParentsFirst | system/admin/base_controller.php:222-223 | when no follow-up is stamped before the transaction it references, no child's stored text sorts before its parent's |
| TransactionTree.OrderedRootsChronological | system/admin/base_controller.php:205-216 | with the stored text as the key, the rows without a parent are listed in the order they were made |
| TransactionTree.SortedChronological | system/admin/base_controller.php:207-216 | a list sorted by the stored text of valid timestamps is in chronological order |

## Left out

- The gateway SDK is not modelled. That covers building and executing requests in `capture`, `refund`, `void`, `create`, `reconcile` and `sendTransaction`, `Notification::isAuthentic`, and the consumer lookup. Each answer is a parameter: a transaction that may lack a `unique_id`, an exception, or a notification marked authentic or not. The SDK's type lists and constants are values of `Genesis`.
- SQL is modelled only by what it does to the table: the literal statement text, the DDL in `install` and `uninstall`, and the order of rows a `SELECT` without `ORDER BY` returns (taken as insertion order) are not.
- Concurrency is not modelled: the check-then-insert race of the upsert and two requests for the same order at once are cross-request behaviour.
- Money is an integer in the column's minor unit (1/10000 for the checkout table's DECIMAL(15,4), 1/100 for the direct table's DECIMAL(10,2)), not a PHP float; the full-refund test at system/admin/base_controller.php:501 is exact here.
- Presentation is not modelled: views, breadcrumbs, language phrases (a phrase is its key), currency and date formatting, and `addExternalResources`.
- RecurringLog.LogEntryStatus: whether the logged process is alive (`posix_getpgid`) is a parameter; `getCronExecStatus`, which depends on the clock, is not modelled.
- `populateTreedsParams`, `populateBrowserParams`, `populateCommonData` and `populateCreditCardData` of the direct controller build request data for the gateway from code that is not part of this model; `send` takes their outcome as a parameter.
- The vendored SDK files and admin/controller/payment/emerchantpay_direct.php are not part of this model.
- AdminModel.GenTransactionId: the random md5 hash is a parameter; the same function stands for the identical `genTransactionId` of the two storefront models and the direct admin model.
- Php.Trim: the function's own contract states only its ends and its length; that it keeps exactly the middle infix, dropping only trim characters, is the lemma Php.TrimMiddle, kept out of the contract because that index relation re-fires without end wherever a trimmed text equals its input.
- Php.RemoveAll: states only that the result is no longer than the input and that an input without the pattern is kept; which occurrences the left-to-right scan deletes is not stated. The single-space case used by `inputFilter` is stated in full by Php.RemoveSpaces with Php.RemoveSpacesAppend and Php.RemoveSpacesChar.
- Php.RemoveEach: as Php.RemoveAll, states only that removing several patterns in turn shortens or keeps the input and keeps an input in which none occurs; the text left after the PPRO suffix and wallet prefixes are removed is not stated.
- Strings are sequences of characters, while PHP's `strlen`, `substr` and `trim` count bytes: for text with multi-byte UTF-8 characters, the month and year cuts of DirectController.MonthField and DirectController.YearField and the 32-character cut of AdminModel.GenTransactionId count characters here, bytes in the source.
- The ledger table is created `COLLATE=utf8_general_ci` (admin/model/payment/emerchantpay_checkout.php:65), so MySQL compares its text columns ignoring letter case and trailing spaces. The model compares them by exact text: the `unique_id` lookups (DbHelper, AdminModel.AdminModel.GetTransactionById, CheckoutModel.GetTransactionById, DirectModel.GetTransactionById), where ids differing only in letter case find the same row in the source, and AdminModel.Matches, the WHERE clause of `getTransactionsByTypeAndStatus`, on its `reference_id`, `type` and `status` columns. Everything built on Matches inherits the exact comparison: AdminController.IsVoidTransactionExist, AdminController.LedgerSumOver, AdminController.AdminController.CaptureOffer, AdminController.AdminController.RefundOffer and AdminController.AdminController.RecurringRefund.
- Php.IntVal: reads optional white space, a sign and the leading digits only. PHP 7.1 and later read a numeric string in exponent form whole (`intval("1e3")` is 1000, here 1) and clamp a value past PHP_INT_MAX; neither is modelled. So an `order_id` posted as "1e1" names order 10 in the source's order queries (admin/model/payment/emerchantpay_checkout.php:193) and order 1 in Rows.IntOf, AdminModel.AdminModel.GetTransactionsByOrder and AdminModel.AdminModel.GetTransactionsByTypeAndStatus.
- Php.LooseEqualsNumber: PHP 8's comparison of numeric strings is modelled for integer texts; decimal-point and exponent forms are not.
- Php.Upper and Php.Lower: only ASCII letters change case, as PHP 8's `strtoupper` and `strtolower` do; no locale is modelled.
- DirectController.ReplayKeepsLedger: a notification delivered twice leaves the ledger as one delivery did, but adds its history entry and recurring calls again; the model keeps that duplication, as the source does.
- A `DateTime` that `strtotime` cannot read is taken as the epoch (TransactionTree.StampOf); PHP's other parsing results are not modelled.

## Findings

| source | as written | input that shows it | evidently intended | confidence | as-written member | corrected member |
|---|---|---|---|---|---|---|
| system/admin/base_controller.php:198-216 | the transaction list is sorted on the timestamp after it was reformatted to "H:i:s m/d/Y", so the time of day is compared before the date | two initial transactions at 23:00:00 on 1 Jan 2024 and 08:00:00 on 2 Jan 2024: "23:00:00 01/01/2024" sorts after "08:00:00 01/02/2024" and the later one is listed first | ascending order of time (the comment above the sort says "Ascending Date/Timestamp sorting"), as the stored "Y-m-d H:i:s" text gives | not executed | TransactionTree.ListingKeyMisorders | TransactionTree.OrderedRootsChronological |
| system/emerchantpay_helper.php:181-212 | `getShippingFromOrderTotals` and `getTaxFromOrderTotals` are declared `: int`, so the float sum is truncated to whole currency units | a shipping line of 5.99 returns 5; a shipping line of 0.50 returns 0 and no Klarna shipping item is sent | the exact sum of the lines | not executed | EmerchantpayHelper.ShippingLosesFraction | EmerchantpayHelper.GetShippingFromOrderTotals |
| system/admin/base_controller.php:374-379 | `array_key_exists('terminal_token', $transaction)` runs before the `order_id` test, on the `false` that `getTransactionById` returns for an unknown reference, which PHP 8 rejects with a TypeError | a capture, refund or void request whose non-blank `reference_id` names no stored transaction | the answer `text_invalid_reference_id` that the `order_id` test right after it gives | not executed | AdminController.UnknownReferenceFailsAsWritten | AdminController.Validation |
| system/admin/base_controller.php:1473-1497 | `getRecurringTransactionType` is declared to return `array` but returns a string on both paths, which PHP 8 rejects with a TypeError | any recurring log row, for example a payment of type 1 | the type's phrase, or '' for an unknown type | not executed | RecurringLog.RecurringTypeFailsAsWritten | RecurringLog.RecurringTransactionType |
| system/admin/base_controller.php:674-679 | `getOrderRecurringId` is declared to return `string` but returns `$query->row['order_recurring_id']`, which is null when the order has no `order_recurring` row; PHP rejects that with a TypeError, and nothing catches it | the full refund of an `init_recurring_sale` whose order has no `order_recurring` row: the refund is filed, then `cancelOrderRecurring` dies and no JSON answer is sent | no recurring order to cancel: `cancelOrderRecurring` updates no row, `addRecurringTransaction` adds nothing (its `empty` test is there for that), and the order is still set to Refunded and answered | not executed | AdminController.AdminController.FullRefundWithoutRecurringOrderDies | AdminController.AdminController.ClosedWithoutRecurringOrder |

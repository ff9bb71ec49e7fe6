/**
 * The parts of the Genesis gateway SDK the plugin consults. The constant
 * strings are the SDK's own values; the lists and classifications the SDK
 * computes (which types exist, which can be captured, their display names,
 * the supported languages, ...) are not part of this model and are carried
 * as an `Sdk` value.
 */
module Genesis {

  // Transaction types (`Types::...`)
  const Authorize := "authorize"
  const Authorize3d := "authorize3d"
  const Sale := "sale"
  const Sale3d := "sale3d"
  const InitRecurringSale := "init_recurring_sale"
  const InitRecurringSale3d := "init_recurring_sale3d"
  const SddInitRecurringSale := "sdd_init_recurring_sale"
  const Ppro := "ppro"
  const GooglePay := "google_pay"
  const PayPal := "pay_pal"
  const ApplePay := "apple_pay"
  const Capture := "capture"
  const Refund := "refund"
  const Void := "void"
  const Idebit := "idebit_payin"
  const Instadebit := "insta_debit_payin"
  const Klarna := "klarna_authorize"
  const TrustlySale := "trustly_sale"
  const OnlineBanking := "online_banking"
  const Paysafecard := "paysafecard"

  // Transaction states (`States::...`)
  const Approved := "approved"
  const Declined := "declined"
  const Error := "error"
  const PendingAsync := "pending_async"

  // Wallet payment subtypes (`GooglePayPaymentTypes`, `PayPalPaymentTypes`, `ApplePayPaymentTypes`)
  const SubtypeAuthorize := "authorize"
  const SubtypeSale := "sale"
  const SubtypeExpress := "express"

  /**
   * What the SDK tells the plugin about transaction types and languages:
   * `Types::getWPFTransactionTypes()`, `Types::getCardTransactionTypes()`,
   * `Types::isValidTransactionType`, `Types::canCapture/canRefund/canVoid`,
   * `Names::getName`, `Methods::getMethods()` (the PPRO payment methods) and
   * the language codes `I18n` has a constant for (upper case).
   */
  datatype Sdk = Sdk(
    wpfTypes: seq<string>,
    cardTypes: seq<string>,
    validTypes: set<string>,
    capturable: set<string>,
    refundable: set<string>,
    voidable: set<string>,
    names: string -> string,
    methods: seq<string>,
    languages: set<string>)
}

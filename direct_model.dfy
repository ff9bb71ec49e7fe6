/**
 * The storefront model of the direct (card on the store's page) payment
 * method: whether the method is offered, whether the configured type is a
 * 3-D Secure one (and so whether the request carries the notification and
 * return URLs), and the lookup of a stored transaction.
 */
module DirectModel {
  import opened Php
  import opened Rows
  import opened Genesis
  import opened DbHelper
  import EmerchantpayHelper
  import CheckoutModel

  /** The method entry offered at checkout. */
  datatype MethodData = MethodData(code: string, terms: string, sortOrder: Value)

  /** The minimum order total is configured (positive) and the order stays below it. */
  predicate BelowMinimum(minimumTotal: int, total: int)
  {
    minimumTotal > 0 && minimumTotal > total
  }

  /**
   * `getMethod`: the status starts from the minimum total (below it: not
   * offered), then the geo zone (none configured, or the address matches
   * it: offered); a connection that is not HTTPS switches it off whatever
   * was decided. `zoneMatches` is whether the zone query found a row.
   */
  function GetMethod(minimumTotal: int, total: int, geoZoneId: Value, zoneMatches: bool,
                     server: EmerchantpayHelper.Server, sortOrder: Value): (r: Option<MethodData>)
    ensures r.Some? <==>
      EmerchantpayHelper.IsSecureConnection(server) && !BelowMinimum(minimumTotal, total) && (!Truthy(geoZoneId) || zoneMatches)
    ensures r.Some? ==> r.value == MethodData("emerchantpay_direct", "", sortOrder)
  {
    var status :=
      if BelowMinimum(minimumTotal, total) then false
      else if !Truthy(geoZoneId) then true
      else zoneMatches;
    var status := if !EmerchantpayHelper.IsSecureConnection(server) then false else status;
    if status then Some(MethodData("emerchantpay_direct", "", sortOrder)) else None
  }

  /** An order below the configured minimum is never offered the method, whatever its zone. */
  lemma MinimumTotalWins(minimumTotal: int, total: int, geoZoneId: Value, zoneMatches: bool,
                         server: EmerchantpayHelper.Server, sortOrder: Value)
    requires BelowMinimum(minimumTotal, total)
    ensures GetMethod(minimumTotal, total, geoZoneId, zoneMatches, server, sortOrder).None?
  {
  }

  /** Over a connection that is not HTTPS the method is never offered. */
  lemma InsecureConnectionWins(minimumTotal: int, total: int, geoZoneId: Value, zoneMatches: bool,
                               server: EmerchantpayHelper.Server, sortOrder: Value)
    requires !EmerchantpayHelper.IsSecureConnection(server)
    ensures GetMethod(minimumTotal, total, geoZoneId, zoneMatches, server, sortOrder).None?
  {
  }

  /**
   * Otherwise the geo zone decides: the method is offered exactly when no
   * zone is configured or the address lies in it.
   */
  lemma GeoZoneDecides(minimumTotal: int, total: int, geoZoneId: Value, zoneMatches: bool,
                       server: EmerchantpayHelper.Server, sortOrder: Value)
    requires !BelowMinimum(minimumTotal, total) && EmerchantpayHelper.IsSecureConnection(server)
    ensures GetMethod(minimumTotal, total, geoZoneId, zoneMatches, server, sortOrder).Some? <==>
      !Truthy(geoZoneId) || zoneMatches
  {
  }

  /** The types that make a transaction a 3-D Secure one. */
  const ThreedsTypes := [Authorize3d, Sale3d, InitRecurringSale3d]

  /**
   * `is3dTransaction`: the configured type (the recurring one for a
   * recurring order) is one of the 3-D Secure types. `in_array` compares
   * loosely, but no integer, null or date equals these non-numeric strings.
   */
  function Is3dTransaction(recurring: bool, transactionType: Value, recurringType: Value): (r: bool)
    ensures var configured := if recurring then recurringType else transactionType;
      r <==> configured == Str(Authorize3d) || configured == Str(Sale3d) || configured == Str(InitRecurringSale3d)
  {
    var configured := if recurring then recurringType else transactionType;
    configured.Str? && configured.s in ThreedsTypes
  }

  /** The plain types are not 3-D Secure, and for a recurring order only the recurring setting counts. */
  lemma PlainTypesAreNot3d(transactionType: Value, recurringType: Value)
    ensures !Is3dTransaction(false, Str(Authorize), recurringType) && !Is3dTransaction(false, Str(Sale), recurringType)
    ensures !Is3dTransaction(true, transactionType, Str(InitRecurringSale))
    ensures Is3dTransaction(true, Str(Sale), Str(InitRecurringSale3d)) && !Is3dTransaction(true, Str(Sale3d), Null)
  {
  }

  /** The URLs a 3-D Secure request carries: the notification URL and the two return URLs. */
  datatype ThreedsUrls = ThreedsUrls(notificationUrl: string, returnSuccessUrl: string, returnFailureUrl: string)

  /**
   * The URL part of `sendTransaction`: the notification and return URLs
   * are set on the request only for a 3-D Secure type.
   */
  function RequestUrls(recurring: bool, transactionType: Value, recurringType: Value, urls: ThreedsUrls): (r: Option<ThreedsUrls>)
    ensures r.Some? <==> Is3dTransaction(recurring, transactionType, recurringType)
    ensures r.Some? ==> r.value == urls
  {
    if Is3dTransaction(recurring, transactionType, recurringType) then Some(urls) else None
  }

  /**
   * `getTransactionById` of the direct storefront model: the row stored
   * under that `unique_id`, or false; unlike the checkout model it queries
   * for an empty id too.
   */
  function GetTransactionById(db: DbHelper, referenceId: Value): (r: Option<Row>)
    reads db
    requires db.Valid()
    ensures r.Some? <==> Text(referenceId) in db.ids
    ensures r.Some? ==> Text(Get(r.value, UniqueId)) == Text(referenceId)
    ensures r.Some? ==> Text(referenceId) in db.rows && r.value == db.rows[Text(referenceId)]
  {
    if Text(referenceId) in db.rows then Some(db.rows[Text(referenceId)]) else None
  }

  /** The two storefront lookups agree on every non-empty id, and only the direct one finds a row stored as '0'. */
  lemma LookupsAgree(db: DbHelper, id: Value)
    requires db.Valid()
    ensures Truthy(id) ==> GetTransactionById(db, id) == CheckoutModel.GetTransactionById(db, id)
    ensures "0" in db.rows ==> GetTransactionById(db, Str("0")).Some? && CheckoutModel.GetTransactionById(db, Str("0")).None?
  {
  }
}

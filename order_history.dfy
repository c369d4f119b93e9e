/**
 * The customer's order-history page: which orders may be canceled, how a
 * cancel request is made, how an order's raw status is decoded and shown, and
 * how an order line finds its product.
 */
module OrderHistory {
  import opened Js
  import opened OrderStatus
  import opened Records

  /** `canCancelOrder`: PLACED, PROCESSED or SHIPPED, in any case. SHIPPED is
      accepted although the page's messages speak of PLACED and PROCESSED only. */
  function CanCancelOrder(status: Option<string>): (r: bool)
    ensures r <==> GetStatusId(status) == Some(1) || GetStatusId(status) == Some(2) || GetStatusId(status) == Some(3)
    ensures status.None? ==> !r
  {
    TablesAreInverse();
    var normalized := match status case Some(s) => ToUpper(s) case None => "";
    normalized == "PLACED" || normalized == "PROCESSED" || normalized == "SHIPPED"
  }

  /** Whatever the customer may cancel, the next-status table also offers
      CANCELED from. */
  lemma CancellableOffersCancel(s: string)
    requires CanCancelOrder(Some(s))
    ensures StatusEntry(Canceled, "CANCELED") in GetNextPossibleStatuses(Text(s))
  {
    var next := GetNextPossibleStatuses(Text(s));
    assert next[1] == StatusEntry(Canceled, "CANCELED");
  }

  /** The converse fails: from REACHED HUB and OUT FOR DELIVERY the next-status
      table offers CANCELED, but the customer may not cancel. */
  lemma CancelOfferedButNotAllowed()
    ensures StatusEntry(Canceled, "CANCELED") in GetNextPossibleStatuses(Text("REACHED HUB"))
    ensures !CanCancelOrder(Some("REACHED HUB"))
    ensures StatusEntry(Canceled, "CANCELED") in GetNextPossibleStatuses(Text("OUT FOR DELIVERY"))
    ensures !CanCancelOrder(Some("OUT FOR DELIVERY"))
  {
    NamesAreUpperCase();
    assert StatusNames[4] == "REACHED HUB" && StatusNames[5] == "OUT FOR DELIVERY";
    assert GetNextPossibleStatuses(Text("REACHED HUB"))[1] == StatusEntry(Canceled, "CANCELED");
    assert GetNextPossibleStatuses(Text("OUT FOR DELIVERY"))[1] == StatusEntry(Canceled, "CANCELED");
  }

  /** The body of the status update a cancellation sends. */
  datatype CancelRequest = CancelRequest(orderId: Value, status: int)

  /** How a click on "Cancel Order" ends: refused with an alert, declined at the
      confirmation dialog, or sent, with the server answering 200 or not. */
  datatype CancelOutcome = RefusedNotCancellable | DeclinedByUser | CancelSucceeded | CancelFailed

  /** `handleCancelOrder`. `confirmed` is the answer to the confirmation dialog
      and `responseStatus` the HTTP status of the update; a success refreshes
      the list. */
  method HandleCancelOrder(orderId: Value, currentStatus: Option<string>, confirmed: bool, responseStatus: int)
    returns (request: Option<CancelRequest>, outcome: CancelOutcome)
    ensures request.Some? <==> CanCancelOrder(currentStatus) && confirmed
    ensures request.Some? ==> request.value == CancelRequest(orderId, Canceled)
    ensures !CanCancelOrder(currentStatus) ==> outcome == RefusedNotCancellable
    ensures CanCancelOrder(currentStatus) && !confirmed ==> outcome == DeclinedByUser
    ensures request.Some? ==> (outcome == CancelSucceeded <==> responseStatus == 200)
    ensures request.Some? ==> outcome == CancelSucceeded || outcome == CancelFailed
  {
    if !CanCancelOrder(currentStatus) {
      return None, RefusedNotCancellable;
    }
    var update := CancelRequest(orderId, Canceled);
    if !confirmed {
      return None, DeclinedByUser;
    }
    request := Some(update);
    if responseStatus == 200 {
      outcome := CancelSucceeded;
    } else {
      outcome := CancelFailed;
    }
  }

  /** The name list the page indexes with a numeric status. */
  const DecodeNames: seq<string> :=
    ["", "PLACED", "PROCESSED", "SHIPPED", "REACHED HUB", "OUT FOR DELIVERY", "DELIVERED", "CANCELED"]

  /** The status text of an order card: the raw status, with a number replaced
      by its name and any number outside the table by PLACED. */
  function CardStatus(o: Order): (r: string)
    ensures var raw := RawStatus(o);
            raw.Num? ==> r == if raw.n in StatusNames then StatusNames[raw.n] else "PLACED"
    ensures RawStatus(o).Text? ==> r == RawStatus(o).s
    ensures !Truthy(o.statusId) && !Truthy(o.status) && !Truthy(o.orderStatus) ==> r == "PLACED"
  {
    match RawStatus(o)
    case Num(n) => if 0 <= n < |DecodeNames| && DecodeNames[n] != "" then DecodeNames[n] else "PLACED"
    case Text(s) => s
  }

  /** A number outside the table is shown as a cancellable PLACED order on this
      page, while the shared mappings call it 'Unknown' and offer it no next
      status. */
  lemma UnknownNumberShownAsPlaced(o: Order)
    requires RawStatus(o).Num? && RawStatus(o).n !in StatusNames
    ensures CardStatus(o) == "PLACED" && CanCancelOrder(Some(CardStatus(o)))
    ensures GetStatusDisplayText(RawStatus(o)) == "Unknown"
    ensures GetNextPossibleStatuses(RawStatus(o)) == []
  {
    NamesAreUpperCase();
  }

  /** A class and a label for a status badge. */
  datatype StatusInfo = StatusInfo(cls: string, text: string)

  /** The page's own badge table, keyed by upper-case name. */
  const StatusMap: map<string, StatusInfo> := map[
    "PLACED" := StatusInfo("bg-warning text-dark", "Placed"),
    "PROCESSED" := StatusInfo("bg-info text-white", "Processed"),
    "SHIPPED" := StatusInfo("bg-primary text-white", "Shipped"),
    "REACHED HUB" := StatusInfo("bg-secondary text-white", "Reached Hub"),
    "OUT FOR DELIVERY" := StatusInfo("bg-primary text-white", "Out for Delivery"),
    "DELIVERED" := StatusInfo("bg-success text-white", "Delivered"),
    "CANCELED" := StatusInfo("bg-danger text-white", "Canceled")]

  const UnknownClass := "bg-dark text-white"

  /** `getStatusInfo`: the seven names, in any case, get their entry of the
      table; anything else gets the dark badge labelled with the raw text, or
      'Unknown' when there is none. */
  function GetStatusInfo(status: Option<string>): (r: StatusInfo)
    ensures GetStatusId(status).Some? ==> r == StatusMap[StatusNames[GetStatusId(status).value]]
    ensures GetStatusId(status).Some? ==> r.cls != UnknownClass
    ensures GetStatusId(status).None? ==>
              r == StatusInfo(UnknownClass, if status.Some? && status.value != "" then status.value else "Unknown")
  {
    TablesAreInverse();
    var normalized := match status case Some(s) => ToUpper(s) case None => "";
    if normalized in StatusMap then StatusMap[normalized]
    else StatusInfo(UnknownClass, match status case Some(s) => if s != "" then s else "Unknown" case None => "Unknown")
  }

  /** The history page and the shared badge mapping colour PLACED differently. */
  lemma PlacedBadgesDiffer()
    ensures GetStatusInfo(Some("PLACED")).cls != GetStatusBadgeClass(Text("PLACED"))
  {
    NamesAreUpperCase();
  }

  /** The product an order line refers to: the one whose `productId` or `id`
      equals the line's product id. */
  predicate ProductMatches(p: Product, productId: Value) {
    p.productId == productId || p.id == productId
  }

  /** `getProductDetails`: the first matching product, or nothing. */
  function GetProductDetails(products: seq<Product>, productId: Value): (r: Option<Product>)
    ensures r.None? <==> forall j :: 0 <= j < |products| ==> !ProductMatches(products[j], productId)
    ensures r.Some? ==> exists i :: 0 <= i < |products| && products[i] == r.value && ProductMatches(r.value, productId)
                                    && forall j :: 0 <= j < i ==> !ProductMatches(products[j], productId)
  {
    Find(products, p => ProductMatches(p, productId))
  }
}

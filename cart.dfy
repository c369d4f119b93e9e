/**
 * The cart page: quantity changes, the total, and checkout. The cart itself
 * lives in the store's cart slice, which is not part of this model; the page
 * only dispatches actions to it, and the model records those actions.
 */
module Cart {
  import opened Js

  /** A cart line. Prices are whole amounts. */
  datatype CartItem = CartItem(id: Value, quantity: int, price: int)

  /** The actions the page dispatches to the cart slice. `quantity` is the
      result of `parseInt`, `None` standing for NaN. */
  datatype CartAction = UpdateQuantity(id: Value, quantity: Option<int>) | RemoveFromCart(id: Value) | ClearCart

  /** `newQuantity > 0`: a number as it is, a typed string through `Number`. */
  predicate IsPositive(newQuantity: Value) {
    match newQuantity
    case Num(n) => n > 0
    case Text(s) => NumberIsPositive(s)
    case Missing => false
  }

  /** `handleQuantityChange`: a positive quantity updates the line to what
      `parseInt` reads from it; anything else removes the line. A whole number
      is kept exactly. */
  function QuantityAction(productId: Value, newQuantity: Value): (r: CartAction)
    ensures r.UpdateQuantity? <==> IsPositive(newQuantity)
    ensures r.UpdateQuantity? ==> r.id == productId && r.quantity == ParseInt(ToText(newQuantity))
    ensures newQuantity.Num? ==> (r.UpdateQuantity? <==> newQuantity.n > 0)
    ensures r.UpdateQuantity? && newQuantity.Num? ==> r.quantity == Some(newQuantity.n)
    ensures newQuantity.Text? && StringToNumber(newQuantity.s).Some? ==>
              (r.UpdateQuantity? <==> StringToNumber(newQuantity.s).value > 0)
    ensures r.UpdateQuantity? && newQuantity.Text? && StringToNumber(newQuantity.s).Some? ==>
              r.quantity == StringToNumber(newQuantity.s)
    ensures !r.UpdateQuantity? ==> r == RemoveFromCart(productId)
  {
    NumberIsPositiveOfInteger(ToText(newQuantity));
    if IsPositive(newQuantity) then
      QuantityParsesBack(newQuantity);
      UpdateQuantity(productId, ParseInt(ToText(newQuantity)))
    else
      RemoveFromCart(productId)
  }

  /** `parseInt` reads back the positive quantity `>` compared, whenever that
      quantity is a whole number. */
  lemma QuantityParsesBack(newQuantity: Value)
    requires IsPositive(newQuantity)
    ensures newQuantity.Num? ==> ParseInt(ToText(newQuantity)) == Some(newQuantity.n)
    ensures newQuantity.Text? && StringToNumber(newQuantity.s).Some? ==>
              ParseInt(ToText(newQuantity)) == StringToNumber(newQuantity.s) && StringToNumber(newQuantity.s).value > 0
  {
    match newQuantity
    case Num(n) => ParseIntOfDecimal(n);
    case Text(s) =>
      NumberIsPositiveOfInteger(s);
      if StringToNumber(s).Some? {
        NumberAgreesWithParseInt(s);
      }
  }

  /** A typed quantity that is positive but not whole passes the comparison and
      is then cut down by `parseInt`: '0.5' updates the line to quantity 0,
      '2.5' to 2, '1e3' to 1, and 'Infinity' to `NaN`. */
  lemma TypedDecimalsTruncate(productId: Value)
    ensures QuantityAction(productId, Text("0.5")) == UpdateQuantity(productId, Some(0))
    ensures QuantityAction(productId, Text("2.5")) == UpdateQuantity(productId, Some(2))
    ensures QuantityAction(productId, Text("1e3")) == UpdateQuantity(productId, Some(1))
    ensures QuantityAction(productId, Text("Infinity")) == UpdateQuantity(productId, None)
  {
    PositiveLiterals();
    ParseIntOfLiterals();
  }

  /** The minus button on a line of quantity one removes the line, and typing
      a blank quantity does too. */
  lemma DecrementToZeroRemoves(productId: Value)
    ensures QuantityAction(productId, Num(1 - 1)) == RemoveFromCart(productId)
    ensures QuantityAction(productId, Text("")) == RemoveFromCart(productId)
  {
  }

  /** `getTotalPrice`: the sum of quantity times price, added up from the
      first line to the last. */
  function TotalPrice(items: seq<CartItem>): (r: int)
    ensures items == [] ==> r == 0
    ensures (forall i :: 0 <= i < |items| ==> items[i].quantity >= 0 && items[i].price >= 0) ==> r >= 0
    decreases |items|
  {
    if items == [] then 0
    else
      var last := items[|items| - 1];
      TotalPrice(items[..|items| - 1]) + last.quantity * last.price
  }

  /** The total of two carts put together is the sum of their totals. */
  lemma {:induction false} TotalOfConcat(a: seq<CartItem>, b: seq<CartItem>)
    ensures TotalPrice(a + b) == TotalPrice(a) + TotalPrice(b)
    decreases |b|
  {
    if b == [] {
      assert a + b == a;
    } else {
      var c := b[..|b| - 1];
      assert (a + b)[..|a + b| - 1] == a + c;
      assert (a + b)[|a + b| - 1] == b[|b| - 1];
      TotalOfConcat(a, c);
    }
  }

  /** A line's share of the total. */
  lemma TotalOfOne(item: CartItem)
    ensures TotalPrice([item]) == item.quantity * item.price
  {
    assert [item][..0] == [];
  }

  /** A line of the order request. */
  datatype OrderLine = OrderLine(productId: Value, quantity: int)

  /** The order request: the customer, the delivery details, and the lines. */
  datatype OrderPayload = OrderPayload(customerId: Value, phone: string, address: string, products: seq<OrderLine>)

  /** The order request for a cart: one line per cart item, in cart order,
      with the item's id and quantity. */
  function OrderPayloadOf(user: JsObject, phone: string, address: string, items: seq<CartItem>): (r: OrderPayload)
    ensures r.customerId == Get(user, "id") && r.phone == phone && r.address == address
    ensures |r.products| == |items|
    ensures forall i :: 0 <= i < |items| ==> r.products[i] == OrderLine(items[i].id, items[i].quantity)
  {
    OrderPayload(Get(user, "id"), phone, address, seq(|items|, i requires 0 <= i < |items| => OrderLine(items[i].id, items[i].quantity)))
  }

  /** What the order request came back with: a body that is a string, a body
      that is an object with the given `message` field, or an error. */
  datatype OrderResponse = TextBody(text: string) | ObjectBody(message: Value) | OrderRequestFailed

  /** The success test: the body's message, lower-cased, contains 'success'. */
  predicate IsSuccessResponse(response: OrderResponse) {
    match response
    case TextBody(text) => text != "" && Includes(ToLower(text), "success")
    case ObjectBody(message) => message.Text? && message.s != "" && Includes(ToLower(message.s), "success")
    case OrderRequestFailed => false
  }

  /** The test ignores case. */
  lemma SuccessIgnoresCase(text: string)
    ensures IsSuccessResponse(TextBody(ToUpper(text))) == IsSuccessResponse(TextBody(text))
  {
    LowerOfUpper(text);
  }

  /** The test only looks for the word, so any message saying the order was
      unsuccessful passes it as well. */
  lemma UnsuccessfulPasses(before: string, after: string)
    ensures IsSuccessResponse(TextBody(before + "Unsuccessful" + after))
  {
    var text := before + "Unsuccessful" + after;
    var m := ToLower(text);
    var n := |before|;
    assert forall k :: n <= k < n + 12 ==> m[k] == LowerChar("Unsuccessful"[k - n]);
    assert m[n + 2..n + 9] == "success";
    assert OccursAt(m, "success", |before| + 2);
  }

  /** The page's state: the actions dispatched so far and whether the order
      went through. */
  class CartPage {
    var dispatched: seq<CartAction>
    var orderPlaced: bool

    constructor ()
      ensures dispatched == [] && !orderPlaced
    {
      dispatched := [];
      orderPlaced := false;
    }

    /** `handleQuantityChange`: dispatch the action for the new quantity. */
    method HandleQuantityChange(productId: Value, newQuantity: Value)
      modifies this
      ensures dispatched == old(dispatched) + [QuantityAction(productId, newQuantity)]
      ensures orderPlaced == old(orderPlaced)
    {
      if IsPositive(newQuantity) {
        QuantityParsesBack(newQuantity);
        dispatched := dispatched + [UpdateQuantity(productId, ParseInt(ToText(newQuantity)))];
      } else {
        dispatched := dispatched + [RemoveFromCart(productId)];
      }
    }

    /** `handlePlaceOrder`: nothing is sent without a user, items, a phone
        number and an address; otherwise the order is sent, and the cart is
        cleared exactly when the response reports success. Returns the
        request that was sent, if any. */
    method HandlePlaceOrder(user: Option<JsObject>, items: seq<CartItem>, phone: string, address: string,
                            response: OrderResponse)
      returns (request: Option<OrderPayload>)
      modifies this
      ensures request.None? <==> user.None? || items == [] || phone == "" || address == ""
      ensures request.Some? ==> request.value == OrderPayloadOf(user.value, phone, address, items)
      ensures request.Some? && IsSuccessResponse(response) ==> dispatched == old(dispatched) + [ClearCart] && orderPlaced
      ensures request.None? || !IsSuccessResponse(response) ==>
                dispatched == old(dispatched) && orderPlaced == old(orderPlaced)
    {
      if user.None? || |items| == 0 || phone == "" || address == "" {
        return None;
      }
      request := Some(OrderPayloadOf(user.value, phone, address, items));
      if IsSuccessResponse(response) {
        orderPlaced := true;
        dispatched := dispatched + [ClearCart];
      }
    }
  }
}

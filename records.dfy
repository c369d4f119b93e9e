/**
 * The records the pages receive from the REST API. The backend has sent
 * several shapes over time, so most fields have alternatives that the pages
 * try in turn with `||`; a field a record lacks is `Missing`.
 */
module Records {
  import opened Js
  import opened OrderStatus

  /** An agent embedded in an order (`order.agent`, `order.deliveryAgent`). */
  datatype AgentRef = AgentRef(id: Value, name: Value, agentName: Value)

  /** `ref?.id`: undefined when the embedded agent is absent. */
  function RefId(a: Option<AgentRef>): Value {
    match a
    case None => Missing
    case Some(r) => r.id
  }

  /** `ref?.name`. */
  function RefName(a: Option<AgentRef>): Value {
    match a
    case None => Missing
    case Some(r) => r.name
  }

  /** `ref?.agentName`. */
  function RefAgentName(a: Option<AgentRef>): Value {
    match a
    case None => Missing
    case Some(r) => r.agentName
  }

  /** An order, with the fields the pages read. `customerRefId` is
      `order.customer?.id` for an embedded customer object, and `customer` is
      `order.customer` when that field holds a plain id. */
  datatype Order = Order(
    orderId: Value, id: Value, orderNumber: Value,
    statusId: Value, status: Value, orderStatus: Value,
    agentId: Value, deliveryAgentId: Value,
    agent: Option<AgentRef>, deliveryAgent: Option<AgentRef>,
    customerId: Value, customerRefId: Value, customer: Value)

  /** An entry of the customer list. */
  datatype Customer = Customer(
    customerId: Value, id: Value, userId: Value,
    username: Value, customerUsername: Value, Username: Value)

  /** An entry of the delivery-agent list. */
  datatype Agent = Agent(
    agentId: Value, id: Value, userId: Value,
    agentName: Value, name: Value, AgentName: Value, username: Value)

  /** A catalogue product. Names and descriptions are strings when present. */
  datatype Product = Product(
    productId: Value, id: Value,
    ProductName: Option<string>, productName: Option<string>,
    ProductDescription: Option<string>, productDescription: Option<string>)

  /** A failed request as the HTTP client reports it: the status of the
      response when one arrived, and the error code. */
  datatype ApiError = ApiError(responseStatus: Option<int>, code: string)

  /** `order.statusId || order.status || order.orderStatus || 1`: the first
      truthy status field, and PLACED when the order has none. */
  function RawStatus(o: Order): (r: Value)
    ensures Truthy(r)
    ensures Truthy(o.statusId) ==> r == o.statusId
    ensures !Truthy(o.statusId) && Truthy(o.status) ==> r == o.status
    ensures !Truthy(o.statusId) && !Truthy(o.status) && Truthy(o.orderStatus) ==> r == o.orderStatus
    ensures !Truthy(o.statusId) && !Truthy(o.status) && !Truthy(o.orderStatus) ==> r == Num(Placed)
  {
    Or(Or(Or(o.statusId, o.status), o.orderStatus), Num(Placed))
  }

  /** The status cell of the agent's and the admin's order tables: the display
      text and the badge class of the raw status. An order without a status
      shows as PLACED. */
  function StatusCell(o: Order): (r: (string, string))
    ensures Recognize(Text(r.0)) == Recognize(RawStatus(o))
    ensures r.1 == DefaultBadge <==> Recognize(RawStatus(o)).None?
    ensures !Truthy(o.statusId) && !Truthy(o.status) && !Truthy(o.orderStatus) ==>
              r == ("PLACED", BadgeForName("PLACED"))
  {
    var raw := RawStatus(o);
    (GetStatusDisplayText(raw), GetStatusBadgeClass(raw))
  }
}

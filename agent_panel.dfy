/**
 * The delivery agent's panel: which orders belong to the signed-in agent,
 * which statuses the agent may pick, and the status update a pick sends.
 */
module AgentPanel {
  import opened Js
  import opened OrderStatus
  import opened Records

  /** The agent an order is assigned to: the first truthy of `agentId`,
      `deliveryAgentId`, `agent?.id` and `deliveryAgent?.id`. */
  function AssignedAgentId(o: Order): (r: Value)
    ensures Truthy(r) <==> Truthy(o.agentId) || Truthy(o.deliveryAgentId) || Truthy(RefId(o.agent)) || Truthy(RefId(o.deliveryAgent))
    ensures Truthy(o.agentId) ==> r == o.agentId
    ensures !Truthy(o.agentId) && Truthy(o.deliveryAgentId) ==> r == o.deliveryAgentId
    ensures !Truthy(o.agentId) && !Truthy(o.deliveryAgentId) && Truthy(RefId(o.agent)) ==> r == RefId(o.agent)
    ensures !Truthy(o.agentId) && !Truthy(o.deliveryAgentId) && !Truthy(RefId(o.agent)) ==> r == RefId(o.deliveryAgent)
  {
    Or(Or(Or(o.agentId, o.deliveryAgentId), RefId(o.agent)), RefId(o.deliveryAgent))
  }

  /** The filter predicate: the order has an assigned agent whose id prints as
      the signed-in user's id. Numbers and strings compare by their text. */
  predicate IsAssignedTo(o: Order, userId: Value)
    requires Truthy(userId)
  {
    var agentOfOrder := AssignedAgentId(o);
    Truthy(agentOfOrder) && ToText(agentOfOrder) == ToText(userId)
  }

  /** The agent's order list: exactly the assigned orders, in their original
      order, and nothing else. The panel loads only when the user has an id. */
  function AgentOrders(orders: seq<Order>, userId: Value): (r: seq<Order>)
    requires Truthy(userId)
    ensures IsSubsequence(r, orders)
    ensures forall i :: 0 <= i < |r| ==> IsAssignedTo(r[i], userId)
    ensures forall i :: 0 <= i < |orders| ==> (orders[i] in r <==> IsAssignedTo(orders[i], userId))
    ensures forall o :: multiset(r)[o] == if IsAssignedTo(o, userId) then multiset(orders)[o] else 0
  {
    FilterIsSubsequence(orders, o => IsAssignedTo(o, userId));
    FilterCounts(orders, o => IsAssignedTo(o, userId));
    Filter(orders, o => IsAssignedTo(o, userId))
  }

  /** An id stored as a number and the same id stored as a string match. */
  lemma NumberAndStringIdsMatch(o: Order, n: nat)
    requires n != 0
    requires o.agentId == Text(NatToDecimal(n))
    ensures IsAssignedTo(o, Num(n))
  {
    NatToDecimalDigits(n);
  }

  /** An order whose `agentId` names another agent is not in the list, even
      when its `deliveryAgentId` names this one: only the first present id
      counts. */
  lemma FirstPresentIdDecides(o: Order, userId: Value)
    requires Truthy(userId) && Truthy(o.agentId) && ToText(o.agentId) != ToText(userId)
    ensures !IsAssignedTo(o, userId)
  {
  }

  /** The status options an agent is offered, whatever the order's current
      status: the loaded list without the entries named exactly 'CANCELED', or
      the built-in ids 1 to 6 when the list is empty. */
  function AgentStatusOptions(orderStatuses: seq<StatusEntry>): (r: seq<StatusEntry>)
    ensures forall i :: 0 <= i < |r| ==> r[i].status != "CANCELED"
    ensures orderStatuses != [] ==> IsSubsequence(r, orderStatuses)
    ensures orderStatuses != [] ==>
              forall i :: 0 <= i < |orderStatuses| ==> (orderStatuses[i] in r <==> orderStatuses[i].status != "CANCELED")
    ensures orderStatuses != [] ==>
              forall e :: multiset(r)[e] == if e.status != "CANCELED" then multiset(orderStatuses)[e] else 0
    ensures orderStatuses == [] ==>
              |r| == 6 && forall i :: 0 <= i < |r| ==> r[i].id == i + 1 && r[i].status == StatusNames[i + 1]
  {
    if |orderStatuses| > 0 then
      FilterIsSubsequence(orderStatuses, (e: StatusEntry) => e.status != "CANCELED");
      FilterCounts(orderStatuses, (e: StatusEntry) => e.status != "CANCELED");
      Filter(orderStatuses, (e: StatusEntry) => e.status != "CANCELED")
    else
      FallbackStatuses()[..6]
  }

  /** When the status list could not be loaded the panel falls back to the
      default list; filtering it gives the same six options as the built-in
      ones, so CANCELED is offered on neither path. */
  lemma FallbackListsAgree()
    ensures AgentStatusOptions(FetchAllStatuses(RequestFailed)) == AgentStatusOptions([])
    ensures forall i :: 0 <= i < |AgentStatusOptions([])| ==> AgentStatusOptions([])[i].id != Canceled
  {
    var all := FallbackStatuses();
    var p := (e: StatusEntry) => e.status != "CANCELED";
    FilterKeepsAll(all[..6], p);
    assert all == all[..6] + [all[6]];
    FilterAppendRejected(all[..6], all[6], p);
  }

  /** The check is on the exact text: a loaded entry spelt in any other case
      ('canceled', 'Canceled') is offered, although it denotes CANCELED. */
  lemma CancelCheckIsCaseSensitive(id: int, spelling: string)
    requires ToUpper(spelling) == "CANCELED" && spelling != "CANCELED"
    ensures AgentStatusOptions([StatusEntry(id, spelling)]) == [StatusEntry(id, spelling)]
    ensures Recognize(Text(spelling)) == Some(Canceled)
  {
    var xs := [StatusEntry(id, spelling)];
    FilterKeepsAll(xs, (e: StatusEntry) => e.status != "CANCELED");
  }

  /** The options ignore the transition table: an order already final, for
      which the table offers nothing, is still offered every option,
      PLACED included, whether the statuses were fetched or built in. */
  lemma OptionsIgnoreTransitions(o: Order, fetched: seq<StatusEntry>)
    requires IsFinalStatus(RawStatus(o))
    ensures GetNextPossibleStatuses(RawStatus(o)) == []
    ensures StatusEntry(Placed, "PLACED") in AgentStatusOptions([])
    ensures StatusEntry(Placed, "PLACED") in fetched ==> StatusEntry(Placed, "PLACED") in AgentStatusOptions(fetched)
  {
    assert AgentStatusOptions([])[0] == StatusEntry(Placed, "PLACED");
  }

  /** The body of a status update: the order id and the status id, each
      passed through `parseInt` (`None` stands for NaN). */
  datatype StatusUpdate = StatusUpdate(orderId: Option<int>, statusId: Option<int>)

  /** How the update request ended: accepted, or failed with the server's
      message (when it sent a non-empty one) or the client's error message. */
  datatype UpdateResponse = UpdateAccepted | UpdateRejected(serverMessage: Option<string>, errorMessage: string)

  /** What the agent sees after picking a status. */
  datatype UpdateOutcome = SelectStatusFirst | StatusUpdated | UpdateFailed(alertText: string)

  /** `updateOrderStatus`: an empty selection sends nothing; otherwise the
      order id and the selected value are parsed as integers and sent. */
  method UpdateOrderStatus(orderId: Value, newStatusId: string, response: UpdateResponse)
    returns (request: Option<StatusUpdate>, outcome: UpdateOutcome)
    ensures request.None? <==> newStatusId == ""
    ensures request.None? ==> outcome == SelectStatusFirst
    ensures request.Some? ==> request.value == StatusUpdate(ParseInt(ToText(orderId)), ParseInt(newStatusId))
    ensures request.Some? && response.UpdateAccepted? ==> outcome == StatusUpdated
    ensures request.Some? && response.UpdateRejected? ==> outcome.UpdateFailed?
    ensures request.Some? && response.UpdateRejected? ==>
              var shown := if response.serverMessage.Some? && response.serverMessage.value != ""
                           then response.serverMessage.value else response.errorMessage;
              outcome.alertText == "Failed to update order status: " + shown
  {
    if newStatusId == "" {
      return None, SelectStatusFirst;
    }
    request := Some(StatusUpdate(ParseInt(ToText(orderId)), ParseInt(newStatusId)));
    match response
    case UpdateAccepted =>
      outcome := StatusUpdated;
    case UpdateRejected(serverMessage, errorMessage) =>
      var shown := match serverMessage
                   case Some(m) => if m != "" then m else errorMessage
                   case None => errorMessage;
      outcome := UpdateFailed("Failed to update order status: " + shown);
  }

  /** The value of an option is its id printed in decimal, so picking any
      offered option selects something, and the request carries exactly that
      option's id; a numeric order id is likewise sent unchanged. */
  lemma PickedOptionIsSent(orderStatuses: seq<StatusEntry>, i: nat, orderId: int)
    requires i < |AgentStatusOptions(orderStatuses)|
    ensures var value := ToText(Num(AgentStatusOptions(orderStatuses)[i].id));
            value != "" && ParseInt(value) == Some(AgentStatusOptions(orderStatuses)[i].id)
    ensures ParseInt(ToText(Num(orderId))) == Some(orderId)
  {
    var id := AgentStatusOptions(orderStatuses)[i].id;
    ParseIntOfDecimal(id);
    NatToDecimalDigits(if id < 0 then -id else id);
    ParseIntOfDecimal(orderId);
  }
}

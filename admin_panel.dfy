/**
 * The administrator's order table: how a customer and an agent are named,
 * which agents the assignment selector offers, and the assignment request.
 */
module AdminPanel {
  import opened Js
  import opened OrderStatus
  import opened Records
  import AgentPanel

  /** The customer of an order as the table shows it:
      `customerId || customer?.id || customer || 'Unknown'`. */
  function CustomerIdOf(o: Order): (r: Value)
    ensures Truthy(r)
    ensures Truthy(o.customerId) ==> r == o.customerId
    ensures !Truthy(o.customerId) && Truthy(o.customerRefId) ==> r == o.customerRefId
    ensures !Truthy(o.customerId) && !Truthy(o.customerRefId) && Truthy(o.customer) ==> r == o.customer
    ensures !Truthy(o.customerId) && !Truthy(o.customerRefId) && !Truthy(o.customer) ==> r == Text("Unknown")
  {
    Or(Or(Or(o.customerId, o.customerRefId), o.customer), Text("Unknown"))
  }

  /** The customer record a customer id refers to. */
  predicate CustomerMatches(c: Customer, customerId: Value) {
    c.customerId == customerId || c.id == customerId || c.userId == customerId
  }

  /** `getCustomerUsername`: the first matching customer's `username`,
      `customerUsername` or `Username`, else 'Customer {id}'. */
  function GetCustomerUsername(customers: seq<Customer>, customerId: Value): (r: string)
    ensures (forall j :: 0 <= j < |customers| ==> !CustomerMatches(customers[j], customerId)) ==>
              r == "Customer " + ToText(customerId)
    ensures forall i :: 0 <= i < |customers| && CustomerMatches(customers[i], customerId)
                        && (forall j :: 0 <= j < i ==> !CustomerMatches(customers[j], customerId)) ==>
              var c := customers[i];
              r == ToText(if Truthy(c.username) then c.username
                          else if Truthy(c.customerUsername) then c.customerUsername
                          else if Truthy(c.Username) then c.Username
                          else Text("Customer " + ToText(customerId)))
    ensures r != ""
  {
    var found := Find(customers, c => CustomerMatches(c, customerId));
    var name := match found
      case None => Missing
      case Some(c) => Or(Or(c.username, c.customerUsername), c.Username);
    var shown := Or(name, Text("Customer " + ToText(customerId)));
    TextOfTruthy(shown);
    FirstMatchIsUnique(customers, c => CustomerMatches(c, customerId), found);
    ToText(shown)
  }

  /** The agent id the admin table uses: `agentId || deliveryAgent?.id ||
      agent?.id`. Unlike the agent's own panel it never reads
      `deliveryAgentId`, and it reads the embedded agents in the other order. */
  function AdminAgentId(o: Order): (r: Value)
    ensures Truthy(r) <==> Truthy(o.agentId) || Truthy(RefId(o.deliveryAgent)) || Truthy(RefId(o.agent))
    ensures Truthy(o.agentId) ==> r == o.agentId
    ensures !Truthy(o.agentId) && Truthy(RefId(o.deliveryAgent)) ==> r == RefId(o.deliveryAgent)
    ensures !Truthy(o.agentId) && !Truthy(RefId(o.deliveryAgent)) ==> r == RefId(o.agent)
  {
    Or(Or(o.agentId, RefId(o.deliveryAgent)), RefId(o.agent))
  }

  /** The agent record an agent id refers to. */
  predicate AgentMatches(a: Agent, agentId: Value) {
    a.agentId == agentId || a.id == agentId || a.userId == agentId
  }

  /** The first name embedded in the order: `deliveryAgent.name`,
      `agent.name`, `deliveryAgent.agentName`, `agent.agentName`. */
  function EmbeddedAgentName(o: Order): Value {
    Or(Or(Or(RefName(o.deliveryAgent), RefName(o.agent)), RefAgentName(o.deliveryAgent)), RefAgentName(o.agent))
  }

  /** `getAgentName`: a name embedded in the order wins; otherwise, for an
      agent id, the first matching agent's `agentName`, `name`, `AgentName` or
      `username`, and 'Agent {id}' when none of those or no agent is found;
      with no agent id, 'Not Assigned'. */
  function GetAgentName(agents: seq<Agent>, agentId: Value, o: Order): (r: string)
    ensures Truthy(RefName(o.deliveryAgent)) ==> r == ToText(RefName(o.deliveryAgent))
    ensures !Truthy(RefName(o.deliveryAgent)) && Truthy(RefName(o.agent)) ==> r == ToText(RefName(o.agent))
    ensures !Truthy(RefName(o.deliveryAgent)) && !Truthy(RefName(o.agent)) && Truthy(RefAgentName(o.deliveryAgent)) ==>
              r == ToText(RefAgentName(o.deliveryAgent))
    ensures !Truthy(RefName(o.deliveryAgent)) && !Truthy(RefName(o.agent)) && !Truthy(RefAgentName(o.deliveryAgent))
            && Truthy(RefAgentName(o.agent)) ==>
              r == ToText(RefAgentName(o.agent))
    ensures Truthy(EmbeddedAgentName(o)) <==>
              Truthy(RefName(o.deliveryAgent)) || Truthy(RefName(o.agent))
              || Truthy(RefAgentName(o.deliveryAgent)) || Truthy(RefAgentName(o.agent))
    ensures !Truthy(EmbeddedAgentName(o)) && !Truthy(agentId) ==> r == "Not Assigned"
    ensures !Truthy(EmbeddedAgentName(o)) && Truthy(agentId)
            && (forall j :: 0 <= j < |agents| ==> !AgentMatches(agents[j], agentId)) ==>
              r == "Agent " + ToText(agentId)
    ensures !Truthy(EmbeddedAgentName(o)) && Truthy(agentId) ==>
              forall i :: 0 <= i < |agents| && AgentMatches(agents[i], agentId)
                          && (forall j :: 0 <= j < i ==> !AgentMatches(agents[j], agentId)) ==>
                var a := agents[i];
                r == ToText(if Truthy(a.agentName) then a.agentName
                            else if Truthy(a.name) then a.name
                            else if Truthy(a.AgentName) then a.AgentName
                            else if Truthy(a.username) then a.username
                            else Text("Agent " + ToText(agentId)))
    ensures r != ""
  {
    var embedded := EmbeddedAgentName(o);
    if Truthy(embedded) then
      TextOfTruthy(embedded);
      ToText(embedded)
    else if Truthy(agentId) then
      var found := Find(agents, a => AgentMatches(a, agentId));
      FirstMatchIsUnique(agents, a => AgentMatches(a, agentId), found);
      match found
      case None => "Agent " + ToText(agentId)
      case Some(a) =>
        var shown := Or(Or(Or(Or(a.agentName, a.name), a.AgentName), a.username), Text("Agent " + ToText(agentId)));
        TextOfTruthy(shown);
        ToText(shown)
    else
      "Not Assigned"
  }

  /** An order that records its agent only in `deliveryAgentId` is in that
      agent's own list, but the admin table shows it as not assigned. */
  lemma DeliveryAgentIdOnlySeenByAgent(o: Order, n: int)
    requires n != 0
    requires o.deliveryAgentId == Num(n)
    requires !Truthy(o.agentId) && o.agent.None? && o.deliveryAgent.None?
    ensures AgentPanel.IsAssignedTo(o, Num(n))
    ensures AdminAgentId(o) == Missing
    ensures forall agents :: GetAgentName(agents, AdminAgentId(o), o) == "Not Assigned"
  {
  }

  /** An option of the agent selector: the value sent and the label shown. */
  datatype AgentOption = AgentOption(value: Value, caption: string)

  /** The agent selector: one option per agent, in list order, offered for
      every order whatever its status. The label prefers `AgentName`, then
      `agentName`, then `name`, then 'Agent {id}'. */
  function AssignOptions(agents: seq<Agent>): (r: seq<AgentOption>)
    ensures |r| == |agents|
    ensures forall i :: 0 <= i < |r| ==> r[i].value == Or(agents[i].agentId, agents[i].id) && r[i].caption != ""
    ensures forall i :: 0 <= i < |r| && Truthy(agents[i].AgentName) ==> r[i].caption == ToText(agents[i].AgentName)
    ensures forall i :: 0 <= i < |r| ==> r[i] == OptionFor(agents[i])
  {
    seq(|agents|, i requires 0 <= i < |agents| => OptionFor(agents[i]))
  }

  /** The option of one agent. */
  function OptionFor(a: Agent): (r: AgentOption)
    ensures r.value == Or(a.agentId, a.id)
    ensures Truthy(r.value) <==> Truthy(a.agentId) || Truthy(a.id)
    ensures Truthy(a.AgentName) ==> r.caption == ToText(a.AgentName)
    ensures !Truthy(a.AgentName) && Truthy(a.agentName) ==> r.caption == ToText(a.agentName)
    ensures !Truthy(a.AgentName) && !Truthy(a.agentName) && Truthy(a.name) ==> r.caption == ToText(a.name)
    ensures !Truthy(a.AgentName) && !Truthy(a.agentName) && !Truthy(a.name) ==>
              r.caption == "Agent " + ToText(r.value)
    ensures r.caption != ""
  {
    var value := Or(a.agentId, a.id);
    var caption := Or(Or(Or(a.AgentName, a.agentName), a.name), Text("Agent " + ToText(value)));
    TextOfTruthy(caption);
    AgentOption(value, ToText(caption))
  }

  /** The selector and the table name an agent differently when it has both
      an `AgentName` and an `agentName`. */
  lemma SelectorAndTableDisagree(a: Agent, o: Order)
    requires a.agentId == Num(5)
    requires a.AgentName == Text("Ann") && a.agentName == Text("A. Smith")
    requires !Truthy(EmbeddedAgentName(o))
    ensures AssignOptions([a])[0].caption == "Ann"
    ensures GetAgentName([a], Num(5), o) == "A. Smith"
  {
  }

  /** The body of an assignment request: the order id and the selected value. */
  datatype AssignRequest = AssignRequest(orderId: Value, agentId: string)

  /** How the assignment request ended. */
  datatype AssignResponse = AssignAccepted | AssignRejected(serverMessage: Option<string>, errorMessage: string)

  /** What the administrator sees after picking an agent. */
  datatype AssignOutcome = SelectAgentFirst | AgentAssigned | AssignFailed(alertText: string)

  /** `handleAssignAgent`: an empty selection sends nothing; otherwise the
      order id and the selected value are sent as they are. */
  method HandleAssignAgent(orderId: Value, agentId: string, response: AssignResponse)
    returns (request: Option<AssignRequest>, outcome: AssignOutcome)
    ensures request.None? <==> agentId == ""
    ensures request.None? ==> outcome == SelectAgentFirst
    ensures request.Some? ==> request.value == AssignRequest(orderId, agentId)
    ensures request.Some? && response.AssignAccepted? ==> outcome == AgentAssigned
    ensures request.Some? && response.AssignRejected? ==> outcome.AssignFailed?
    ensures request.Some? && response.AssignRejected? ==>
              var shown := if response.serverMessage.Some? && response.serverMessage.value != ""
                           then response.serverMessage.value else response.errorMessage;
              outcome.alertText == "Failed to assign agent: " + shown
  {
    if agentId == "" {
      return None, SelectAgentFirst;
    }
    request := Some(AssignRequest(orderId, agentId));
    match response
    case AssignAccepted =>
      outcome := AgentAssigned;
    case AssignRejected(serverMessage, errorMessage) =>
      var shown := match serverMessage
                   case Some(m) => if m != "" then m else errorMessage
                   case None => errorMessage;
      outcome := AssignFailed("Failed to assign agent: " + shown);
  }

  /** Every option of the selector, once picked, sends a request: its value
      prints as non-empty text whenever the agent has an id. */
  lemma PickedAgentIsSent(agents: seq<Agent>, i: nat)
    requires i < |agents| && (Truthy(agents[i].agentId) || Truthy(agents[i].id))
    ensures ToText(AssignOptions(agents)[i].value) != ""
  {
    TextOfTruthy(AssignOptions(agents)[i].value);
  }
}

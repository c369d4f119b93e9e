# Storefront client rules, modelled in Dafny

This project models the decision logic of a React storefront client for an
online shop with three kinds of users: customers, delivery agents and
administrators. The logic covered is:

- **The order-status vocabulary.** Seven statuses: PLACED, PROCESSED,
  SHIPPED, REACHED HUB, OUT FOR DELIVERY, DELIVERED and CANCELED, with ids
  1 to 7. The model covers the two lookup tables, the display and badge
  mappings, the final-state test and the forward-only successor table.
- **The customer's order history.** Which orders may be cancelled, the
  cancel request, how a numeric status is decoded for display, the status
  badge table and the product lookup.
- **The agent panel.** The filter that picks the orders assigned to the
  signed-in agent, the status options offered, and the status-update request.
- **The admin panel.** How customer and agent names are resolved through
  their fallback chains, the agent selector, and the assign-agent request.
- **The session slice of the store.** The user, the login flag and the
  token, kept in step with the browser's local storage.
- **The route guard** in front of the role-specific pages.
- **The profile form.** Field validation, edit, cancel and save.
- **The cart page.** Quantity changes, the total, and the checkout request.
- **The home page.** The search filter and the messages for a failed
  catalogue load.

A raw JavaScript value is `Js.Value`: `Missing` (for `undefined` and
`null`), `Num` or `Text`. Module `Js` models truthiness, `||`, `String(…)`,
`parseInt`, `Number` on integer text, and the comparison `Number(s) > 0` on
any numeric literal. `Recognize` gives the status a raw value denotes. It is
the reference meaning the status mappings are proved against.

Components that update state step by step are classes:

- `UserState` and `LocalStorage`;
- `ProfileForm`;
- `CartPage`, whose dispatched store actions are a log;
- `HomePage`.

Each of their methods is specified against a function of the old state. Event
handlers that only decide what to send (cancel, assign, update status) are
methods that return the request they send and the outcome they report. The
server's answer, the user's answer to a confirmation dialog and JSON
encoding and decoding are parameters.

Where the code and its comments disagree, the model follows the code:

- `canCancelOrder` also accepts SHIPPED (`src/pages/OrderHistory.jsx:79`),
  though the comment and the refusal message name only PLACED and PROCESSED.
- The successor table offers CANCELED from REACHED HUB and OUT FOR DELIVERY
  too (`src/utils/orderStatus.js:100-102`). The customer's cancel button is
  still refused for both (`OrderHistory.CancelOfferedButNotAllowed`).
- An unknown numeric status is displayed as 'Unknown' by
  `getStatusDisplayText`. The order-history card decodes it to 'PLACED', and
  the card then offers the cancel button
  (`OrderHistory.UnknownNumberShownAsPlaced`).

## Model

| member | source | states |
|---|---|---|
| OrderStatus.TablesAreInverse | src/utils/orderStatus.js:4-23 | the id-to-name and name-to-id tables are defined exactly on ids 1..7 and their names, and are mutual inverses |
| OrderStatus.NamesAreUpperCase | src/utils/orderStatus.js:4-12 | every status name is its own upper case, so upper-case lookups find it |
| OrderStatus.GetStatusId | src/utils/orderStatus.js:58-60 | a missing text gives null; otherwise the id of the status the upper-cased text names, or null when it names none |
| OrderStatus.StatusIdOfName | src/utils/orderStatus.js:58-60 | each of the seven names, as written or lower-cased, maps back to its own id |
| OrderStatus.StatusIdIgnoresCase | src/utils/orderStatus.js:58-60 | lower-casing or upper-casing the text does not change the id found |
| OrderStatus.GetStatusDisplayText | src/utils/orderStatus.js:50-55 | a number 1..7 shows its name and any other number 'Unknown'; a non-empty string is shown unchanged; a missing or empty value shows 'Unknown'; the text shown denotes the same status as the input |
| OrderStatus.GetStatusBadgeClass | src/utils/orderStatus.js:26-47 | a recognised status (id, or name in any case) gets its name's class; the default 'bg-light text-dark' is given exactly to unrecognised input |
| OrderStatus.BadgeOfIdMatchesName | src/utils/orderStatus.js:26-47 | an id and its name, in any case, get the same badge class |
| OrderStatus.IsFinalStatus | src/utils/orderStatus.js:83-86 | true exactly for DELIVERED and CANCELED, as ids 6/7 or as names in any case |
| OrderStatus.GetNextPossibleStatuses | src/utils/orderStatus.js:89-109 | empty exactly for final or unrecognised statuses; for id k in 1..5 exactly [k+1, CANCELED] in that order |
| OrderStatus.OffersForward | src/utils/orderStatus.js:93-102 | every offered successor has a larger id and is either the next status or CANCELED; no step is skipped |
| OrderStatus.CancelOfferedUntilFinal | src/utils/orderStatus.js:93-102 | CANCELED is offered from every non-final status |
| OrderStatus.RunsMoveForward | src/utils/orderStatus.js:89-109 | along any chain of offered steps the ids strictly increase, the i-th status is at least i past the first, and no chain is longer than seven |
| OrderStatus.FallbackStatuses | src/utils/orderStatus.js:70-78 | the fallback list enumerates the id-to-name table, ids 1..7 in order |
| OrderStatus.FetchAllStatuses | src/utils/orderStatus.js:63-80 | a failed request yields the fallback list; a response yields its data, or an empty list when the response has none |
| Records.RawStatus | src/pages/AdminPanel.jsx:520 | the first truthy of statusId, status and orderStatus, or id 1 (PLACED) when all are falsy; never falsy |
| Records.StatusCell | src/pages/AgentPanel.jsx:195-197 | the status cell's text denotes the same status as the order's raw status; the badge is the default exactly when that status is unrecognised; a status-less order shows PLACED with PLACED's badge |
| OrderHistory.CanCancelOrder | src/pages/OrderHistory.jsx:77-80 | true exactly for PLACED, PROCESSED and SHIPPED in any case; false for a missing status |
| OrderHistory.CancellableOffersCancel | src/pages/OrderHistory.jsx:77-80 | every status the customer may cancel has CANCELED among its successors |
| OrderHistory.CancelOfferedButNotAllowed | src/utils/orderStatus.js:99-102 | REACHED HUB and OUT FOR DELIVERY offer CANCELED as a successor, yet the customer may not cancel them |
| OrderHistory.HandleCancelOrder | src/pages/OrderHistory.jsx:83-107 | a request is sent exactly when the order is cancellable and the user confirms; it carries the order id and status 7; success is reported exactly for HTTP 200 |
| OrderHistory.CardStatus | src/pages/OrderHistory.jsx:199-202 | a missing status defaults to PLACED; ids 1..7 decode to their names; any other number decodes to PLACED; strings pass through |
| OrderHistory.UnknownNumberShownAsPlaced | src/pages/OrderHistory.jsx:199-202 | an unknown numeric status is shown on the card as a cancellable PLACED, although the shared display text says 'Unknown' and it has no successors |
| OrderHistory.GetStatusInfo | src/pages/OrderHistory.jsx:60-74 | the seven names in any case get their fixed class and text; anything else gets 'bg-dark text-white' with the raw text, or 'Unknown' when there is none |
| OrderHistory.PlacedBadgesDiffer | src/pages/OrderHistory.jsx:60-74 | the order-history badge for PLACED differs from the shared badge for PLACED |
| OrderHistory.GetProductDetails | src/pages/OrderHistory.jsx:57-58 | nothing exactly when no product's productId or id equals the argument; otherwise the first product that matches |
| AgentPanel.AssignedAgentId | src/pages/AgentPanel.jsx:48 | the first truthy of agentId, deliveryAgentId, agent.id and deliveryAgent.id; truthy exactly when one of them is |
| AgentPanel.AgentOrders | src/pages/AgentPanel.jsx:46-50 | keeps, in their original order and adding none, exactly the orders whose assigned id is truthy and string-equal to the user's id; each kept order occurs as many times as in the input |
| AgentPanel.NumberAndStringIdsMatch | src/pages/AgentPanel.jsx:49 | an order assigned by the string form of a numeric user id is kept for that user |
| AgentPanel.FirstPresentIdDecides | src/pages/AgentPanel.jsx:48-49 | when agentId is present and differs, the order is not kept, whatever the later fields hold |
| AgentPanel.AgentStatusOptions | src/pages/AgentPanel.jsx:249-267 | never offers an entry named CANCELED; fetched statuses keep their order, and each entry not named CANCELED occurs as often as it was fetched; with none fetched, ids 1..6 with their names |
| AgentPanel.FallbackListsAgree | src/pages/AgentPanel.jsx:258-266 | the options built from the fetch's fallback list equal the built-in options, and neither holds id 7 |
| AgentPanel.CancelCheckIsCaseSensitive | src/pages/AgentPanel.jsx:251 | any fetched entry spelt CANCELED in another case is still offered, though it denotes CANCELED |
| AgentPanel.OptionsIgnoreTransitions | src/pages/AgentPanel.jsx:249-267 | an order in a final status, which has no successors, is still offered PLACED: always from the built-in list, and from a fetched list whenever it holds PLACED |
| AgentPanel.UpdateOrderStatus | src/pages/AgentPanel.jsx:68-88 | an empty selection sends nothing; otherwise the request carries parseInt of the order id and of the status id; a failure alert carries the server message or the error message |
| AgentPanel.PickedOptionIsSent | src/pages/AgentPanel.jsx:243-256 | the id of any offered option, read back through parseInt, is sent unchanged, and so is a numeric order id |
| AdminPanel.CustomerIdOf | src/pages/AdminPanel.jsx:516 | customerId when truthy, else customerRefId when truthy, else customer when truthy, else 'Unknown'; never falsy |
| AdminPanel.GetCustomerUsername | src/pages/AdminPanel.jsx:84-91 | the first matching customer's username, customerUsername or Username, else 'Customer {id}'; never empty |
| AdminPanel.AdminAgentId | src/pages/AdminPanel.jsx:521 | agentId when truthy, else deliveryAgent.id when truthy, else agent.id; truthy exactly when one of them is |
| AdminPanel.GetAgentName | src/pages/AdminPanel.jsx:93-122 | names embedded in the order first: deliveryAgent.name, agent.name, deliveryAgent.agentName, agent.agentName, each taken when truthy; then the first matching agent's agentName, name, AgentName, username, else 'Agent {id}'; an unknown id gives 'Agent {id}', no id 'Not Assigned'; never empty |
| AdminPanel.DeliveryAgentIdOnlySeenByAgent | src/pages/AdminPanel.jsx:521 | an order assigned only through deliveryAgentId is on the agent's list but shows as Not Assigned to the admin |
| AdminPanel.AssignOptions | src/pages/AdminPanel.jsx:576-580 | one option per agent, in agent order, each exactly the option OptionFor gives that agent |
| AdminPanel.OptionFor | src/pages/AdminPanel.jsx:577-579 | valued agentId when truthy, else id; captioned AgentName, else agentName, else name, each taken when truthy, else 'Agent {value}'; the caption is never empty |
| AdminPanel.SelectorAndTableDisagree | src/pages/AdminPanel.jsx:578 | the selector captions an agent by AgentName while the table prefers agentName, so the same agent can carry two names |
| AdminPanel.HandleAssignAgent | src/pages/AdminPanel.jsx:201-227 | an empty agent id sends nothing; otherwise the request carries the order id and the agent id unchanged; a failure alert carries the server message or the error message |
| AdminPanel.PickedAgentIsSent | src/pages/AdminPanel.jsx:570-577 | picking an agent with an id sends a non-empty agent id, so the empty-id guard never refuses it |
| UserSlice.LocalStorage.GetItem | src/datastore/userSlice.js:5-6 | the stored text for a key, null when absent |
| UserSlice.LocalStorage.SetItem | src/datastore/userSlice.js:42-45 | the key now holds the value; the other keys are kept |
| UserSlice.LocalStorage.RemoveItem | src/datastore/userSlice.js:52-54 | exactly that key leaves the storage |
| UserSlice.InitialWorld | src/datastore/userSlice.js:4-28 | signed in with the parsed user and the stored token exactly when both keys hold non-empty text and the user parses; a parse failure removes both keys; otherwise signed out with the storage untouched |
| UserSlice.UserState.constructor | src/datastore/userSlice.js:4-28 | the state and storage after start-up are those InitialWorld describes |
| UserSlice.LoginWorld | src/datastore/userSlice.js:36-46 | signed in as the payload with the payload's token; the user is always stored, the token only when truthy; other keys are kept |
| UserSlice.UserState.LoginSuccess | src/datastore/userSlice.js:36-46 | the state and storage afterwards are those LoginWorld describes |
| UserSlice.LogoutWorld | src/datastore/userSlice.js:47-55 | signed out; exactly token, userData and mockOrders leave the storage, other keys are unchanged |
| UserSlice.UserState.Logout | src/datastore/userSlice.js:47-55 | the state and storage afterwards are those LogoutWorld describes |
| UserSlice.UpdateSession | src/datastore/userSlice.js:56-60 | no user: nothing changes; otherwise a shallow merge in which the payload's fields win and the others are kept |
| UserSlice.UserState.UpdateUserInfo | src/datastore/userSlice.js:56-60 | the session afterwards is the one UpdateSession describes |
| UserSlice.ReloadRestoresLogin | src/datastore/userSlice.js:36-46 | after a login with a truthy token, a reload restores the same user with the token as text |
| UserSlice.StaleTokenSurvivesLogin | src/datastore/userSlice.js:42-44 | a login without a token leaves the previous token stored, so a reload signs the new user in with it |
| UserSlice.ReloadAfterLogout | src/datastore/userSlice.js:47-55 | after a logout a reload starts signed out |
| UserSlice.LogoutIdempotent | src/datastore/userSlice.js:47-55 | logging out twice equals logging out once |
| UserSlice.UpdateIdempotent | src/datastore/userSlice.js:56-60 | merging the same payload twice equals merging it once |
| UserSlice.NullUserIsLoggedInWithoutUser | src/datastore/userSlice.js:8-15 | a stored JSON null user yields a session flagged signed-in without a user |
| ProtectedRoute.Decide | src/Components/ProtectedRoute.jsx:4-16 | sign-up exactly when signed out or without a user; home exactly when signed in with a required role that differs from the user's; the page otherwise |
| ProtectedRoute.SessionCheckFirst | src/Components/ProtectedRoute.jsx:7-13 | without a session the role never matters |
| ProtectedRoute.LoggedOutIsSentToSignup | src/Components/ProtectedRoute.jsx:7-9 | after a logout every guarded page redirects to sign-up |
| ProtectedRoute.LoggedInByRole | src/Components/ProtectedRoute.jsx:11-15 | after a login, a page requiring the payload's role or no role renders; one requiring another role redirects home |
| ProtectedRoute.NullUserIsSentToSignup | src/Components/ProtectedRoute.jsx:7-9 | a session restored from a null user is flagged signed in yet is sent to sign-up |
| Profile.EmailHasNoSpace | src/pages/Profile.jsx:126 | a value matching the email pattern is non-empty, has no white space, and is unchanged by trimming |
| Profile.EmailOfParts | src/pages/Profile.jsx:126 | local@domain.suffix with non-empty parts free of white space and '@' matches the pattern |
| Profile.EmailNeedsAt | src/pages/Profile.jsx:126 | a value with no '@' after its first character does not match |
| Profile.BlankHasNoDigits | src/pages/Profile.jsx:133-135 | a blank value has no digits, so the required check is met before the digit check |
| Profile.AstralCharacterIsLongEnough | src/pages/Profile.jsx:117 | a one-character name is accepted exactly when the character is above U+FFFF, which JavaScript counts as length 2 |
| Profile.FieldError | src/pages/Profile.jsx:113-143 | the required message exactly for blank values; the name is accepted exactly when its trimmed length in UTF-16 code units is at least 2, the email exactly when it matches the pattern, the phone exactly when it holds ten digits |
| Profile.ValidateField | src/pages/Profile.jsx:110-147 | only the named field's entry is set or removed; unknown names change nothing; the result is true exactly when the whole map is empty |
| Profile.Normalize | src/pages/Profile.jsx:205-224 | a sent name or email is the value with white space, and only white space, removed from both ends; a sent phone is every digit of the value, in order, with every other character dropped |
| Profile.SentValueRevalidates | src/pages/Profile.jsx:205-224 | the normalised value of a valid field is still valid and normalising again changes nothing; a valid email is sent unchanged |
| Profile.EndpointFor | src/pages/Profile.jsx:207-213 | Customer, DeliveryAgent or Agent, and Admin each select their own update endpoint; any other role selects none |
| Profile.Capitalized | src/pages/Profile.jsx:240 | the field name with its first letter upper-cased |
| Profile.FailureMessage | src/pages/Profile.jsx:247-255 | 409 and 400 have their own messages; otherwise a non-empty server message; otherwise 'Failed to update {field}. Please try again.'; never empty |
| Profile.ProfileForm.constructor | src/pages/Profile.jsx:21-33 | the empty form: not editing, no errors, no message, nothing saved, every field blank |
| Profile.ProfileForm.ShowProfile | src/pages/Profile.jsx:73-74 | the fetched fields become both the form's values and the saved values |
| Profile.ProfileForm.HandleChange | src/pages/Profile.jsx:149-163 | the typed value is stored and the message cleared; the field is re-validated exactly when it is the one being edited |
| Profile.ProfileForm.HandleEdit | src/pages/Profile.jsx:165-169 | editing the given field with the message cleared; values and errors are kept |
| Profile.ProfileForm.HandleCancel | src/pages/Profile.jsx:171-178 | edit mode left, message and errors cleared, the values restored from the saved copy |
| Profile.ProfileForm.HandleSubmit | src/pages/Profile.jsx:180-259 | no user or no field: nothing; failed validation: no request, the fix-errors message, and the error map with only the edited field re-validated (never empty); unchanged value: no request, 'No changes detected.' and no errors; otherwise the normalised value to the role's endpoint, then the success message, no errors and the saved copy updated, or the failure message with no errors |
| Cart.QuantityAction | src/pages/Cart.jsx:21-27 | updateQuantity with parseInt of the entry exactly when the entry is above zero as JavaScript compares it, removeFromCart otherwise; a whole number, typed or not, is kept exactly |
| Cart.QuantityParsesBack | src/pages/Cart.jsx:22-23 | parseInt of a positive whole quantity, numeric or typed, reads back the number the comparison saw |
| Cart.TypedDecimalsTruncate | src/pages/Cart.jsx:21-24 | a typed '0.5' passes the comparison and updates the line to quantity 0; '2.5' to 2, '1e3' to 1, 'Infinity' to NaN |
| Cart.DecrementToZeroRemoves | src/pages/Cart.jsx:21-27 | reaching zero, or clearing the input, removes the line |
| Cart.TotalPrice | src/pages/Cart.jsx:33-35 | zero for an empty cart; never negative when quantities and prices are not |
| Cart.TotalOfConcat | src/pages/Cart.jsx:33-35 | the total of two carts together is the sum of their totals |
| Cart.TotalOfOne | src/pages/Cart.jsx:33-35 | a one-line cart totals quantity times price |
| Cart.OrderPayloadOf | src/pages/Cart.jsx:54-62 | customerId is the user's id; phone and address as given; one line per item, same order, with its id and quantity |
| Cart.SuccessIgnoresCase | src/pages/Cart.jsx:68-69 | the success test ignores case |
| Cart.UnsuccessfulPasses | src/pages/Cart.jsx:68-69 | any message containing 'Unsuccessful' passes the success test |
| Cart.CartPage.HandleQuantityChange | src/pages/Cart.jsx:21-27 | exactly the action QuantityAction chooses is dispatched |
| Cart.CartPage.HandlePlaceOrder | src/pages/Cart.jsx:48-77 | nothing is sent without a user, items, a phone and an address; otherwise the payload OrderPayloadOf builds; the cart is cleared and the order marked placed exactly on a success response |
| Home.FirstNonEmpty | src/pages/Home.jsx:48-49 | the first field when non-empty, else the second, else '' |
| Home.FilteredProducts | src/pages/Home.jsx:47-54 | keeps, in catalogue order and adding none, exactly the products whose lower-cased name or description contains the lower-cased term; each kept product occurs as many times as in the catalogue |
| Home.EmptySearchKeepsAll | src/pages/Home.jsx:50-53 | an empty term keeps every product |
| Home.SearchIgnoresCase | src/pages/Home.jsx:50-53 | upper-casing the term does not change the result |
| Home.NamedProductIsShown | src/pages/Home.jsx:51 | a product whose name contains the term is shown |
| Home.LoadErrorMessage | src/pages/Home.jsx:33-41 | 404, 500, a network error or no response, and every other failure each get their own message |
| Home.HomePage.constructor | src/pages/Home.jsx:8-10 | no products, no error, loading |
| Home.HomePage.FetchProducts | src/pages/Home.jsx:17-45 | a non-empty catalogue is shown with no error; an empty one shows no products and the no-products message; a failure shows no products and LoadErrorMessage; loading ends |
| Js.FilterIsSubsequence | src/pages/Home.jsx:47 | Array.prototype.filter keeps elements in order and adds none |
| Js.FilterCounts | src/pages/Home.jsx:47 | Array.prototype.filter keeps every copy of a passing element and none of a failing one |
| Js.Find | src/pages/OrderHistory.jsx:58 | Array.prototype.find gives the first element passing the test, or nothing |
| Js.ParseIntOfDecimal | src/pages/AgentPanel.jsx:77 | parseInt reads back the decimal text of any integer |
| Js.NumberAgreesWithParseInt | src/pages/Cart.jsx:22-23 | when Number accepts an integer string, parseInt gives the same number |
| Js.NumberIsPositiveOfInteger | src/pages/Cart.jsx:22 | on integer text the modelled `Number(s) > 0` is the comparison of the integer with zero |
| Js.PositiveLiterals | src/pages/Cart.jsx:22 | '0.5', '2.5', '1e3' and 'Infinity' are above zero under `Number` |
| Js.ParseIntOfLiterals | src/pages/Cart.jsx:23 | parseInt stops at the first non-digit: '0.5' gives 0, '2.5' 2, '1e3' 1, 'Infinity' NaN |
| Js.TrimIdempotent | src/pages/Profile.jsx:206 | trimming twice equals trimming once |
| Js.TrimIsTrimOf | src/pages/Profile.jsx:206 | trim removes white space, and only white space, from both ends |
| Js.Utf16Length | src/pages/Profile.jsx:117 | the length JavaScript reports: one unit per character below U+10000 and two for one above; between the character count and twice it |
| Js.Utf16LengthOfConcat | src/pages/Profile.jsx:117 | the length of a concatenation is the sum of the lengths, so with the one-character case every string's length is fixed |

## Left out

- Network calls, `alert`, `confirm`, `navigate` and timers are not modelled as effects. Their results are parameters: the response, or the user's answer to the dialog. The alert texts appear only where the contract states them.
- JSON encoding and decoding are parameters. A stored user that parses to something other than an object or `null` is not modelled.
- `undefined` and `null` are the single value `Missing`.
- Case folding covers ASCII letters only.
- Prices and quantities are whole numbers. Floating-point money, `parseFloat` and `toFixed` are not modelled.
- Js.NumberIsPositive: a decimal literal too small to be represented, such as '1e-400', is 0 in JavaScript but counts as positive here, because the model looks only at the digits.
- Cart.QuantityAction: promises a positive quantity only for whole-number entries. A typed fraction such as '0.5' passes the comparison, and the code then dispatches parseInt's 0.
- Js.Value: `Num` is an unbounded integer, while JavaScript numbers are doubles. Fractional ids and statuses cannot be represented, and `String(n)` is modelled as plain decimal digits, although JavaScript prints integers of 1e21 and above in exponent form. Js.ParseIntOfDecimal therefore describes JavaScript only for integers below that bound.
- OrderStatus.GetStatusId: only a string or a missing argument is modelled. A numeric argument throws in the code, because numbers have no `toUpperCase`.
- The server-side rules are not part of this model. The client does not contain them: transition enforcement, role permissions and terminal-state locks. The client only restricts what it offers.
- The store's cart slice is not part of this model. The page's actions are recorded in a log, not applied.
- Loading fetches are not modelled: the order-history `fetchData`, the panels' refreshes and the profile fetch's field fallbacks. Only their final step is modelled (Profile.ProfileForm.ShowProfile, Home.HomePage.FetchProducts).
- The loading flags are not modelled, except on the home page.
- Cart.CartPage.HandlePlaceOrder: the alert text after a failed order request is not modelled. The contract states only that the cart is untouched.
- Profile.ProfileForm.HandleEdit: its requires limits the field to name, email and phone. Those are the only fields the page's edit buttons pass.
- Profile.ProfileForm.HandleSubmit: when the edited field has no value, the code throws inside `validateField`. This is modelled as a submit that changes nothing.
- Order-history rendering details are not modelled: dates, prices, and the per-item unit price.
- OrderHistory.HandleCancelOrder: only a response's status code is modelled. The HTTP client throws on every status outside 200-299, and a request that throws ends the handler without an alert in the code. That path is not modelled: `CancelFailed` matches the code only for a 2xx status other than 200, while the model also gives it for a status such as 404.
- AdminPanel.CustomerIdOf: `order.customer` is a `Js.Value`, which cannot hold an object. When `customer` is an object without a truthy id, the code takes the object itself and the page shows 'Customer [object Object]'. The model cannot represent that order, and for a missing `customer` it shows 'Unknown'.

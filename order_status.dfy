/**
 * The order-status vocabulary shared by every page: the id-to-name and
 * name-to-id tables, the badge and display mappings, the final-state test and
 * the forward-only table of next statuses. A raw status is either a number
 * (the new id format) or a string (the old name format), in any case.
 */
module OrderStatus {
  import opened Js

  /** Status id to name. */
  const StatusNames: map<int, string> := map[
    1 := "PLACED", 2 := "PROCESSED", 3 := "SHIPPED", 4 := "REACHED HUB",
    5 := "OUT FOR DELIVERY", 6 := "DELIVERED", 7 := "CANCELED"]

  /** Status name to id. */
  const StatusIds: map<string, int> := map[
    "PLACED" := 1, "PROCESSED" := 2, "SHIPPED" := 3, "REACHED HUB" := 4,
    "OUT FOR DELIVERY" := 5, "DELIVERED" := 6, "CANCELED" := 7]

  const Placed := 1
  const Delivered := 6
  const Canceled := 7

  /** A `{ id, status }` pair, as in the status list and the next-status table. */
  datatype StatusEntry = StatusEntry(id: int, status: string)

  /** Which of the seven statuses a raw status denotes: a number by its id, a
      string by its upper-cased name. This is the meaning the mappings below
      are specified against. */
  function Recognize(v: Value): Option<int> {
    match v
    case Num(n) => if n in StatusNames then Some(n) else None
    case Text(s) => if ToUpper(s) in StatusIds then Some(StatusIds[ToUpper(s)]) else None
    case Missing => None
  }

  /** The two tables are mutual inverses over the ids 1..7. */
  lemma TablesAreInverse()
    ensures forall i :: i in StatusNames <==> 1 <= i <= 7
    ensures forall i :: i in StatusNames ==> StatusNames[i] in StatusIds && StatusIds[StatusNames[i]] == i
    ensures forall s :: s in StatusIds ==> StatusIds[s] in StatusNames && StatusNames[StatusIds[s]] == s
  {
  }

  /** A string without lower-case letters is its own upper case. */
  lemma UpperOfNoLower(s: string)
    requires forall k :: 0 <= k < |s| ==> !('a' <= s[k] <= 'z')
    ensures ToUpper(s) == s
  {
    assert forall k :: 0 <= k < |s| ==> ToUpper(s)[k] == s[k];
  }

  /** The names are written in upper case, so upper-casing them changes nothing. */
  lemma NamesAreUpperCase()
    ensures forall i :: i in StatusNames ==> ToUpper(StatusNames[i]) == StatusNames[i]
    ensures ToUpper("Unknown") == "UNKNOWN"
  {
    UpperOfNoLower("PLACED");
    UpperOfNoLower("PROCESSED");
    UpperOfNoLower("SHIPPED");
    UpperOfNoLower("REACHED HUB");
    UpperOfNoLower("OUT FOR DELIVERY");
    UpperOfNoLower("DELIVERED");
    UpperOfNoLower("CANCELED");
    var u := "Unknown";
    assert forall k :: 0 <= k < |u| ==> ToUpper(u)[k] == "UNKNOWN"[k];
  }

  /** `getStatusId`: the id for a status name in any case, `None` for `null`. */
  function GetStatusId(statusText: Option<string>): (r: Option<int>)
    ensures statusText.None? ==> r.None?
    ensures statusText.Some? ==> r == Recognize(Text(statusText.value))
  {
    match statusText
    case None => None
    case Some(s) =>
      var upper := ToUpper(s);
      if upper in StatusIds && Truthy(Num(StatusIds[upper])) then Some(StatusIds[upper]) else None
  }

  /** Every name, written as in the table or in lower case, maps back to its id. */
  lemma StatusIdOfName(i: int)
    requires i in StatusNames
    ensures GetStatusId(Some(StatusNames[i])) == Some(i)
    ensures GetStatusId(Some(ToLower(StatusNames[i]))) == Some(i)
  {
    NamesAreUpperCase();
    TablesAreInverse();
    UpperOfLower(StatusNames[i]);
  }

  /** The lookup does not depend on how the text is cased. */
  lemma StatusIdIgnoresCase(s: string)
    ensures GetStatusId(Some(ToLower(s))) == GetStatusId(Some(s))
    ensures GetStatusId(Some(ToUpper(s))) == GetStatusId(Some(s))
  {
    UpperOfLower(s);
    assert ToUpper(ToUpper(s)) == ToUpper(s) by {
      assert forall i :: 0 <= i < |s| ==> ToUpper(ToUpper(s))[i] == ToUpper(s)[i];
    }
  }

  /** `getStatusDisplayText`. The text shown always denotes the same status as
      the raw value it was made from. */
  function GetStatusDisplayText(status: Value): (r: string)
    ensures r != ""
    ensures status.Num? ==> r == if status.n in StatusNames then StatusNames[status.n] else "Unknown"
    ensures status.Text? && status.s != "" ==> r == status.s
    ensures !Truthy(status) ==> r == "Unknown"
    ensures Recognize(Text(r)) == Recognize(status)
  {
    NamesAreUpperCase();
    TablesAreInverse();
    match status
    case Num(n) => if n in StatusNames then StatusNames[n] else "Unknown"
    case Text(s) => if s != "" then s else "Unknown"
    case Missing => "Unknown"
  }

  const DefaultBadge := "bg-light text-dark"

  /** The `switch` of `getStatusBadgeClass` on an upper-cased name. */
  function BadgeForName(upper: string): string {
    if upper == "PLACED" then "bg-info text-white"
    else if upper == "PROCESSED" then "bg-primary text-white"
    else if upper == "SHIPPED" then "bg-warning text-dark"
    else if upper == "REACHED HUB" then "bg-secondary text-white"
    else if upper == "OUT FOR DELIVERY" then "bg-warning text-dark"
    else if upper == "DELIVERED" then "bg-success text-white"
    else if upper == "CANCELED" then "bg-danger text-white"
    else DefaultBadge
  }

  /** `getStatusBadgeClass`: total; a recognised status gets the class of its
      name, and exactly the unrecognised inputs get the default class. */
  function GetStatusBadgeClass(status: Value): (r: string)
    ensures Recognize(status).Some? ==> r == BadgeForName(StatusNames[Recognize(status).value])
    ensures r == DefaultBadge <==> Recognize(status).None?
  {
    NamesAreUpperCase();
    TablesAreInverse();
    var upper :=
      match status
      case Text(s) => Some(ToUpper(s))
      case Num(n) => if n in StatusNames then Some(ToUpper(StatusNames[n])) else None
      case Missing => None;
    match upper
    case None => DefaultBadge
    case Some(u) => BadgeForName(u)
  }

  /** An id and its name, in any case, get the same badge. */
  lemma BadgeOfIdMatchesName(i: int, s: string)
    requires i in StatusNames && ToUpper(s) == StatusNames[i]
    ensures GetStatusBadgeClass(Num(i)) == GetStatusBadgeClass(Text(s))
    ensures GetStatusBadgeClass(Num(i)) == GetStatusBadgeClass(Text(ToLower(s)))
  {
    TablesAreInverse();
    UpperOfLower(s);
  }

  /** `isFinalStatus`: DELIVERED or CANCELED, given as an id or a name in any case. */
  function IsFinalStatus(status: Value): (r: bool)
    ensures r <==> Recognize(status) == Some(Delivered) || Recognize(status) == Some(Canceled)
  {
    TablesAreInverse();
    var text := ToUpper(GetStatusDisplayText(status));
    text == "DELIVERED" || text == "CANCELED"
  }

  /** `getNextPossibleStatuses`: nothing from a final or unrecognised status;
      from status k in 1..5, the next status k+1 and then CANCELED. */
  function GetNextPossibleStatuses(currentStatus: Value): (r: seq<StatusEntry>)
    ensures r == [] <==> Recognize(currentStatus).None? || IsFinalStatus(currentStatus)
    ensures r != [] ==>
              var k := Recognize(currentStatus).value;
              && 1 <= k <= 5
              && r == [StatusEntry(k + 1, StatusNames[k + 1]), StatusEntry(Canceled, StatusNames[Canceled])]
  {
    TablesAreInverse();
    var text := ToUpper(GetStatusDisplayText(currentStatus));
    if text == "PLACED" then [StatusEntry(2, "PROCESSED"), StatusEntry(7, "CANCELED")]
    else if text == "PROCESSED" then [StatusEntry(3, "SHIPPED"), StatusEntry(7, "CANCELED")]
    else if text == "SHIPPED" then [StatusEntry(4, "REACHED HUB"), StatusEntry(7, "CANCELED")]
    else if text == "REACHED HUB" then [StatusEntry(5, "OUT FOR DELIVERY"), StatusEntry(7, "CANCELED")]
    else if text == "OUT FOR DELIVERY" then [StatusEntry(6, "DELIVERED"), StatusEntry(7, "CANCELED")]
    else if text == "DELIVERED" || text == "CANCELED" then []
    else []
  }

  /** Status `b` is offered as a next status of status id `a`. */
  predicate Offers(a: int, b: int) {
    var next := GetNextPossibleStatuses(Num(a));
    exists i :: 0 <= i < |next| && next[i].id == b
  }

  /** Every offered step moves forward by exactly one status or to CANCELED;
      a final status offers nothing. */
  lemma OffersForward(a: int, b: int)
    requires Offers(a, b)
    ensures 1 <= a <= 5 && a < b && (b == a + 1 || b == Canceled)
  {
  }

  /** CANCELED is offered from every status that is not final. */
  lemma CancelOfferedUntilFinal(a: int)
    requires a in StatusNames && !IsFinalStatus(Num(a))
    ensures Offers(a, Canceled)
  {
    var next := GetNextPossibleStatuses(Num(a));
    assert next[1].id == Canceled;
  }

  /** A sequence of statuses in which each one is offered after the previous. */
  ghost predicate IsRun(run: seq<int>) {
    forall i :: 0 <= i < |run| - 1 ==> Offers(run[i], run[i + 1])
  }

  /** Following the offered steps never revisits a status: ids strictly grow,
      so no run is longer than the seven statuses. */
  lemma {:induction false} RunsMoveForward(run: seq<int>)
    requires |run| > 0 && run[0] in StatusNames && IsRun(run)
    ensures forall i, j :: 0 <= i < j < |run| ==> run[i] < run[j]
    ensures forall i :: 0 <= i < |run| ==> run[0] + i <= run[i] <= 7
    ensures |run| <= 7
    decreases |run|
  {
    if |run| > 1 {
      var rest := run[1..];
      assert IsRun(rest) by {
        forall i | 0 <= i < |rest| - 1 ensures Offers(rest[i], rest[i + 1]) {
          assert Offers(run[i + 1], run[i + 2]);
        }
      }
      assert Offers(run[0], run[1]);
      OffersForward(run[0], run[1]);
      RunsMoveForward(rest);
      forall i, j | 0 <= i < j < |run| ensures run[i] < run[j] {
        if i > 0 {
          assert run[i] == rest[i - 1] && run[j] == rest[j - 1];
        } else {
          assert run[j] == rest[j - 1];
        }
      }
      forall i | 0 <= i < |run| ensures run[0] + i <= run[i] <= 7 {
        if i > 0 {
          assert run[i] == rest[i - 1];
        }
      }
      TablesAreInverse();
      assert run[0] + (|run| - 1) <= run[|run| - 1] <= 7;
    }
  }

  /** The default status list `fetchAllStatuses` returns when the request fails:
      the id-to-name table, in id order. */
  function FallbackStatuses(): (r: seq<StatusEntry>)
    ensures |r| == 7
    ensures forall i :: 0 <= i < |r| ==> r[i].id == i + 1 && r[i].status == StatusNames[i + 1]
  {
    [ StatusEntry(1, "PLACED"), StatusEntry(2, "PROCESSED"), StatusEntry(3, "SHIPPED"),
      StatusEntry(4, "REACHED HUB"), StatusEntry(5, "OUT FOR DELIVERY"),
      StatusEntry(6, "DELIVERED"), StatusEntry(7, "CANCELED") ]
  }

  /** What the status-list request came back with. */
  datatype StatusResponse = Responded(data: Option<seq<StatusEntry>>) | RequestFailed

  /** The decision of `fetchAllStatuses`: the response's data (or an empty list
      when it has none), and the fallback list when the request failed. */
  function FetchAllStatuses(response: StatusResponse): (r: seq<StatusEntry>)
    ensures response.RequestFailed? ==> r == FallbackStatuses()
    ensures response.Responded? && response.data.Some? ==> r == response.data.value
    ensures response == Responded(None) ==> r == []
  {
    match response
    case RequestFailed => FallbackStatuses()
    case Responded(data) => match data case Some(d) => d case None => []
  }
}

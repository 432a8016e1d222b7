/** The violation-history page (frontend/src/features/ViolationHistoryPage/index.tsx):
    the badge and summary helpers, the in-place update of a detail's status
    after review, and the paging and filter state kept in the query string. */
module ViolationHistory {
  import opened Common
  import RestApi

  datatype Variant = Warning | Info | Success | Default

  /** `getStatusVariant`: the badge of a violation's status. */
  function StatusVariant(status: string): (v: Variant)
    ensures v == Warning <==> status == "pending"
    ensures v == Info <==> status == "reviewed"
    ensures v == Success <==> status == "resolved"
    ensures v == Default <==> status !in {"pending", "reviewed", "resolved"}
  {
    match status
    case "pending" => Warning
    case "reviewed" => Info
    case "resolved" => Success
    case _ => Default
  }

  /** The badge of a detail's review status. */
  function DetailVariant(status: string): (v: Variant)
    ensures v == Success <==> status == "confirmed"
    ensures v == Default <==> status == "dismissed"
    ensures v == Warning <==> status != "confirmed" && status != "dismissed"
  {
    if status == "confirmed" then Success else if status == "dismissed" then Default else Warning
  }

  /** Confirm and Dismiss are offered only for a detail still under review;
      exactly then its badge is a warning. */
  predicate OffersReview(status: string)
  {
    status != "confirmed" && status != "dismissed"
  }

  lemma ReviewOfferedIffWarning(status: string)
    ensures OffersReview(status) <==> DetailVariant(status) == Warning
  {
  }

  /** A violation detail as the page shows it: `typeName` is
      `violation_type?.name`, absent when the type or its name is. */
  datatype DetailView = DetailView(id: int, status: string, typeName: Option<string>)

  const Unknown := "Unknown"

  /** `detail.violation_type?.name || "Unknown"`. */
  function TypeName(d: DetailView): (name: string)
    ensures name != ""
    ensures Truthy(d.typeName) ==> name == d.typeName.value
    ensures !Truthy(d.typeName) ==> name == Unknown
  {
    if Truthy(d.typeName) then d.typeName.value else Unknown
  }

  /** `join(", ")`. */
  function JoinComma(names: seq<string>): (s: string)
    requires |names| >= 1
  {
    if |names| == 1 then names[0] else names[0] + ", " + JoinComma(names[1..])
  }

  function TypeNames(details: seq<DetailView>): (names: seq<string>)
    ensures |names| == |details|
    ensures forall k :: 0 <= k < |details| ==> names[k] == TypeName(details[k])
  {
    seq(|details|, k requires 0 <= k < |details| => TypeName(details[k]))
  }

  /** `getViolationTypes`: "Unknown" without details; otherwise each
      detail's type name, in order, separated by ", ". */
  function ViolationTypes(details: Option<seq<DetailView>>): (s: string)
    ensures details.None? || details == Some([]) ==> s == Unknown
    ensures details.Some? && details.value != [] ==> s == JoinComma(TypeNames(details.value))
  {
    if details.None? || details.value == [] then Unknown else JoinComma(TypeNames(details.value))
  }

  /** A summary names one type per detail: split at the commas, it has as
      many pieces as there are details (when no name holds a comma), the
      first piece being the first detail's type. */
  lemma {:induction false} OneEntryPerDetail(names: seq<string>)
    requires |names| >= 1
    requires forall k :: 0 <= k < |names| ==> ',' !in names[k]
    ensures |Split(JoinComma(names), ',')| == |names|
    ensures Split(JoinComma(names), ',')[0] == names[0]
  {
    SplitWithoutSep(names[0], ',');
    if |names| > 1 {
      var rest := names[1..];
      OneEntryPerDetail(rest);
      var tail := " " + JoinComma(rest);
      assert JoinComma(names) == names[0] + [','] + tail;
      SplitConcat(names[0], tail, ',');
      SplitConsOther(' ', JoinComma(rest), ',');
      assert [' '] + JoinComma(rest) == tail;
    }
  }

  /** The review dialog's local update of its details: the detail with that
      id takes the new status; every detail keeps its place and everything
      else. Without loaded details nothing changes. */
  function UpdateDetailStatus(details: Option<seq<DetailView>>, id: int, newStatus: string): (r: Option<seq<DetailView>>)
    ensures r.None? <==> details.None?
    ensures details.Some? ==> |r.value| == |details.value|
    ensures details.Some? ==> forall k :: 0 <= k < |details.value| ==>
      && r.value[k].id == details.value[k].id
      && r.value[k].typeName == details.value[k].typeName
      && (details.value[k].id == id ==> r.value[k].status == newStatus)
      && (details.value[k].id != id ==> r.value[k] == details.value[k])
  {
    if details.None? then None
    else
      var ds := details.value;
      Some(seq(|ds|, k requires 0 <= k < |ds| => if ds[k].id == id then ds[k].(status := newStatus) else ds[k]))
  }

  /** Repeating an update changes nothing more, and an update for an id no
      detail has changes nothing at all. */
  lemma UpdateDetailStatusStable(details: Option<seq<DetailView>>, id: int, newStatus: string)
    ensures UpdateDetailStatus(UpdateDetailStatus(details, id, newStatus), id, newStatus)
         == UpdateDetailStatus(details, id, newStatus)
    ensures details.Some? && (forall k :: 0 <= k < |details.value| ==> details.value[k].id != id) ==>
      UpdateDetailStatus(details, id, newStatus) == details
  {
    var once := UpdateDetailStatus(details, id, newStatus);
    if details.Some? {
      var twice := UpdateDetailStatus(once, id, newStatus);
      assert twice.value == once.value;
      if forall k :: 0 <= k < |details.value| ==> details.value[k].id != id {
        assert once.value == details.value;
      }
    }
  }

  const DetailUpdateFailed := "Failed to update violation detail status"

  /** The review dialog's details and the effects shown, once the handler is done. */
  datatype ReviewResult = ReviewResult(details: Option<seq<DetailView>>, effects: seq<RestApi.Effect>)

  /** `handleUpdateDetailStatus`: the update goes out through `callAPI`.
      Unless that rejects, the success toast shows and the detail takes the
      new status; a session expiry resolves `callAPI` and so takes this path
      too. On a rejection the failure toast shows and the details stay. */
  function HandleUpdateDetailStatus<T>(settled: RestApi.Settled<T>, details: Option<seq<DetailView>>,
                                       id: int, newStatus: string): (r: ReviewResult)
    ensures var call := RestApi.CallAPI(settled, RestApi.CallArgs(None, false));
      && (!call.result.Rejected? ==>
            r.details == UpdateDetailStatus(details, id, newStatus)
            && r.effects == call.effects + [RestApi.Toast("Violation detail " + newStatus)])
      && (call.result.Rejected? ==>
            r.details == details && r.effects == call.effects + [RestApi.Toast(DetailUpdateFailed)])
  {
    var call := RestApi.CallAPI(settled, RestApi.CallArgs(None, false));
    if call.result.Rejected? then ReviewResult(details, call.effects + [RestApi.Toast(DetailUpdateFailed)])
    else ReviewResult(UpdateDetailStatus(details, id, newStatus), call.effects + [RestApi.Toast("Violation detail " + newStatus)])
  }

  /** When the session has expired, the dialog still shows the new status and
      the success toast, right after the session-expired toast and the
      redirect to the login page. */
  lemma ExpiredSessionStillUpdates<T>(e: RestApi.ApiError, details: Option<seq<DetailView>>, id: int, newStatus: string)
    requires e.status == Some(401)
    ensures var r := HandleUpdateDetailStatus<T>(RestApi.Failed(e), details, id, newStatus);
      && r.details == UpdateDetailStatus(details, id, newStatus)
      && r.effects == [RestApi.Toast(RestApi.SessionExpired), RestApi.Navigate(RestApi.LoginRoute),
                       RestApi.Toast("Violation detail " + newStatus)]
  {
  }


  const DefaultPage := 1
  const DefaultPerPage := 12
  const AllStatuses := "all"

  /** The request of `fetchViolations`: the status only when a filter is set. */
  datatype ListParams = ListParams(page: int, perPage: int, status: Option<string>)

  /** The page's paging and filter state. */
  class HistoryPage {
    var page: int
    var perPage: int
    var statusFilter: Option<string>
    var totalPages: int

    /** The query string's page and per_page, or 1 and 12; no filter; one page. */
    constructor (pageParam: Option<int>, perPageParam: Option<int>)
      ensures page == (if pageParam.Some? then pageParam.value else DefaultPage)
      ensures perPage == (if perPageParam.Some? then perPageParam.value else DefaultPerPage)
      ensures statusFilter.None? && totalPages == 1
    {
      page := if pageParam.Some? then pageParam.value else DefaultPage;
      perPage := if perPageParam.Some? then perPageParam.value else DefaultPerPage;
      statusFilter := None;
      totalPages := 1;
    }

    function Params(): (p: ListParams)
      reads this
      ensures p.page == page && p.perPage == perPage
      ensures p.status.Some? <==> Truthy(statusFilter)
      ensures p.status.Some? ==> p.status == statusFilter
    {
      ListParams(page, perPage, if Truthy(statusFilter) then statusFilter else None)
    }

    predicate PreviousDisabled()
      reads this
    {
      page <= 1
    }

    predicate NextDisabled()
      reads this
    {
      page >= totalPages
    }

    /** The status filter: "all" clears it; any choice goes back to page 1. */
    method ChooseStatus(value: string)
      modifies this
      ensures statusFilter == (if value == AllStatuses then None else Some(value))
      ensures page == 1 && perPage == old(perPage) && totalPages == old(totalPages)
    {
      statusFilter := if value == AllStatuses then None else Some(value);
      page := 1;
    }

    /** A new page size goes back to page 1 and keeps the filter. */
    method ChoosePerPage(size: int)
      modifies this
      ensures perPage == size && page == 1
      ensures statusFilter == old(statusFilter) && totalPages == old(totalPages)
    {
      perPage := size;
      page := 1;
    }

    /** The Previous button: one page back, unless it is disabled. */
    method Previous()
      modifies this
      ensures old(PreviousDisabled()) ==> page == old(page)
      ensures !old(PreviousDisabled()) ==> page == old(page) - 1 && page >= 1
      ensures perPage == old(perPage) && statusFilter == old(statusFilter) && totalPages == old(totalPages)
    {
      if !PreviousDisabled() {
        page := page - 1;
      }
    }

    /** The Next button: one page on, unless it is disabled. */
    method Next()
      modifies this
      ensures old(NextDisabled()) ==> page == old(page)
      ensures !old(NextDisabled()) ==> page == old(page) + 1 && page <= totalPages
      ensures perPage == old(perPage) && statusFilter == old(statusFilter) && totalPages == old(totalPages)
    {
      if !NextDisabled() {
        page := page + 1;
      }
    }

    /** A successful list request stores the server's last page. */
    method Loaded(lastPage: int)
      modifies this
      ensures totalPages == lastPage
      ensures page == old(page) && perPage == old(perPage) && statusFilter == old(statusFilter)
    {
      totalPages := lastPage;
    }
  }

  /** Paging with the buttons never leaves the range 1 .. totalPages once
      inside it. */
  method PagingStaysInRange(p: HistoryPage, forward: bool)
    requires 1 <= p.page <= p.totalPages
    modifies p
    ensures 1 <= p.page <= p.totalPages
  {
    if forward {
      p.Next();
    } else {
      p.Previous();
    }
  }
}

/** The staff list of contact requests (src/pages/ContactRequests.jsx):
    paged and filtered fetches, the page count, status changes and deletions
    applied to the list only after the store confirms them, the filter that
    restarts paging, the "Show All Requests" button that does not, and the
    Previous/Next buttons. */
module Triage {
  import opened Wrappers
  import opened Text
  import opened ContactService

  /** Records per page (`useState(10)`, never changed). */
  const PageSize := 10

  /** The filter value that adds no condition. */
  const AllStatuses := "all"

  // ---------------------------------------------------------------------
  // Fetch parameters and the page count

  /** The caller's part of a fetch for `page` under filter `status`: a limit
      of one page at that page's offset, and a status condition unless the
      filter is "all". */
  function PageParams(page: int, status: string, pageSize: int): (r: Params)
    ensures r.Keys == {"pagingInfo"} + (if status != AllStatuses then {"where"} else {})
    ensures r["pagingInfo"] == PagingInfo(Paging(pageSize, Some((page - 1) * pageSize)))
    ensures "where" in r <==> status != AllStatuses
    ensures "where" in r ==> r["where"] == Where([Condition("status", "equals", status)])
  {
    var paging := map["pagingInfo" := PagingInfo(Paging(pageSize, Some((page - 1) * pageSize)))];
    if status != AllStatuses then paging["where" := Where([Condition("status", "equals", status)])]
    else paging
  }

  /** The complete request of a list fetch: the service's field list and
      newest-first order, one page at offset `(page - 1) * pageSize`, and a
      `status equals` condition exactly when the filter is not "all". */
  lemma FetchRequestShape(page: int, status: string, pageSize: int)
    ensures var p := RequestParams(PageParams(page, status, pageSize));
      && p.Keys == {"fields", "orderBy", "pagingInfo"} + (if status != AllStatuses then {"where"} else {})
      && p["fields"] == Fields(FieldList)
      && p["orderBy"] == OrderBy([Order("CreatedOn", "desc")])
      && p["pagingInfo"] == PagingInfo(Paging(pageSize, Some((page - 1) * pageSize)))
      && ("where" in p <==> status != AllStatuses)
      && (status != AllStatuses ==> p["where"] == Where([Condition("status", "equals", status)]))
  {
  }

  /** `Math.ceil(t / p)` for a positive `p`: the least `q` with `t <= q * p`. */
  function CeilDiv(t: int, p: int): (q: int)
    requires p > 0
    ensures (q - 1) * p < t <= q * p
  {
    var d := (-t) / p;
    assert -t == d * p + (-t) % p;
    -d
  }

  /** `response.total || response.data.length`: a total of 0 or none falls back
      to the page length. */
  function TotalRecords(total: Option<int>, dataLength: nat): (n: int)
    ensures total.Some? && total.value != 0 ==> n == total.value
    ensures total.None? || total.value == 0 ==> n == dataLength
  {
    if total.Some? && total.value != 0 then total.value else dataLength
  }

  /** The page count set after a fetch that returned data. It covers every
      record and is the least that does: with `n` records there are pages
      enough for them and one page fewer would not do; an empty page with no
      total gives 0 pages. */
  function TotalPages(total: Option<int>, dataLength: nat): (pages: int)
    ensures var n := TotalRecords(total, dataLength);
      (pages - 1) * PageSize < n <= pages * PageSize
    ensures total.None? && dataLength == 0 ==> pages == 0
    ensures TotalRecords(total, dataLength) > 0 ==> pages >= 1
  {
    CeilDiv(TotalRecords(total, dataLength), PageSize)
  }

  /** Twelve records under a filter make two pages of ten. */
  lemma TwelveRecordsTwoPages()
    ensures TotalPages(Some(12), 10) == 2
  {
  }

  // ---------------------------------------------------------------------
  // Local list edits

  /** `prev.map(req => req.Id === id ? { ...req, status } : req)`. */
  function ApplyStatus(list: seq<ContactRecord>, id: int, status: string): (r: seq<ContactRecord>)
    ensures |r| == |list|
    ensures forall i :: 0 <= i < |r| && list[i].Id == id ==> r[i] == list[i].(status := status)
    ensures forall i :: 0 <= i < |r| && list[i].Id != id ==> r[i] == list[i]
  {
    if list == [] then []
    else [if list[0].Id == id then list[0].(status := status) else list[0]] + ApplyStatus(list[1..], id, status)
  }

  /** Number of entries with the given `Id`. */
  function CountId(list: seq<ContactRecord>, id: int): nat
  {
    if list == [] then 0 else (if list[0].Id == id then 1 else 0) + CountId(list[1..], id)
  }

  /** `prev.filter(req => req.Id !== id)`: no entry with that `Id` is left,
      every other entry is, and the list shrinks by the number removed. */
  function RemoveId(list: seq<ContactRecord>, id: int): (r: seq<ContactRecord>)
    ensures forall x :: x in r <==> x in list && x.Id != id
    ensures |r| == |list| - CountId(list, id)
  {
    if list == [] then []
    else (if list[0].Id == id then [] else [list[0]]) + RemoveId(list[1..], id)
  }

  /** Deleting keeps the order of the rest: the filter distributes over concatenation. */
  lemma {:induction false} RemoveIdAppend(a: seq<ContactRecord>, b: seq<ContactRecord>, id: int)
    ensures RemoveId(a + b, id) == RemoveId(a, id) + RemoveId(b, id)
  {
    if a != [] {
      assert (a + b)[1..] == a[1..] + b;
      RemoveIdAppend(a[1..], b, id);
    } else {
      assert a + b == b;
    }
  }

  /** Deleting an `Id` that is not listed leaves the list as it is. */
  lemma {:induction false} RemoveIdAbsent(list: seq<ContactRecord>, id: int)
    requires forall i :: 0 <= i < |list| ==> list[i].Id != id
    ensures RemoveId(list, id) == list
  {
    if list != [] {
      RemoveIdAbsent(list[1..], id);
    }
  }

  // ---------------------------------------------------------------------
  // The status badge

  /** The text of a status badge: "In Progress" for "in-progress", otherwise
      the status with its first character upper-cased. */
  function BadgeLabel(status: string): (shown: string)
    ensures status == "in-progress" ==> shown == "In Progress"
    ensures status != "in-progress" ==> |shown| == |status|
    ensures status != "in-progress" && status != [] ==>
      shown[0] == UpperAscii(status[0]) && shown[1..] == status[1..]
  {
    if status == "in-progress" then "In Progress"
    else if status == [] then []
    else [UpperAscii(status[0])] + status[1..]
  }

  /** Each status the selector offers is labelled on its badge as in the selector. */
  lemma BadgeLabelsMatchOptions()
    ensures BadgeLabel("new") == "New"
    ensures BadgeLabel("in-progress") == "In Progress"
    ensures BadgeLabel("completed") == "Completed"
    ensures BadgeLabel("cancelled") == "Cancelled"
  {
  }

  // ---------------------------------------------------------------------
  // The page component

  /** The list page's state. */
  class ContactRequestsPage {
    var contactRequests: seq<ContactRecord>
    var loading: bool
    var currentPage: int
    var totalPages: int
    var statusFilter: string

    /** The first render: page 1 of 1, no filter, loading. */
    constructor ()
      ensures contactRequests == [] && loading
      ensures currentPage == 1 && totalPages == 1 && statusFilter == AllStatuses
    {
      contactRequests := [];
      loading := true;
      currentPage := 1;
      totalPages := 1;
      statusFilter := AllStatuses;
    }

    /** `fetchContactRequests(page, status)`, with the fetch's outcome given
        as `reply`; `sent` is the parameter object passed to the store. Data
        replaces the list and sets the page count; a response without data
        empties the list and sets one page; a failed call empties the list
        and keeps the page count. Loading ends false on every path. */
    method FetchContactRequests(page: int, status: string, reply: Reply<FetchResponse>) returns (sent: Params)
      modifies this`contactRequests, this`totalPages, this`loading
      ensures sent == RequestParams(PageParams(page, status, PageSize))
      ensures !loading
      ensures reply.Threw? ==> contactRequests == [] && totalPages == old(totalPages)
      ensures reply.Returned? && reply.response.Some? && reply.response.value.data.Some? ==>
        var data := reply.response.value.data.value;
        contactRequests == data && totalPages == TotalPages(reply.response.value.total, |data|)
      ensures reply.Returned? && (reply.response.None? || reply.response.value.data.None?) ==>
        contactRequests == [] && totalPages == 1
    {
      loading := true;
      sent := RequestParams(PageParams(page, status, PageSize));
      match reply {
        case Threw =>
          contactRequests := [];
        case Returned(response) =>
          if response.Some? && response.value.data.Some? {
            var data := response.value.data.value;
            contactRequests := data;
            totalPages := TotalPages(response.value.total, |data|);
          } else {
            contactRequests := [];
            totalPages := 1;
          }
      }
      loading := false;
    }

    /** The effect that refetches whenever the page or the filter changes:
        a fetch of the current page under the current filter, with the
        outcomes of `FetchContactRequests`. */
    method Reload(reply: Reply<FetchResponse>) returns (sent: Params)
      modifies this`contactRequests, this`totalPages, this`loading
      ensures sent == RequestParams(PageParams(currentPage, statusFilter, PageSize))
      ensures !loading
      ensures reply.Threw? ==> contactRequests == [] && totalPages == old(totalPages)
      ensures reply.Returned? && reply.response.Some? && reply.response.value.data.Some? ==>
        var data := reply.response.value.data.value;
        contactRequests == data && totalPages == TotalPages(reply.response.value.total, |data|)
      ensures reply.Returned? && (reply.response.None? || reply.response.value.data.None?) ==>
        contactRequests == [] && totalPages == 1
    {
      sent := FetchContactRequests(currentPage, statusFilter, reply);
    }

    /** `handleStatusChange`: sends `{ Id, status }`; only when the store
        acknowledges the update do exactly the entries with that `Id` take
        the new status, everything else in the list staying as it was. */
    method HandleStatusChange(requestId: int, newStatus: string, reply: Reply<MutationResponse>)
      returns (sent: seq<map<string, Json>>)
      modifies this`contactRequests
      ensures sent == [map["Id" := JNum(requestId), "status" := JStr(newStatus)]]
      ensures MutationResult(reply, UpdateFailed).Success? ==>
        contactRequests == ApplyStatus(old(contactRequests), requestId, newStatus)
      ensures MutationResult(reply, UpdateFailed).Failure? ==> contactRequests == old(contactRequests)
    {
      sent := UpdateRecords(requestId, map["status" := JStr(newStatus)]);
      StatusUpdateRecord(requestId, newStatus);
      var result := MutationResult(reply, UpdateFailed);
      if result.Success? {
        contactRequests := ApplyStatus(contactRequests, requestId, newStatus);
      }
    }

    /** `handleDelete`, with the confirmation dialog's answer as `confirmed`:
        declined, nothing is sent and nothing changes; confirmed, the `Id` is
        sent and its entries leave the list only when the store reports success. */
    method HandleDelete(requestId: int, confirmed: bool, reply: Reply<DeleteResponse>)
      returns (sent: Option<seq<int>>)
      modifies this`contactRequests
      ensures sent.Some? <==> confirmed
      ensures sent.Some? ==> sent.value == [requestId]
      ensures confirmed && DeleteResult(reply).Success? ==>
        contactRequests == RemoveId(old(contactRequests), requestId)
      ensures !(confirmed && DeleteResult(reply).Success?) ==> contactRequests == old(contactRequests)
    {
      if !confirmed {
        sent := None;
        return;
      }
      sent := Some(DeleteRecordIds(requestId));
      var result := DeleteResult(reply);
      if result.Success? {
        contactRequests := RemoveId(contactRequests, requestId);
      }
    }

    /** `handleFilterChange`: a new filter always restarts at page 1. */
    method HandleFilterChange(value: string)
      modifies this`statusFilter, this`currentPage
      ensures statusFilter == value && currentPage == 1
    {
      statusFilter := value;
      currentPage := 1;
    }

    /** A click on "Show All Requests": the button is offered only on the
        empty list under a filter other than "all". It clears the filter but,
        unlike the filter select, leaves the page where it was. */
    method ClickShowAll()
      modifies this`statusFilter
      ensures old(!loading && contactRequests == [] && statusFilter != AllStatuses) ==>
        statusFilter == AllStatuses
      ensures !old(!loading && contactRequests == [] && statusFilter != AllStatuses) ==>
        statusFilter == old(statusFilter)
    {
      if !loading && contactRequests == [] && statusFilter != AllStatuses {
        statusFilter := AllStatuses;
      }
    }

    /** `handlePageChange`: no bounds of its own; the buttons guard it. */
    method HandlePageChange(page: int)
      modifies this`currentPage
      ensures currentPage == page
    {
      currentPage := page;
    }

    /** The pagination bar is rendered: loaded, a non-empty list, more than one page. */
    predicate PaginationShown()
      reads this
    {
      !loading && |contactRequests| > 0 && totalPages > 1
    }

    /** `disabled={currentPage === 1}`. */
    predicate PreviousDisabled()
      reads this
    {
      currentPage == 1
    }

    /** `disabled={currentPage === totalPages}`. */
    predicate NextDisabled()
      reads this
    {
      currentPage == totalPages
    }

    /** A click on Previous: it only acts when the button is shown and enabled.
        From a page in `[1, totalPages]` the page stays in that range. */
    method ClickPrevious()
      modifies this`currentPage
      ensures old(PaginationShown() && !PreviousDisabled()) ==> currentPage == old(currentPage) - 1
      ensures !old(PaginationShown() && !PreviousDisabled()) ==> currentPage == old(currentPage)
      ensures old(1 <= currentPage <= totalPages) ==> 1 <= currentPage <= totalPages
    {
      if PaginationShown() && !PreviousDisabled() {
        HandlePageChange(currentPage - 1);
      }
    }

    /** A click on Next: it only acts when the button is shown and enabled.
        From a page in `[1, totalPages]` the page stays in that range. */
    method ClickNext()
      modifies this`currentPage
      ensures old(PaginationShown() && !NextDisabled()) ==> currentPage == old(currentPage) + 1
      ensures !old(PaginationShown() && !NextDisabled()) ==> currentPage == old(currentPage)
      ensures old(1 <= currentPage <= totalPages) ==> 1 <= currentPage <= totalPages
    {
      if PaginationShown() && !NextDisabled() {
        HandlePageChange(currentPage + 1);
      }
    }
  }
}

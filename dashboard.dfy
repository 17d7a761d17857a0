/** The staff dashboard (src/pages/Dashboard.jsx): one fetch of up to 100
    requests, a count per status, and the five most recent requests. */
module Dashboard {
  import opened Wrappers
  import opened ContactService

  /** How many requests the dashboard fetches. */
  const DashboardLimit := 100

  /** How many recent requests it lists. */
  const RecentLimit := 5

  /** The four statuses a request can be given. */
  predicate KnownStatus(status: string)
  {
    status == "new" || status == "in-progress" || status == "completed" || status == "cancelled"
  }

  /** The dashboard's counters. */
  datatype Stats = Stats(total: nat, newCount: nat, inProgressCount: nat, completedCount: nat, cancelledCount: nat)

  /** The counters before any data arrives. */
  const InitialStats := Stats(0, 0, 0, 0, 0)

  // ---------------------------------------------------------------------
  // Counting

  /** `requests.filter(req => req.status === status).length`: never more
      than the requests there are. */
  function CountStatus(rs: seq<ContactRecord>, status: string): (n: nat)
    ensures n <= |rs|
  {
    if rs == [] then 0
    else (if rs[0].status == status then 1 else 0) + CountStatus(rs[1..], status)
  }

  /** A status is counted 0 times exactly when no request has it. */
  lemma {:induction false} CountStatusZero(rs: seq<ContactRecord>, status: string)
    ensures CountStatus(rs, status) == 0 <==> forall i :: 0 <= i < |rs| ==> rs[i].status != status
  {
    if rs != [] {
      CountStatusZero(rs[1..], status);
      assert forall i :: 1 <= i < |rs| ==> rs[i] == rs[1..][i - 1];
    }
  }

  /** Number of requests whose status is one of the four. */
  function CountKnown(rs: seq<ContactRecord>): nat
  {
    if rs == [] then 0
    else (if KnownStatus(rs[0].status) then 1 else 0) + CountKnown(rs[1..])
  }

  /** The counters computed from the fetched requests: the total is the
      number fetched and no counter exceeds it. */
  function ComputeStats(rs: seq<ContactRecord>): (st: Stats)
    ensures st.total == |rs|
    ensures st.newCount <= st.total && st.inProgressCount <= st.total
    ensures st.completedCount <= st.total && st.cancelledCount <= st.total
  {
    Stats(|rs|, CountStatus(rs, "new"), CountStatus(rs, "in-progress"),
          CountStatus(rs, "completed"), CountStatus(rs, "cancelled"))
  }

  /** Sum of the four status counters. */
  function StatusSum(st: Stats): nat
  {
    st.newCount + st.inProgressCount + st.completedCount + st.cancelledCount
  }

  /** The four counters add up to the requests with a known status, which
      is never more than the total. */
  lemma {:induction false} StatusSumIsKnownCount(rs: seq<ContactRecord>)
    ensures StatusSum(ComputeStats(rs)) == CountKnown(rs)
    ensures CountKnown(rs) <= |rs|
  {
    if rs != [] {
      StatusSumIsKnownCount(rs[1..]);
    }
  }

  /** All requests have a known status exactly when none is left uncounted. */
  lemma {:induction false} CountKnownIsTotal(rs: seq<ContactRecord>)
    ensures CountKnown(rs) == |rs| <==> forall i :: 0 <= i < |rs| ==> KnownStatus(rs[i].status)
  {
    if rs != [] {
      CountKnownIsTotal(rs[1..]);
      StatusSumIsKnownCount(rs[1..]);
      if forall i :: 0 <= i < |rs| - 1 ==> KnownStatus(rs[1..][i].status) {
        assert forall i :: 1 <= i < |rs| ==> KnownStatus(rs[i].status) by {
          forall i | 1 <= i < |rs| ensures KnownStatus(rs[i].status) {
            assert rs[i] == rs[1..][i - 1];
          }
        }
      }
    }
  }

  /** The total is the number of requests fetched; the four counters add up
      to at most the total, and exactly to it when every request has one of
      the four statuses. */
  lemma StatsSummary(rs: seq<ContactRecord>)
    ensures ComputeStats(rs).total == |rs|
    ensures StatusSum(ComputeStats(rs)) <= ComputeStats(rs).total
    ensures StatusSum(ComputeStats(rs)) == ComputeStats(rs).total
        <==> forall i :: 0 <= i < |rs| ==> KnownStatus(rs[i].status)
  {
    StatusSumIsKnownCount(rs);
    CountKnownIsTotal(rs);
  }

  // ---------------------------------------------------------------------
  // The most recent requests

  /** Newest first: `CreatedOn` never increases along `s`. */
  predicate SortedDesc(s: seq<ContactRecord>)
  {
    forall i, j :: 0 <= i < j < |s| ==> s[i].CreatedOn >= s[j].CreatedOn
  }

  /** Places `x` before the first entry that is not newer than it. */
  function Insert(x: ContactRecord, s: seq<ContactRecord>): seq<ContactRecord>
  {
    if s == [] || s[0].CreatedOn <= x.CreatedOn then [x] + s
    else [s[0]] + Insert(x, s[1..])
  }

  /** Inserting adds exactly `x`. */
  lemma {:induction false} InsertPermutes(x: ContactRecord, s: seq<ContactRecord>)
    ensures multiset(Insert(x, s)) == multiset(s) + multiset{x}
  {
    if s != [] && s[0].CreatedOn > x.CreatedOn {
      InsertPermutes(x, s[1..]);
      assert s == [s[0]] + s[1..];
    }
  }

  /** Inserting into a newest-first list keeps it newest first. */
  lemma {:induction false} InsertSorted(x: ContactRecord, s: seq<ContactRecord>)
    requires SortedDesc(s)
    ensures SortedDesc(Insert(x, s))
    ensures |Insert(x, s)| == |s| + 1
    ensures Insert(x, s)[0] == x || (s != [] && Insert(x, s)[0] == s[0])
  {
    if s != [] && s[0].CreatedOn > x.CreatedOn {
      var rest := Insert(x, s[1..]);
      InsertSorted(x, s[1..]);
      assert s[0].CreatedOn >= rest[0].CreatedOn;
      assert forall j :: 0 < j < |rest| ==> rest[0].CreatedOn >= rest[j].CreatedOn;
    }
  }

  /** The copy of the requests sorted newest first by `CreatedOn`, stably;
      the fetched list itself is a value and is not reordered. */
  function SortByCreatedDesc(rs: seq<ContactRecord>): (r: seq<ContactRecord>)
    ensures SortedDesc(r)
    ensures multiset(r) == multiset(rs)
    ensures |r| == |rs|
  {
    if rs == [] then []
    else
      var rest := SortByCreatedDesc(rs[1..]);
      InsertSorted(rs[0], rest);
      InsertPermutes(rs[0], rest);
      assert multiset(rs) == multiset(rs[1..]) + multiset{rs[0]} by {
        assert rs == [rs[0]] + rs[1..];
      }
      Insert(rs[0], rest)
  }

  /** The entries created at time `t`, in order. */
  function CreatedAt(s: seq<ContactRecord>, t: int): seq<ContactRecord>
  {
    if s == [] then []
    else (if s[0].CreatedOn == t then [s[0]] else []) + CreatedAt(s[1..], t)
  }

  lemma {:induction false} InsertCreatedAt(x: ContactRecord, s: seq<ContactRecord>, t: int)
    ensures CreatedAt(Insert(x, s), t) == (if x.CreatedOn == t then [x] else []) + CreatedAt(s, t)
  {
    if s != [] && s[0].CreatedOn > x.CreatedOn {
      var rest := Insert(x, s[1..]);
      InsertCreatedAt(x, s[1..], t);
      assert ([s[0]] + rest)[1..] == rest;
      var headS := if s[0].CreatedOn == t then [s[0]] else [];
      var headX := if x.CreatedOn == t then [x] else [];
      assert CreatedAt(Insert(x, s), t) == headS + (headX + CreatedAt(s[1..], t));
      assert headS == [] || headX == [];
      assert CreatedAt(s, t) == headS + CreatedAt(s[1..], t);
    } else {
      assert ([x] + s)[1..] == s;
    }
  }

  /** The sort is stable: requests created at the same time keep their
      fetched order. */
  lemma {:induction false} SortIsStable(rs: seq<ContactRecord>, t: int)
    ensures CreatedAt(SortByCreatedDesc(rs), t) == CreatedAt(rs, t)
  {
    if rs != [] {
      SortIsStable(rs[1..], t);
      InsertCreatedAt(rs[0], SortByCreatedDesc(rs[1..]), t);
    }
  }

  /** `sortedRequests.slice(0, 5)`: `min(5, n)` of the fetched requests,
      newest first. */
  function RecentRequests(rs: seq<ContactRecord>): (r: seq<ContactRecord>)
    ensures |r| == (if |rs| < RecentLimit then |rs| else RecentLimit)
    ensures SortedDesc(r)
    ensures multiset(r) <= multiset(rs)
  {
    var s := SortByCreatedDesc(rs);
    var r := if |s| <= RecentLimit then s else s[..RecentLimit];
    assert s == r + s[|r|..];
    r
  }

  /** In a newest-first list, nothing after position `k` is newer than
      anything before it. */
  lemma SortedSplit(s: seq<ContactRecord>, k: nat)
    requires SortedDesc(s) && k <= |s|
    ensures forall x, y :: x in s[k..] && y in s[..k] ==> x.CreatedOn <= y.CreatedOn
  {
    forall x, y | x in s[k..] && y in s[..k] ensures x.CreatedOn <= y.CreatedOn {
      var j :| 0 <= j < |s| - k && s[k..][j] == x;
      var i :| 0 <= i < k && s[..k][i] == y;
      assert s[i] == y && s[k + j] == x;
    }
  }

  /** What a prefix leaves of a list's multiset is the multiset of the rest. */
  lemma PrefixRemainder(s: seq<ContactRecord>, k: nat)
    requires k <= |s|
    ensures multiset(s) - multiset(s[..k]) == multiset(s[k..])
  {
    assert s == s[..k] + s[k..];
  }

  /** No fetched request left out of the recent list is newer than one in it. */
  lemma RecentRequestsNewest(rs: seq<ContactRecord>)
    ensures forall x, y ::
      x in multiset(rs) - multiset(RecentRequests(rs)) && y in RecentRequests(rs) ==> x.CreatedOn <= y.CreatedOn
  {
    var s := SortByCreatedDesc(rs);
    var k := |RecentRequests(rs)|;
    assert RecentRequests(rs) == s[..k];
    PrefixRemainder(s, k);
    SortedSplit(s, k);
  }

  // ---------------------------------------------------------------------
  // The page component

  /** The dashboard's state. */
  class DashboardPage {
    var stats: Stats
    var loading: bool
    var recentRequests: seq<ContactRecord>

    /** The first render: zero counters, no recent requests, loading. */
    constructor ()
      ensures stats == InitialStats && loading && recentRequests == []
    {
      stats := InitialStats;
      loading := true;
      recentRequests := [];
    }

    /** `fetchDashboardData`, with the fetch's outcome given as `reply`:
        fetched data sets the counters and the recent list; without data, or
        when the call fails, both keep their values. Loading ends false on
        every path. */
    method FetchDashboardData(reply: Reply<FetchResponse>) returns (sent: Params)
      modifies this
      ensures sent == RequestParams(map["pagingInfo" := PagingInfo(Paging(DashboardLimit, None))])
      ensures !loading
      ensures reply.Returned? && reply.response.Some? && reply.response.value.data.Some? ==>
        var data := reply.response.value.data.value;
        stats == ComputeStats(data) && recentRequests == RecentRequests(data)
      ensures !(reply.Returned? && reply.response.Some? && reply.response.value.data.Some?) ==>
        stats == old(stats) && recentRequests == old(recentRequests)
    {
      sent := RequestParams(map["pagingInfo" := PagingInfo(Paging(DashboardLimit, None))]);
      if reply.Returned? && reply.response.Some? && reply.response.value.data.Some? {
        var requests := reply.response.value.data.value;
        stats := ComputeStats(requests);
        recentRequests := RecentRequests(requests);
      }
      loading := false;
    }
  }
}

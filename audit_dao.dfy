/**
 * net.rrm.ehour.audit.dao.AuditDAOHibernateImpl: audit-trail queries built by one criteria
 * builder. The builder's result is a Criteria value; ListCriteria and CountCriteria give it
 * the standard meaning of a Hibernate criteria query over the audit table, here an in-memory
 * sequence in storage order: keep the rows satisfying every restriction, order them by
 * ascending date, skip the first result offset and cap at the maximum result count.
 */
module AuditDao {
  import opened Wrappers
  import opened Dates
  import opened Strings
  import Sequences

  /** net.rrm.ehour.domain.Audit: the columns the query constrains. */
  datatype Audit = Audit(action: Option<string>, userFullName: Option<string>, date: Date)

  /** net.rrm.ehour.audit.service.dto.AuditReportRequest. */
  datatype AuditReportRequest = AuditReportRequest(
    action: Option<string>,
    name: Option<string>,
    dateRange: DateRange,
    offset: Option<nat>,
    max: Option<nat>)

  /** The Hibernate criterions buildCriteria adds. */
  datatype Restriction =
    | ActionLike(pattern: string)        // the action contains pattern, ignoring case
    | UserFullNameLike(pattern: string)  // the user's full name contains pattern, ignoring case
    | DateAtLeast(bound: Date)           // the date is on or after bound
    | DateAtMost(bound: Date)            // the date is on or before bound

  /**
   * A criteria query on Audit: first result, maximum results and a conjunction of
   * restrictions. buildCriteria always adds the ascending order on date, so the order is
   * not a field.
   */
  datatype Criteria = Criteria(firstResult: Option<nat>, maxResults: Option<nat>, restrictions: seq<Restriction>)

  /** buildCriteria: paging unless ignoreOffset, then one restriction per supplied filter. */
  function BuildCriteria(request: AuditReportRequest, ignoreOffset: bool): (c: Criteria)
    ensures ignoreOffset ==> c.firstResult.None? && c.maxResults.None?
    ensures !ignoreOffset ==> c.firstResult == request.offset && c.maxResults == request.max
  {
    var firstResult := if !ignoreOffset then request.offset else None;
    var maxResults := if !ignoreOffset then request.max else None;
    var byAction := if !IsBlank(request.action) then [ActionLike(ToLower(request.action.value))] else [];
    var byName := if !IsBlank(request.name) then [UserFullNameLike(ToLower(request.name.value))] else [];
    var fromStart :=
      if request.dateRange.dateStart.Some? then [DateAtLeast(request.dateRange.dateStart.value)] else [];
    var untilEnd :=
      if request.dateRange.dateEnd.Some? then [DateAtMost(request.dateRange.dateEnd.value)] else [];
    Criteria(firstResult, maxResults, byAction + byName + fromStart + untilEnd)
  }

  /** The standard meaning of one criterion on one row (a null column never matches LIKE). */
  predicate Satisfies(e: Audit, r: Restriction)
  {
    match r
    case ActionLike(p) => e.action.Some? && IsSubstring(ToLower(p), ToLower(e.action.value))
    case UserFullNameLike(p) => e.userFullName.Some? && IsSubstring(ToLower(p), ToLower(e.userFullName.value))
    case DateAtLeast(b) => e.date >= b
    case DateAtMost(b) => e.date <= b
  }

  predicate SatisfiesAll(e: Audit, rs: seq<Restriction>)
  {
    forall k :: 0 <= k < |rs| ==> Satisfies(e, rs[k])
  }

  function Satisfying(rs: seq<Restriction>): Audit -> bool
  {
    (e: Audit) => SatisfiesAll(e, rs)
  }

  /**
   * What a request asks for, stated directly on its fields: every non-blank text filter
   * occurs in its column ignoring case, and the date lies within the supplied bounds.
   */
  predicate Matches(request: AuditReportRequest, e: Audit)
  {
    && (IsBlank(request.action) || (e.action.Some? && ContainsIgnoringCase(e.action.value, request.action.value)))
    && (IsBlank(request.name) || (e.userFullName.Some? && ContainsIgnoringCase(e.userFullName.value, request.name.value)))
    && (request.dateRange.dateStart.None? || e.date >= request.dateRange.dateStart.value)
    && (request.dateRange.dateEnd.None? || e.date <= request.dateRange.dateEnd.value)
  }

  function MatchesRequest(request: AuditReportRequest): Audit -> bool
  {
    (e: Audit) => Matches(request, e)
  }

  predicate SortedByDate(s: seq<Audit>)
  {
    forall i, j :: 0 <= i < j < |s| ==> s[i].date <= s[j].date
  }

  /** Places x before the first row of s that is not earlier than x. */
  function InsertByDate(x: Audit, s: seq<Audit>): (r: seq<Audit>)
    ensures |r| == |s| + 1
    ensures multiset(r) == multiset(s) + multiset{x}
  {
    if s == [] then [x]
    else if x.date <= s[0].date then [x] + s
    else
      assert s == [s[0]] + s[1..];
      [s[0]] + InsertByDate(x, s[1..])
  }

  /** Every row of the insertion is at least d when x and every row of s are. */
  lemma {:induction false} InsertStaysAbove(x: Audit, s: seq<Audit>, d: Date)
    requires d <= x.date
    requires forall k :: 0 <= k < |s| ==> d <= s[k].date
    ensures forall k :: 0 <= k < |InsertByDate(x, s)| ==> d <= InsertByDate(x, s)[k].date
  {
    if s != [] && x.date > s[0].date {
      InsertStaysAbove(x, s[1..], d);
    }
  }

  lemma {:induction false} InsertKeepsSorted(x: Audit, s: seq<Audit>)
    requires SortedByDate(s)
    ensures SortedByDate(InsertByDate(x, s))
  {
    if s != [] && x.date > s[0].date {
      var tail := s[1..];
      assert SortedByDate(tail) by {
        forall i, j | 0 <= i < j < |tail| ensures tail[i].date <= tail[j].date {
          assert tail[i] == s[i + 1] && tail[j] == s[j + 1];
        }
      }
      InsertKeepsSorted(x, tail);
      assert forall k :: 0 <= k < |tail| ==> s[0].date <= tail[k].date by {
        forall k | 0 <= k < |tail| ensures s[0].date <= tail[k].date {
          assert tail[k] == s[k + 1];
        }
      }
      InsertStaysAbove(x, tail, s[0].date);
      var rest := InsertByDate(x, tail);
      var r := [s[0]] + rest;
      assert r == InsertByDate(x, s);
      forall i, j | 0 <= i < j < |r| ensures r[i].date <= r[j].date {
        assert r[j] == rest[j - 1];
        if i > 0 {
          assert r[i] == rest[i - 1];
        }
      }
    }
  }

  /** `order by date asc`; rows with equal dates keep their storage order. */
  function SortByDate(s: seq<Audit>): (r: seq<Audit>)
    ensures |r| == |s|
    ensures multiset(r) == multiset(s)
    ensures SortedByDate(r)
  {
    if s == [] then []
    else
      assert s == [s[0]] + s[1..];
      InsertKeepsSorted(s[0], SortByDate(s[1..]));
      InsertByDate(s[0], SortByDate(s[1..]))
  }

  /** The position setFirstResult skips to in a result of n rows. */
  function PageStart(n: nat, firstResult: Option<nat>): (lo: nat)
    ensures lo <= n
    ensures firstResult.None? ==> lo == 0
    ensures firstResult.Some? ==> lo == if firstResult.value <= n then firstResult.value else n
  {
    if firstResult.None? then 0 else if firstResult.value <= n then firstResult.value else n
  }

  /** setFirstResult then setMaxResults: drop the first rows, then keep at most the maximum. */
  function Page<T>(s: seq<T>, firstResult: Option<nat>, maxResults: Option<nat>): (r: seq<T>)
    ensures PageStart(|s|, firstResult) + |r| <= |s|
    ensures r == s[PageStart(|s|, firstResult)..PageStart(|s|, firstResult) + |r|]
    ensures maxResults.Some? ==> |r| <= maxResults.value
    ensures maxResults.None? || maxResults.value >= |s| - PageStart(|s|, firstResult) ==>
      |r| == |s| - PageStart(|s|, firstResult)
    ensures maxResults.Some? && maxResults.value < |s| - PageStart(|s|, firstResult) ==>
      |r| == maxResults.value
  {
    var skipped := if firstResult.Some? then (if firstResult.value <= |s| then s[firstResult.value..] else []) else s;
    if maxResults.Some? && maxResults.value < |skipped| then skipped[..maxResults.value] else skipped
  }

  /** criteria.list(): the rows of the table the criteria select, in query order. */
  function ListCriteria(c: Criteria, table: seq<Audit>): seq<Audit>
  {
    Page(SortByDate(Sequences.Filter(table, Satisfying(c.restrictions))), c.firstResult, c.maxResults)
  }

  /**
   * criteria.list() under setProjection(rowCount()): the projection yields a single row
   * holding the number of matching rows, and the paging of the criteria applies to that
   * one-row result.
   */
  function CountCriteria(c: Criteria, table: seq<Audit>): seq<nat>
  {
    Page([|Sequences.Filter(table, Satisfying(c.restrictions))|], c.firstResult, c.maxResults)
  }

  /** The private findAudit(request, ignoreOffset). */
  function FindAuditWith(table: seq<Audit>, request: AuditReportRequest, ignoreOffset: bool): seq<Audit>
  {
    ListCriteria(BuildCriteria(request, ignoreOffset), table)
  }

  /** findAuditAll: every matching row, paging ignored. */
  function FindAuditAll(table: seq<Audit>, request: AuditReportRequest): seq<Audit>
  {
    FindAuditWith(table, request, true)
  }

  /** findAudit(request): the requested page of matching rows. */
  function FindAudit(table: seq<Audit>, request: AuditReportRequest): seq<Audit>
  {
    FindAuditWith(table, request, false)
  }

  /** findAuditCount as written: the count query keeps the request's paging. */
  function FindAuditCount(table: seq<Audit>, request: AuditReportRequest): int
  {
    var results := CountCriteria(BuildCriteria(request, false), table);
    if |results| > 0 then results[0] else 0
  }

  /** findAuditCount with the paging stripped from the count query. */
  function FindAuditCountIgnoringOffset(table: seq<Audit>, request: AuditReportRequest): int
  {
    var results := CountCriteria(BuildCriteria(request, true), table);
    if |results| > 0 then results[0] else 0
  }

  /** The filter part of the criteria does not depend on ignoreOffset. */
  lemma SameRestrictions(request: AuditReportRequest)
    ensures BuildCriteria(request, true).restrictions == BuildCriteria(request, false).restrictions
  {
  }

  /** Without first result and maximum, paging keeps every row. */
  lemma PageWhole<T>(s: seq<T>)
    ensures Page(s, None, None) == s
  {
    assert s[0..|s|] == s;
  }

  /** findAuditAll is the sorted selection, unpaged. */
  lemma FindAuditAllIsSortedSelection(table: seq<Audit>, request: AuditReportRequest)
    ensures FindAuditAll(table, request)
         == SortByDate(Sequences.Filter(table, Satisfying(BuildCriteria(request, false).restrictions)))
  {
    SameRestrictions(request);
    PageWhole(SortByDate(Sequences.Filter(table, Satisfying(BuildCriteria(request, true).restrictions))));
  }

  /**
   * The restrictions buildCriteria adds mean exactly the request's filters, whatever
   * ignoreOffset is: the fetch, fetch-all and count paths select the same rows.
   */
  lemma CriteriaMeanRequest(request: AuditReportRequest, ignoreOffset: bool, e: Audit)
    ensures SatisfiesAll(e, BuildCriteria(request, ignoreOffset).restrictions) <==> Matches(request, e)
  {
    var rs := BuildCriteria(request, ignoreOffset).restrictions;
    if !IsBlank(request.action) {
      ToLowerIdempotent(request.action.value);
      assert rs[0] == ActionLike(ToLower(request.action.value));
    }
    if !IsBlank(request.name) {
      ToLowerIdempotent(request.name.value);
      assert UserFullNameLike(ToLower(request.name.value)) in rs;
    }
    if request.dateRange.dateStart.Some? {
      assert DateAtLeast(request.dateRange.dateStart.value) in rs;
    }
    if request.dateRange.dateEnd.Some? {
      assert DateAtMost(request.dateRange.dateEnd.value) in rs;
    }
  }

  /** The selection of the criteria, restated on the request's fields. */
  lemma {:induction false} SelectionMatchesRequest(table: seq<Audit>, request: AuditReportRequest, ignoreOffset: bool)
    ensures Sequences.Filter(table, Satisfying(BuildCriteria(request, ignoreOffset).restrictions))
         == Sequences.Filter(table, MatchesRequest(request))
  {
    forall e | e in table
      ensures Satisfying(BuildCriteria(request, ignoreOffset).restrictions)(e) == MatchesRequest(request)(e)
    {
      CriteriaMeanRequest(request, ignoreOffset, e);
    }
    Sequences.FilterExtensional(table, Satisfying(BuildCriteria(request, ignoreOffset).restrictions), MatchesRequest(request));
  }

  /**
   * findAuditAll returns exactly the matching rows of the table, each as often as it is
   * stored, in ascending date order.
   */
  lemma FindAuditAllSpec(table: seq<Audit>, request: AuditReportRequest)
    ensures SortedByDate(FindAuditAll(table, request))
    ensures multiset(FindAuditAll(table, request)) == multiset(Sequences.Filter(table, MatchesRequest(request)))
    ensures forall e :: e in FindAuditAll(table, request) <==> e in table && Matches(request, e)
  {
    SelectionMatchesRequest(table, request, true);
    var matching := Sequences.Filter(table, MatchesRequest(request));
    assert FindAuditAll(table, request) == SortByDate(matching);
    forall e
      ensures e in FindAuditAll(table, request) <==> e in table && Matches(request, e)
    {
      assert e in FindAuditAll(table, request) <==> e in multiset(matching);
      Sequences.FilterMembership(table, MatchesRequest(request), e);
    }
  }

  /** findAuditAll does not depend on the request's offset or maximum. */
  lemma FindAuditAllIgnoresPaging(table: seq<Audit>, request: AuditReportRequest, offset: Option<nat>, max: Option<nat>)
    ensures FindAuditAll(table, request) == FindAuditAll(table, request.(offset := offset, max := max))
  {
    assert BuildCriteria(request, true) == BuildCriteria(request.(offset := offset, max := max), true);
  }

  /**
   * findAudit(request) is the contiguous slice of findAuditAll(request) that starts at the
   * offset (or the end, if the offset is past it) and holds at most max rows; without a max
   * it runs to the end.
   */
  lemma FindAuditIsPageOfAll(table: seq<Audit>, request: AuditReportRequest)
    ensures PageStart(|FindAuditAll(table, request)|, request.offset) + |FindAudit(table, request)|
         <= |FindAuditAll(table, request)|
    ensures FindAudit(table, request) == FindAuditAll(table, request)[
      PageStart(|FindAuditAll(table, request)|, request.offset)
      ..PageStart(|FindAuditAll(table, request)|, request.offset) + |FindAudit(table, request)|]
    ensures request.max.Some? ==> |FindAudit(table, request)| <= request.max.value
    ensures request.max.None? ==>
      FindAudit(table, request) == FindAuditAll(table, request)[PageStart(|FindAuditAll(table, request)|, request.offset)..]
    ensures (request.max.Some? &&
             request.max.value < |FindAuditAll(table, request)| - PageStart(|FindAuditAll(table, request)|, request.offset))
      ==> |FindAudit(table, request)| == request.max.value
  {
    var all, page := FindAuditAll(table, request), FindAudit(table, request);
    FindAuditIsPage(table, request);
    PageIsSlice(all, request.offset, request.max, page);
  }

  /** The slice facts of Page, for a page already known to equal Page(s, firstResult, maxResults). */
  lemma PageIsSlice<T>(s: seq<T>, firstResult: Option<nat>, maxResults: Option<nat>, page: seq<T>)
    requires page == Page(s, firstResult, maxResults)
    ensures PageStart(|s|, firstResult) + |page| <= |s|
    ensures page == s[PageStart(|s|, firstResult)..PageStart(|s|, firstResult) + |page|]
    ensures maxResults.Some? ==> |page| <= maxResults.value
    ensures maxResults.None? ==> page == s[PageStart(|s|, firstResult)..]
    ensures (maxResults.Some? && maxResults.value < |s| - PageStart(|s|, firstResult)) ==> |page| == maxResults.value
  {
  }

  /** findAudit pages the findAuditAll result with the request's offset and max. */
  lemma FindAuditIsPage(table: seq<Audit>, request: AuditReportRequest)
    ensures FindAudit(table, request) == Page(FindAuditAll(table, request), request.offset, request.max)
  {
    FindAuditAllIsSortedSelection(table, request);
  }

  /** With no filter supplied, findAuditAll is the whole table ordered by date. */
  lemma NoFilterSelectsAll(table: seq<Audit>, request: AuditReportRequest)
    requires IsBlank(request.action) && IsBlank(request.name)
    requires request.dateRange.dateStart.None? && request.dateRange.dateEnd.None?
    ensures FindAuditAll(table, request) == SortByDate(table)
  {
    assert BuildCriteria(request, true).restrictions == [];
    Sequences.FilterKeepsAll(table, Satisfying([]));
    PageWhole(SortByDate(table));
  }

  /**
   * findAuditCount as written: it is the size of findAuditAll only while the request has no
   * positive offset and no zero maximum; a positive offset skips the single count row.
   */
  lemma FindAuditCountAsWritten(table: seq<Audit>, request: AuditReportRequest)
    ensures FindAuditCount(table, request) ==
      if (request.offset.Some? && request.offset.value > 0) || request.max == Some(0) then 0
      else |FindAuditAll(table, request)|
  {
    FindAuditAllIsSortedSelection(table, request);
    var n := |Sequences.Filter(table, Satisfying(BuildCriteria(request, false).restrictions))|;
    var rows := Page([n], request.offset, request.max);
    assert FindAuditCount(table, request) == if |rows| > 0 then rows[0] else 0;
    if |rows| > 0 {
      assert rows == [n][PageStart(1, request.offset)..PageStart(1, request.offset) + |rows|];
    }
  }

  /** The count of a paged request: two matching rows, offset 1, and the count is 0. */
  lemma PagedCountIsZero()
    ensures var table := [Audit(Some("login"), Some("Jane Doe"), 10), Audit(Some("logout"), Some("Jane Doe"), 20)];
      var request := AuditReportRequest(None, None, DateRange(None, None), Some(1), Some(10));
      |FindAuditAll(table, request)| == 2 && FindAuditCount(table, request) == 0
  {
    var table := [Audit(Some("login"), Some("Jane Doe"), 10), Audit(Some("logout"), Some("Jane Doe"), 20)];
    var request := AuditReportRequest(None, None, DateRange(None, None), Some(1), Some(10));
    FindAuditCountAsWritten(table, request);
    NoFilterSelectsAll(table, request);
  }

  /** The count with paging stripped is the size of findAuditAll for every request. */
  lemma FindAuditCountIgnoringOffsetIsSize(table: seq<Audit>, request: AuditReportRequest)
    ensures FindAuditCountIgnoringOffset(table, request) == |FindAuditAll(table, request)|
  {
    var n := |Sequences.Filter(table, Satisfying(BuildCriteria(request, true).restrictions))|;
    PageWhole([n]);
    FindAuditAllIsSortedSelection(table, request);
    SameRestrictions(request);
    assert CountCriteria(BuildCriteria(request, true), table) == [n];
  }
}

# eHour: project-assignment service rules and audit query construction

This project models two pieces of eHour's service layer and proves properties of the models.

- **ProjectAssignmentServiceImpl** answers queries about a user's or a project's assignments. It adds derived rules on top of the assignment DAO:
  - *bookability*: keep the assignments the status service calls bookable for a date range;
  - *currency*: with `hideInactive`, keep the assignments that are active and whose open or closed date span strictly contains today;
  - *deletability*: a transient `deletable` flag derived from the cumulated-hours aggregate. There is one aggregate query for a single id, and one bulk query for all of a project's assignments.

  The service is a class (`AssignmentService.ProjectAssignmentService`). Its collaborators are function-valued constants fixed at construction:
  - the DAO queries (`AssignmentDao`);
  - the status service;
  - the aggregate DAO;
  - `ReportUtil.isEmptyAggregateList`.

  A ghost log, `aggregateQueries`, records the id set of every aggregate query issued. The contracts use it to say how many aggregate round trips an operation makes, and with which ids. `ProjectAssignment` is a class. `deletable` is its only mutable field, because it is the only field the service writes. The loops of the source become `for` loops. Each one is proved against the order-preserving `Sequences.Filter`, or against the id-set characterisation of `deletable`.
- **AuditDAOHibernateImpl** builds one Hibernate criteria query from an `AuditReportRequest`, and three entry points use it: fetch a page, fetch all, and count. `BuildCriteria` mirrors the builder's conditional steps and produces a `Criteria` value. `ListCriteria` and `CountCriteria` give that value its standard meaning over the audit table, which is modelled as a `seq<Audit>` in storage order:
  1. keep the rows that satisfy every restriction;
  2. order them by ascending date;
  3. skip `firstResult` rows;
  4. keep at most `maxResults` rows.

  Under the row-count projection, the same paging applies to the single count row.

Collaborators are parameters, not models:
- the DAO results;
- the status service;
- the aggregate query;
- `isEmptyAggregateList`;
- the wall clock. `new Date()` becomes a `today` parameter.

Dates are `java.util.Date` values, represented as integer milliseconds.

## Model

| member | source | states |
|---|---|---|
| `AssignmentService.ProjectAssignmentService.constructor` | eHour-service/src/main/java/net/rrm/ehour/project/service/ProjectAssignmentServiceImpl.java:44-48 | the service keeps exactly the DAO, status service and aggregate DAO it is given, and has issued no aggregate query yet |
| `AssignmentService.ProjectAssignmentService.GetProjectAssignmentsForUserInRange` | eHour-service/src/main/java/net/rrm/ehour/project/service/ProjectAssignmentServiceImpl.java:58-71 | the result is the DAO's assignments for the user and range, restricted to those bookable for that range, in DAO order; an assignment is returned iff the DAO returned it and it is bookable |
| `AssignmentService.ProjectAssignmentService.GetProjectAssignmentsForUser` | eHour-service/src/main/java/net/rrm/ehour/project/service/ProjectAssignmentServiceImpl.java:73-96 | without hideInactive the DAO result is returned unchanged; with it, the result is the DAO result restricted to the assignments that are active with start before and end after today (null bounds open), in DAO order, and an assignment is returned iff the DAO returned it and it passes that test |
| `AssignmentService.BoundaryDayDropped` | eHour-service/src/main/java/net/rrm/ehour/project/service/ProjectAssignmentServiceImpl.java:85-87 | an assignment starting or ending exactly today is never kept by the hideInactive filter, because before/after are strict |
| `AssignmentService.HideInactiveKeepsOnlyCurrent` | eHour-service/src/main/java/net/rrm/ehour/project/service/ProjectAssignmentServiceImpl.java:79-92 | an active assignment started before today with no end is kept, and an inactive one is dropped |
| `AssignmentService.ProjectAssignmentService.GetProjectAssignment` | eHour-service/src/main/java/net/rrm/ehour/project/service/ProjectAssignmentServiceImpl.java:102-114 | a missing id gives ObjectNotFound and issues no aggregate query; otherwise the DAO's assignment is returned, one aggregate query over exactly {id} is issued, and deletable is isEmptyAggregateList of its rows; only that object is written |
| `AssignmentService.ProjectAssignmentService.GetProjectAssignments` | eHour-service/src/main/java/net/rrm/ehour/project/service/ProjectAssignmentServiceImpl.java:116-118 | the DAO's assignments of the project in the range, unchanged |
| `AssignmentService.ProjectAssignmentService.GetProjectAssignmentsAndCheckDeletability` | eHour-service/src/main/java/net/rrm/ehour/project/service/ProjectAssignmentServiceImpl.java:121-140 | the result is the DAO's list itself (same objects, length, order); each has deletable false exactly when some aggregate row refers to its id; an empty project issues no aggregate query, any other issues exactly one over the set of all its assignment ids; only the listed objects' deletable fields are written |
| `AssignmentService.ProjectAssignmentService.GetActiveProjectAssignments` | eHour-service/src/main/java/net/rrm/ehour/project/service/ProjectAssignmentServiceImpl.java:143-145 | the DAO's active assignments of the project, unchanged |
| `AssignmentService.ProjectAssignmentService.GetProjectAssignmentTypes` | eHour-service/src/main/java/net/rrm/ehour/project/service/ProjectAssignmentServiceImpl.java:147-149 | the DAO's assignment types, unchanged |
| `Sequences.FilterSelectsInOrder` | eHour-service/src/main/java/net/rrm/ehour/project/service/ProjectAssignmentServiceImpl.java:64-68 | the list a for-each/add-if loop builds is the input taken at strictly increasing positions, exactly those where the test holds: an order-preserving subsequence missing no passing element |
| `Sequences.FilterMembership` | eHour-service/src/main/java/net/rrm/ehour/project/service/ProjectAssignmentServiceImpl.java:84-90 | an element is in the filtered list iff it is in the input and passes the test |
| `Sequences.FilterExtensional` | eHour-service/src/main/java/net/rrm/ehour/audit/dao/AuditDAOHibernateImpl.java:81-100 | two tests that agree on every element select the same list |
| `Sequences.FilterKeepsAll` | eHour-service/src/main/java/net/rrm/ehour/audit/dao/AuditDAOHibernateImpl.java:81-100 | a test every element passes selects the whole input |
| `Sequences.FilterMultiset` | eHour-service/src/main/java/net/rrm/ehour/audit/dao/AuditDAOHibernateImpl.java:81-100 | each passing element keeps its multiplicity and every failing one is absent |
| `Strings.ToLower` | eHour-service/src/main/java/net/rrm/ehour/audit/dao/AuditDAOHibernateImpl.java:83 | length is kept, each character is lowered, and no upper-case ASCII letter remains |
| `Strings.ToLowerIdempotent` | eHour-service/src/main/java/net/rrm/ehour/audit/dao/AuditDAOHibernateImpl.java:83 | lowering twice is lowering once, so the pre-lowered pattern matched ignoring case means the raw request text |
| `AuditDao.BuildCriteria` | eHour-service/src/main/java/net/rrm/ehour/audit/dao/AuditDAOHibernateImpl.java:64-79 | with ignoreOffset the criteria have no first result and no maximum; otherwise they carry the request's offset and max |
| `AuditDao.SameRestrictions` | eHour-service/src/main/java/net/rrm/ehour/audit/dao/AuditDAOHibernateImpl.java:64-105 | the restrictions do not depend on ignoreOffset, so fetch, fetch-all and count share one filter |
| `AuditDao.CriteriaMeanRequest` | eHour-service/src/main/java/net/rrm/ehour/audit/dao/AuditDAOHibernateImpl.java:81-100 | a row satisfies the built restrictions iff it matches the request: a non-blank action and a non-blank name each occur in their column ignoring case (a null column fails), a blank one constrains nothing, and the date is at least the start and at most the end where those are given |
| `AuditDao.SelectionMatchesRequest` | eHour-service/src/main/java/net/rrm/ehour/audit/dao/AuditDAOHibernateImpl.java:64-105 | the rows the criteria select are the table's rows matching the request, in storage order, for either value of ignoreOffset |
| `AuditDao.InsertByDate` | eHour-service/src/main/java/net/rrm/ehour/audit/dao/AuditDAOHibernateImpl.java:102 | inserting a row adds exactly that row |
| `AuditDao.InsertKeepsSorted` | eHour-service/src/main/java/net/rrm/ehour/audit/dao/AuditDAOHibernateImpl.java:102 | inserting into a date-ordered list keeps it date-ordered |
| `AuditDao.SortByDate` | eHour-service/src/main/java/net/rrm/ehour/audit/dao/AuditDAOHibernateImpl.java:102 | the ordered result is a permutation of its input in ascending date order |
| `AuditDao.Page` | eHour-service/src/main/java/net/rrm/ehour/audit/dao/AuditDAOHibernateImpl.java:68-79 | the page is the contiguous slice starting at the offset (capped at the size), holding exactly max rows when more than max remain and running to the end otherwise or when max is absent |
| `AuditDao.PageWhole` | eHour-service/src/main/java/net/rrm/ehour/audit/dao/AuditDAOHibernateImpl.java:66-79 | without first result and maximum nothing is cut |
| `AuditDao.FindAuditAllIsSortedSelection` | eHour-service/src/main/java/net/rrm/ehour/audit/dao/AuditDAOHibernateImpl.java:111-114 | findAuditAll is the date-ordered selection with no paging applied |
| `AuditDao.FindAuditAllSpec` | eHour-service/src/main/java/net/rrm/ehour/audit/dao/AuditDAOHibernateImpl.java:111-114 | findAuditAll is in ascending date order, is a permutation of the table's matching rows, and holds a row iff the table holds it and it matches |
| `AuditDao.FindAuditAllIgnoresPaging` | eHour-service/src/main/java/net/rrm/ehour/audit/dao/AuditDAOHibernateImpl.java:66-79 | findAuditAll gives the same result whatever the request's offset and max |
| `AuditDao.NoFilterSelectsAll` | eHour-service/src/main/java/net/rrm/ehour/audit/dao/AuditDAOHibernateImpl.java:81-102 | a request with blank action and name and no date bounds selects the whole table, ordered by date |
| `AuditDao.FindAuditIsPageOfAll` | eHour-service/src/main/java/net/rrm/ehour/audit/dao/AuditDAOHibernateImpl.java:120-123 | findAudit is the contiguous slice of findAuditAll from the offset (capped at its end), exactly max rows long when more than max remain, never longer than max, and to the end when max is absent |
| `AuditDao.FindAuditIsPage` | eHour-service/src/main/java/net/rrm/ehour/audit/dao/AuditDAOHibernateImpl.java:120-123 | findAudit is findAuditAll with the request's offset and max applied |
| `AuditDao.FindAuditCountAsWritten` | eHour-service/src/main/java/net/rrm/ehour/audit/dao/AuditDAOHibernateImpl.java:41-56 | the count is 0 when the paged count query yields no row, which happens exactly when the offset is positive or max is 0; otherwise it is the size of findAuditAll |
| `AuditDao.PagedCountIsZero` | eHour-service/src/main/java/net/rrm/ehour/audit/dao/AuditDAOHibernateImpl.java:43 | with two matching rows and offset 1, findAuditAll has 2 rows but findAuditCount is 0 |
| `AuditDao.FindAuditCountIgnoringOffsetIsSize` | eHour-service/src/main/java/net/rrm/ehour/audit/dao/AuditDAOHibernateImpl.java:41-56 | a count query built with ignoreOffset equals the size of findAuditAll for every request |

## Left out

- The collaborators are not part of this model, and each one is an oracle fixed at construction:
  - `ProjectAssignmentDao`;
  - `ReportAggregatedDao`;
  - `ProjectAssignmentStatusService`;
  - `ReportUtil.isEmptyAggregateList`.

  Their behaviour, their failures and their transactions are therefore not modelled.
- The single-id and bulk deletability paths are not proved to agree. They agree only if two things hold: `isEmptyAggregateList` means "no rows", and the aggregate DAO answers consistently for a set and for its members. Both are properties of code outside the model.
- `AssignmentService.ProjectAssignmentService.GetProjectAssignmentsAndCheckDeletability` takes two preconditions from the source's callers:
  - The DAO returns one object per primary key, as a Hibernate session does. With two distinct objects sharing a key, the map keeps only the last one.
  - Every aggregate row refers to a requested id. A row for any other id is a null dereference at line 135, and that crash is not modelled.
- The text of the `ObjectNotFoundException` message is not modelled. The error carries only the id.
- `findAuditCount` returns `Number`. The model does not include the `(Integer)` cast or its possible overflow, and the count is an unbounded integer.
- Hibernate's SQL generation is not modelled. In particular, `%` and `_` inside a request string would act as LIKE wildcards, and the model treats them as literal characters. Whether a database accepts `order by date` next to `count(*)` is not modelled either.
- Rows with equal dates keep their storage order. SQL leaves that order unspecified.
- `String.toLowerCase` and `Character.isWhitespace` are modelled on ASCII only. Unicode case mapping, locales and Unicode space separators are not modelled.
- Offset and max are natural numbers. Negative values and Hibernate's handling of a maximum of 0 are not modelled.
- A null request or a null date range is not modelled. In the source, `buildCriteria` then throws a NullPointerException: for a null request at its first field read (`AuditDAOHibernateImpl.java:70` or `:81`), for a null date range at `:92`. In the model, the request and its date range are always present; only the date bounds inside the range may be absent.
- The audit date is never null in the model. Audit columns other than action, user full name and date are not modelled.
- Read-only operations return the same result when called twice against unchanged collaborators. This idempotence is not stated as a separate lemma: each operation's ensures already determines its result from the collaborators.
- `AggregateElement.hours` is a `real`. The model does no floating-point arithmetic on it.

## Findings

| source | as written | input that shows it | evidently intended | confidence | as-written member | corrected member |
|---|---|---|---|---|---|---|
| eHour-service/src/main/java/net/rrm/ehour/audit/dao/AuditDAOHibernateImpl.java:43 | `findAuditCount` builds its criteria with `ignoreOffset=false`. The offset and max of the request then page the one-row count result. | A table of two rows and a request with no filters, offset 1 and max 10: `findAuditAll` returns 2 rows and `findAuditCount` returns 0. | The count of all matching rows, independent of paging, as built with `ignoreOffset=true`. | medium; not executed | `AuditDao.PagedCountIsZero` | `AuditDao.FindAuditCountIgnoringOffsetIsSize` |

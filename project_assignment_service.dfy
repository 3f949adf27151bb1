/**
 * net.rrm.ehour.project.service.ProjectAssignmentServiceImpl: read operations on project
 * assignments, enriched with bookability (a status filter), currency (a filter on the active
 * flag and the date span) and deletability (a transient flag derived from hour aggregates).
 *
 * The collaborators (the assignment DAO, the status service, the aggregate DAO and
 * ReportUtil.isEmptyAggregateList) are not modelled; they are oracles fixed when the service
 * is built.
 */
module AssignmentService {
  import opened Wrappers
  import opened Dates
  import Sequences

  type UserId = int
  type ProjectId = int
  type AssignmentId = int

  /** net.rrm.ehour.domain.ProjectAssignmentType: reference data. */
  datatype ProjectAssignmentType = ProjectAssignmentType(assignmentTypeId: int, assignmentType: string)

  /**
   * net.rrm.ehour.domain.ProjectAssignment as the service sees it. Every attribute the service
   * only reads is a constant; `deletable` is the one field the service writes, and it is never
   * written back to the store.
   */
  class ProjectAssignment {
    const assignmentId: AssignmentId
    const userId: UserId
    const projectId: ProjectId
    const assignmentType: ProjectAssignmentType
    const active: bool
    const dateStart: Option<Date>
    const dateEnd: Option<Date>
    var deletable: bool
  }

  /** One row of the cumulated-hours aggregate: the assignment it refers to and its total. */
  datatype AggregateElement = AggregateElement(assignmentId: AssignmentId, hours: real)

  datatype ServiceError = ObjectNotFound(assignmentId: AssignmentId)

  /** The queries of net.rrm.ehour.persistence.project.dao.ProjectAssignmentDao the service uses. */
  datatype AssignmentDao = AssignmentDao(
    findProjectAssignmentsForUserInRange: (UserId, DateRange) -> seq<ProjectAssignment>,
    findProjectAssignmentsForUser: UserId -> seq<ProjectAssignment>,
    findById: AssignmentId -> Option<ProjectAssignment>,
    findProjectAssignmentsForProject: (ProjectId, DateRange) -> seq<ProjectAssignment>,
    findAllProjectAssignmentsForProject: ProjectId -> seq<ProjectAssignment>,
    findAllActiveProjectAssignmentsForProject: ProjectId -> seq<ProjectAssignment>,
    findProjectAssignmentTypes: () -> seq<ProjectAssignmentType>)

  /**
   * True when the assignment is active and today lies strictly inside its date span; a null
   * bound is open. Both comparisons are strict (Date.before, Date.after).
   */
  predicate IsCurrent(a: ProjectAssignment, today: Date)
  {
    && a.active
    && (a.dateStart.None? || a.dateStart.value < today)
    && (a.dateEnd.None? || a.dateEnd.value > today)
  }

  function CurrentOn(today: Date): ProjectAssignment -> bool
  {
    (a: ProjectAssignment) => IsCurrent(a, today)
  }

  /**
   * The comparisons with today are strict: an assignment that starts or ends exactly today
   * is not current and is dropped by the hideInactive filter.
   */
  lemma BoundaryDayDropped(s: seq<ProjectAssignment>, today: Date, a: ProjectAssignment)
    requires a.dateStart == Some(today) || a.dateEnd == Some(today)
    ensures a !in Sequences.Filter(s, CurrentOn(today))
  {
    Sequences.FilterMembership(s, CurrentOn(today), a);
  }

  /**
   * An active assignment started before today with an open end is kept, an inactive one is
   * dropped, whatever its dates.
   */
  lemma HideInactiveKeepsOnlyCurrent(a1: ProjectAssignment, a2: ProjectAssignment, today: Date)
    requires a1.active && a1.dateStart.Some? && a1.dateStart.value < today && a1.dateEnd.None?
    requires !a2.active
    ensures Sequences.Filter([a1, a2], CurrentOn(today)) == [a1]
  {
    assert [a1, a2][..1] == [a1];
    assert [a1][..0] == [];
  }

  ghost function Elements(s: seq<ProjectAssignment>): set<object>
  {
    set a | a in s
  }

  ghost function OptionElements(o: Option<ProjectAssignment>): set<object>
  {
    if o.Some? then {o.value} else {}
  }

  /** The primary keys of a list of assignments. */
  function Pks(s: seq<ProjectAssignment>): set<AssignmentId>
  {
    set k | 0 <= k < |s| :: s[k].assignmentId
  }

  /** The assignment ids an aggregate list refers to. */
  function AggregatedIds(aggregates: seq<AggregateElement>): set<AssignmentId>
  {
    set k | 0 <= k < |aggregates| :: aggregates[k].assignmentId
  }

  /** Entities loaded in one session are unique per primary key. */
  predicate IdentifiedByPk(s: seq<ProjectAssignment>)
  {
    forall i, j :: 0 <= i < |s| && 0 <= j < |s| && s[i].assignmentId == s[j].assignmentId ==> s[i] == s[j]
  }

  lemma PksSnoc(s: seq<ProjectAssignment>, i: nat)
    requires i < |s|
    ensures Pks(s[..i + 1]) == Pks(s[..i]) + {s[i].assignmentId}
  {
    assert s[..i + 1] == s[..i] + [s[i]];
    assert forall k :: 0 <= k < i ==> s[..i + 1][k] == s[..i][k];
  }

  lemma AggregatedIdsSnoc(aggregates: seq<AggregateElement>, j: nat)
    requires j < |aggregates|
    ensures AggregatedIds(aggregates[..j + 1]) == AggregatedIds(aggregates[..j]) + {aggregates[j].assignmentId}
  {
    assert forall k :: 0 <= k < j ==> aggregates[..j + 1][k] == aggregates[..j][k];
  }

  class ProjectAssignmentService {
    const dao: AssignmentDao
    /** getAssignmentStatus(assignment, range).isAssignmentBookable() of the status service. */
    const assignmentBookable: (ProjectAssignment, DateRange) -> bool
    /** ReportAggregatedDao.getCumulatedHoursPerAssignmentForAssignments. */
    const cumulatedHoursPerAssignment: set<AssignmentId> -> seq<AggregateElement>
    /** ReportUtil.isEmptyAggregateList. */
    const isEmptyAggregateList: seq<AggregateElement> -> bool
    /** The id sets of the aggregate queries issued so far, oldest first. */
    ghost var aggregateQueries: seq<set<AssignmentId>>

    constructor (
      dao: AssignmentDao,
      assignmentBookable: (ProjectAssignment, DateRange) -> bool,
      cumulatedHoursPerAssignment: set<AssignmentId> -> seq<AggregateElement>,
      isEmptyAggregateList: seq<AggregateElement> -> bool)
      ensures this.dao == dao && this.assignmentBookable == assignmentBookable
      ensures this.cumulatedHoursPerAssignment == cumulatedHoursPerAssignment
      ensures this.isEmptyAggregateList == isEmptyAggregateList
      ensures aggregateQueries == []
    {
      this.dao := dao;
      this.assignmentBookable := assignmentBookable;
      this.cumulatedHoursPerAssignment := cumulatedHoursPerAssignment;
      this.isEmptyAggregateList := isEmptyAggregateList;
      aggregateQueries := [];
    }

    function BookableIn(range: DateRange): ProjectAssignment -> bool
    {
      (a: ProjectAssignment) => assignmentBookable(a, range)
    }

    /**
     * The assignments of a user in a range that the status service calls bookable for that
     * range, in DAO order.
     */
    method GetProjectAssignmentsForUserInRange(userId: UserId, range: DateRange)
      returns (validAssignments: seq<ProjectAssignment>)
      ensures validAssignments ==
        Sequences.Filter(dao.findProjectAssignmentsForUserInRange(userId, range), BookableIn(range))
      ensures forall a :: a in validAssignments <==>
        a in dao.findProjectAssignmentsForUserInRange(userId, range) && assignmentBookable(a, range)
    {
      var assignments := dao.findProjectAssignmentsForUserInRange(userId, range);
      validAssignments := [];
      for i := 0 to |assignments|
        invariant validAssignments == Sequences.Filter(assignments[..i], BookableIn(range))
      {
        assert assignments[..i + 1][..i] == assignments[..i];
        if assignmentBookable(assignments[i], range) {
          validAssignments := validAssignments + [assignments[i]];
        }
      }
      assert assignments[..|assignments|] == assignments;
      forall a
        ensures a in validAssignments <==> a in assignments && assignmentBookable(a, range)
      {
        Sequences.FilterMembership(assignments, BookableIn(range), a);
      }
    }

    /**
     * All assignments of a user; with hideInactive, only those current on `today` (the wall
     * clock of the source, passed in), in DAO order.
     */
    method GetProjectAssignmentsForUser(userId: UserId, hideInactive: bool, today: Date)
      returns (results: seq<ProjectAssignment>)
      ensures !hideInactive ==> results == dao.findProjectAssignmentsForUser(userId)
      ensures hideInactive ==>
        results == Sequences.Filter(dao.findProjectAssignmentsForUser(userId), CurrentOn(today))
      ensures hideInactive ==> forall a :: a in results <==>
        a in dao.findProjectAssignmentsForUser(userId) && IsCurrent(a, today)
    {
      results := dao.findProjectAssignmentsForUser(userId);
      if hideInactive {
        var filteredResults := [];
        for i := 0 to |results|
          invariant filteredResults == Sequences.Filter(results[..i], CurrentOn(today))
        {
          assert results[..i + 1][..i] == results[..i];
          var a := results[i];
          if IsCurrent(a, today) {
            filteredResults := filteredResults + [a];
          }
        }
        assert results[..|results|] == results;
        forall a
          ensures a in filteredResults <==> a in results && IsCurrent(a, today)
        {
          Sequences.FilterMembership(results, CurrentOn(today), a);
        }
        results := filteredResults;
      }
    }

    /**
     * The assignment with the given id, its deletable flag set from a single aggregate query
     * over exactly that id; ObjectNotFound when the DAO has none.
     */
    method GetProjectAssignment(assignmentId: AssignmentId) returns (r: Result<ProjectAssignment, ServiceError>)
      modifies this`aggregateQueries, OptionElements(dao.findById(assignmentId))
      ensures dao.findById(assignmentId).None? ==>
        r == Err(ObjectNotFound(assignmentId)) && aggregateQueries == old(aggregateQueries)
      ensures dao.findById(assignmentId).Some? ==>
        && r == Ok(dao.findById(assignmentId).value)
        && r.value.deletable == isEmptyAggregateList(cumulatedHoursPerAssignment({assignmentId}))
        && aggregateQueries == old(aggregateQueries) + [{assignmentId}]
    {
      var found := dao.findById(assignmentId);
      if found.None? {
        return Err(ObjectNotFound(assignmentId));
      }
      var assignment := found.value;
      var aggregates := cumulatedHoursPerAssignment({assignmentId});
      aggregateQueries := aggregateQueries + [{assignmentId}];
      assignment.deletable := isEmptyAggregateList(aggregates);
      r := Ok(assignment);
    }

    /** Direct passthrough: the DAO's assignments of a project in a range. */
    method GetProjectAssignments(projectId: ProjectId, range: DateRange) returns (assignments: seq<ProjectAssignment>)
      ensures assignments == dao.findProjectAssignmentsForProject(projectId, range)
    {
      assignments := dao.findProjectAssignmentsForProject(projectId, range);
    }

    /**
     * Every assignment of a project, in DAO order, each flagged deletable exactly when no
     * aggregate row refers to its id; the rows come from one aggregate query over all the
     * project's assignment ids, and none is issued for a project without assignments.
     */
    method GetProjectAssignmentsAndCheckDeletability(projectId: ProjectId)
      returns (assignmentsForProject: seq<ProjectAssignment>)
      requires IdentifiedByPk(dao.findAllProjectAssignmentsForProject(projectId))
      requires dao.findAllProjectAssignmentsForProject(projectId) != [] ==>
        AggregatedIds(cumulatedHoursPerAssignment(Pks(dao.findAllProjectAssignmentsForProject(projectId))))
          <= Pks(dao.findAllProjectAssignmentsForProject(projectId))
      modifies this`aggregateQueries, Elements(dao.findAllProjectAssignmentsForProject(projectId))
      ensures assignmentsForProject == dao.findAllProjectAssignmentsForProject(projectId)
      ensures forall a :: a in assignmentsForProject ==>
        (a.deletable <==> a.assignmentId !in AggregatedIds(cumulatedHoursPerAssignment(Pks(assignmentsForProject))))
      ensures aggregateQueries ==
        if assignmentsForProject == [] then old(aggregateQueries)
        else old(aggregateQueries) + [Pks(assignmentsForProject)]
    {
      assignmentsForProject := dao.findAllProjectAssignmentsForProject(projectId);
      var s := assignmentsForProject;
      if s != [] {
        var assignmentMap: map<AssignmentId, ProjectAssignment> := map[];
        for i := 0 to |s|
          invariant assignmentMap.Keys == Pks(s[..i])
          invariant forall id :: id in assignmentMap ==> assignmentMap[id] in s && assignmentMap[id].assignmentId == id
          invariant forall k :: 0 <= k < i ==> s[k].deletable
          invariant aggregateQueries == old(aggregateQueries)
        {
          s[i].deletable := true;
          assignmentMap := assignmentMap[s[i].assignmentId := s[i]];
          PksSnoc(s, i);
        }
        assert s[..|s|] == s;
        var aggregates := cumulatedHoursPerAssignment(assignmentMap.Keys);
        aggregateQueries := aggregateQueries + [assignmentMap.Keys];
        for j := 0 to |aggregates|
          invariant forall a :: a in s ==> (a.deletable <==> a.assignmentId !in AggregatedIds(aggregates[..j]))
          invariant aggregateQueries == old(aggregateQueries) + [Pks(s)]
        {
          assert aggregates[j].assignmentId in AggregatedIds(aggregates);
          var target := assignmentMap[aggregates[j].assignmentId];
          target.deletable := false;
          AggregatedIdsSnoc(aggregates, j);
        }
        assert aggregates[..|aggregates|] == aggregates;
      }
    }

    /** Direct passthrough: the DAO's active assignments of a project. */
    method GetActiveProjectAssignments(projectId: ProjectId) returns (assignments: seq<ProjectAssignment>)
      ensures assignments == dao.findAllActiveProjectAssignmentsForProject(projectId)
    {
      assignments := dao.findAllActiveProjectAssignmentsForProject(projectId);
    }

    /** Direct passthrough: the assignment types known to the DAO. */
    method GetProjectAssignmentTypes() returns (types: seq<ProjectAssignmentType>)
      ensures types == dao.findProjectAssignmentTypes()
    {
      types := dao.findProjectAssignmentTypes();
    }
  }
}

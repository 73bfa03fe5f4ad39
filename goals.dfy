/** routers/goals.py: listing goals with optional date filters, fetching one goal,
    and adding a goal. */
module GoalsRouter {
  import opened Wrappers
  import opened Digits
  import opened Dates
  import opened Http
  import opened Tables
  import opened Entities
  import opened Database
  import opened Schemas

  function EndsOn(d: Date): Row<Goal> -> bool {
    (g: Row<Goal>) => g.data.endDate == d
  }

  function StartsOn(d: Date): Row<Goal> -> bool {
    (g: Row<Goal>) => g.data.startDate == d
  }

  /** What the two optional filters of `read_goals` together ask of a goal. */
  predicate MatchesDates(startDate: Option<Date>, endDate: Option<Date>, g: Goal) {
    && (endDate.Some? ==> g.endDate == endDate.value)
    && (startDate.Some? ==> g.startDate == startDate.value)
  }

  function MatchingGoal(startDate: Option<Date>, endDate: Option<Date>): Row<Goal> -> bool {
    (g: Row<Goal>) => MatchesDates(startDate, endDate, g.data)
  }

  /** `read_goals`: the query is narrowed by `end_date`, then by `start_date`, then
      ordered by id. An empty result is an empty list, not an error. */
  function ReadGoals(goals: seq<Row<Goal>>, startDate: Option<Date>, endDate: Option<Date>): (r: seq<Row<Goal>>)
    ensures SortedById(r)
    ensures multiset(r) == multiset(Filter(goals, MatchingGoal(startDate, endDate)))
  {
    var byEnd := if endDate.Some? then Filter(goals, EndsOn(endDate.value)) else goals;
    var byStart := if startDate.Some? then Filter(byEnd, StartsOn(startDate.value)) else byEnd;
    ReadGoalsComposesFilters(goals, startDate, endDate);
    SortById(byStart)
  }

  /** The result holds exactly the goals of the table that match both filters. */
  lemma ReadGoalsSelectsMatchingGoals(goals: seq<Row<Goal>>, startDate: Option<Date>, endDate: Option<Date>)
    ensures var r := ReadGoals(goals, startDate, endDate);
      && (forall i :: 0 <= i < |r| ==> r[i] in goals && MatchesDates(startDate, endDate, r[i].data))
      && (forall i :: 0 <= i < |goals| && MatchesDates(startDate, endDate, goals[i].data) ==> goals[i] in r)
  {
    var r := ReadGoals(goals, startDate, endDate);
    var f := Filter(goals, MatchingGoal(startDate, endDate));
    forall i | 0 <= i < |r| ensures r[i] in f {
      assert r[i] in multiset(r);
    }
    forall i | 0 <= i < |goals| && MatchesDates(startDate, endDate, goals[i].data) ensures goals[i] in r {
      assert goals[i] in f;
      assert goals[i] in multiset(f);
    }
  }

  /** Applying the optional filters in turn is filtering by their conjunction. */
  lemma ReadGoalsComposesFilters(goals: seq<Row<Goal>>, startDate: Option<Date>, endDate: Option<Date>)
    ensures
      var byEnd := if endDate.Some? then Filter(goals, EndsOn(endDate.value)) else goals;
      var byStart := if startDate.Some? then Filter(byEnd, StartsOn(startDate.value)) else byEnd;
      byStart == Filter(goals, MatchingGoal(startDate, endDate))
  {
    var all := MatchingGoal(startDate, endDate);
    match (startDate, endDate)
    case (None, None) => FilterKeepingAll(goals, all);
    case (None, Some(e)) => FilterExtensional(goals, EndsOn(e), all);
    case (Some(s), None) => FilterExtensional(goals, StartsOn(s), all);
    case (Some(s), Some(e)) => FilterTwice(goals, EndsOn(e), StartsOn(s), all);
  }

  /** On a well-keyed table the result is exactly the matching goals, in storage
      order; with no filter it is the whole table. */
  lemma ReadGoalsOnWellKeyedTable(goals: seq<Row<Goal>>, next: int, startDate: Option<Date>, endDate: Option<Date>)
    requires WellKeyed(goals, next)
    ensures ReadGoals(goals, startDate, endDate) == Filter(goals, MatchingGoal(startDate, endDate))
    ensures startDate.None? && endDate.None? ==> ReadGoals(goals, startDate, endDate) == goals
  {
    var all := MatchingGoal(startDate, endDate);
    ReadGoalsComposesFilters(goals, startDate, endDate);
    FilterKeepsKeyOrder(goals, all, next);
    SortingSortedRowsIsIdentity(Filter(goals, all));
    if startDate.None? && endDate.None? {
      FilterKeepingAll(goals, all);
    }
  }

  function GoalNotFound(goalId: int): string {
    "Goal with ID " + IntToString(goalId) + " not found."
  }

  /** The prefix `get_goal_by_id` puts before `str(e)`. */
  function CouldNotRetrieve(goalId: int): string {
    "Could not retrieve goal with ID " + IntToString(goalId) + ": "
  }

  /** `"Could not add new goal: " + str(e)` for the missing attribute. */
  const NoCustomerIdAttribute := "Could not add new goal: 'GoalDTO' object has no attribute 'customer_id'"

  /** The reply of `create_goal`: the end date as `str(date)` writes it, and the customer. */
  function GoalAddedFor(endDate: CalendarDate, customerId: int): string {
    "Added goal with end date: " + IsoFormat(endDate) + " for customer with id: " + IntToString(customerId)
  }

  /** `get_goal_by_id`: the goal with that key. The 404 raised for a missing key
      falls into the broad `except` and comes out as a 500. */
  function GetGoalById(goals: seq<Row<Goal>>, goalId: int): (r: Response<Row<Goal>>)
    ensures r.Ok? <==> exists i :: 0 <= i < |goals| && goals[i].id == goalId
    ensures r.Ok? ==> r.value in goals && r.value.id == goalId
    ensures r.Fail? ==> r.error == HttpError(500,
      CouldNotRetrieve(goalId) + ("404: " + GoalNotFound(goalId)))
  {
    match Lookup(goals, goalId)
    case Some(g) => Ok(g)
    case None =>
      var notFound := HttpError(404, GoalNotFound(goalId));
      DescribeStatus(notFound);
      Fail(Rewrap(notFound, 500, CouldNotRetrieve(goalId)))
  }

  /** `create_goal` as written: building the row reads `goal.customer_id`, which
      `GoalDTO` does not declare, so the `AttributeError` is caught and every call
      is answered with a 400 before anything is stored. */
  function CreateGoalAsWritten(goal: GoalDto): (r: Response<Reply>)
    ensures r == Fail(HttpError(400, NoCustomerIdAttribute))
  {
    Fail(HttpError(400, NoCustomerIdAttribute))
  }

  /** The discrepancy: whatever the goal and the customer, the 201 reply that adding
      the goal would give never comes. */
  lemma CreateGoalAsWrittenNeverAddsTheGoal(goal: GoalDto, customerId: int)
    ensures CreateGoalAsWritten(goal) != Ok(Reply(201, GoalAddedFor(goal.endDate, customerId)))
  {
  }

  /** Appending a goal under the next key keeps the table well keyed, and
      `get_goal_by_id` of that key then returns the new row. */
  lemma AppendedGoalIsFound(goals: seq<Row<Goal>>, next: int, g: Goal)
    requires WellKeyed(goals, next) && next >= 1
    ensures WellKeyed(goals + [Row(next, g)], next + 1)
    ensures GetGoalById(goals + [Row(next, g)], next) == Ok(Row(next, g))
  {
    AppendKeepsKeys(goals, next, g);
  }

  /** `create_goal` as evidently intended (the `GoalDTO` of dtos/dtos.py carries
      `customer_id`): one new row with the next key and no date validation. */
  method CreateGoal(db: Db, customerId: int, goal: GoalDto) returns (r: Reply)
    requires db.Valid()
    modifies db
    ensures db.Valid()
    ensures db.goals == old(db.goals) + [Row(old(db.nextGoalId), Goal(Some(customerId), goal.weightGoal, goal.startDate, goal.endDate))]
    ensures db.nextGoalId == old(db.nextGoalId) + 1
    ensures db.gyms == old(db.gyms) && db.customers == old(db.customers) && db.progress == old(db.progress)
    ensures db.nextGymId == old(db.nextGymId) && db.nextCustomerId == old(db.nextCustomerId)
    ensures db.nextProgressId == old(db.nextProgressId)
    ensures r == Reply(201, GoalAddedFor(goal.endDate, customerId))
    ensures GetGoalById(db.goals, old(db.nextGoalId))
            == Ok(Row(old(db.nextGoalId), Goal(Some(customerId), goal.weightGoal, goal.startDate, goal.endDate)))
  {
    var row := Row(db.nextGoalId, Goal(Some(customerId), goal.weightGoal, goal.startDate, goal.endDate));
    AppendedGoalIsFound(db.goals, db.nextGoalId, row.data);
    db.goals := db.goals + [row];
    db.nextGoalId := db.nextGoalId + 1;
    r := Reply(201, GoalAddedFor(goal.endDate, customerId));
  }
}

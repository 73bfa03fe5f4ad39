/** routers/customers.py: looking customers up by name or id, their earliest
    progress row, registering customers, recording progress and goals for them, and
    deleting them. */
module CustomersRouter {
  import opened Wrappers
  import opened Digits
  import opened Dates
  import opened Http
  import opened Tables
  import opened Entities
  import opened Database
  import opened Schemas
  import ProgressRouter
  import GoalsRouter

  // ---------------------------------------------------------------- messages

  /** The prefix the handlers' `except` clauses put before `str(e)`. */
  const ErrorPrefix := "An error occurred: "
  const CustomerNotFound := "Customer not found"
  /** `str(e)` of the `AttributeError` raised by reading `first_name` of `None`. */
  const NoneHasNoFirstName := ErrorPrefix + "'NoneType' object has no attribute 'first_name'"
  const UserExists := "This user already exists!"
  const WeightNotPositive := "Weight must be greater than 0."
  const ProgressSaved := "Progress successfully saved."
  const GoalAdded := "Goal successfully added."
  /** `str(e)` of the ORM error raised by `db.delete(None)`. */
  const NotMapped := ErrorPrefix + "Class 'builtins.NoneType' is not mapped"

  function NoCustomersNamed(firstName: Option<string>, lastName: Option<string>): string {
    "No customers found for name " + Shown(firstName) + " " + Shown(lastName)
  }

  function NoProgressFor(customerId: int): string {
    "No progress found for customer with id " + IntToString(customerId)
  }

  function CustomerAdded(dto: CustomerDto): string {
    "Customer " + dto.firstName + " " + dto.lastName + " successfully added."
  }

  function NoCustomerWithId(customerId: int): string {
    "No customer with id " + IntToString(customerId)
  }

  function CustomerDeleted(customerId: int): string {
    "Customer with id " + IntToString(customerId) + " successfully deleted."
  }

  // ---------------------------------------------------------------- GET /customers/

  /** Python truthiness of an optional query parameter: `None` and `""` are falsy. */
  predicate IsGiven(name: Option<string>) {
    name.Some? && name.value != ""
  }

  /** `x if x else ""` in the not-found message. */
  function Shown(name: Option<string>): string {
    if IsGiven(name) then name.value else ""
  }

  /** The four statements `read_customer_by_name` can build. */
  datatype NameQuery = ByBothNames(first: string, last: string) | ByFirstName(first: string) | ByLastName(last: string) | AllCustomers

  /** The `if`/`elif` chain that picks the statement. */
  function ChooseQuery(firstName: Option<string>, lastName: Option<string>): NameQuery {
    if IsGiven(firstName) && IsGiven(lastName) then ByBothNames(firstName.value, lastName.value)
    else if IsGiven(firstName) then ByFirstName(firstName.value)
    else if IsGiven(lastName) then ByLastName(lastName.value)
    else AllCustomers
  }

  /** The `.where(...)` clauses of a statement. */
  function WhereClause(q: NameQuery): Row<Customer> -> bool {
    match q
    case ByBothNames(f, l) => (c: Row<Customer>) => c.data.firstName == f && c.data.lastName == l
    case ByFirstName(f) => (c: Row<Customer>) => c.data.firstName == f
    case ByLastName(l) => (c: Row<Customer>) => c.data.lastName == l
    case AllCustomers => (c: Row<Customer>) => true
  }

  /** What the lookup asks of a customer: each name that is given must match. */
  predicate MatchesNames(firstName: Option<string>, lastName: Option<string>, c: Customer) {
    && (IsGiven(firstName) ==> c.firstName == firstName.value)
    && (IsGiven(lastName) ==> c.lastName == lastName.value)
  }

  function NamedAs(firstName: Option<string>, lastName: Option<string>): Row<Customer> -> bool {
    (c: Row<Customer>) => MatchesNames(firstName, lastName, c.data)
  }

  /** Each of the four branches selects exactly the customers matching the given names. */
  lemma ChosenQueryMatchesNames(firstName: Option<string>, lastName: Option<string>, c: Row<Customer>)
    ensures WhereClause(ChooseQuery(firstName, lastName))(c) == MatchesNames(firstName, lastName, c.data)
  {
  }

  /** `read_customer_by_name`: the matching customers in storage order, as
      `CustomerResponse`s (every column but the key). The 404 for no match falls into
      the broad `except` and is re-raised as a 404 with the prefixed detail. */
  function ReadCustomerByName(customers: seq<Row<Customer>>, firstName: Option<string>, lastName: Option<string>)
    : (r: Response<seq<Customer>>)
    ensures r.Ok? <==> exists i :: 0 <= i < |customers| && MatchesNames(firstName, lastName, customers[i].data)
    ensures r.Ok? ==> r.value == Project(Filter(customers, NamedAs(firstName, lastName)))
    ensures r.Fail? ==> r.error == HttpError(404,
      ErrorPrefix + ("404: " + NoCustomersNamed(firstName, lastName)))
  {
    var where := WhereClause(ChooseQuery(firstName, lastName));
    forall i | 0 <= i < |customers| ensures where(customers[i]) == NamedAs(firstName, lastName)(customers[i]) {
      ChosenQueryMatchesNames(firstName, lastName, customers[i]);
    }
    FilterExtensional(customers, where, NamedAs(firstName, lastName));
    var result := Filter(customers, where);
    if result == [] then
      var notFound := HttpError(404, NoCustomersNamed(firstName, lastName));
      DescribeStatus(notFound);
      Fail(Rewrap(notFound, 404, ErrorPrefix))
    else
      assert result[0] in customers && NamedAs(firstName, lastName)(result[0]);
      Ok(Project(result))
  }

  /** With no name given every customer is listed, in storage order. */
  lemma ReadCustomerByNameWithoutNames(customers: seq<Row<Customer>>, firstName: Option<string>, lastName: Option<string>)
    requires !IsGiven(firstName) && !IsGiven(lastName) && customers != []
    ensures ReadCustomerByName(customers, firstName, lastName) == Ok(Project(customers))
  {
    FilterKeepingAll(customers, NamedAs(firstName, lastName));
  }

  // ---------------------------------------------------------------- the earliest progress row

  /** `.filter(customer_id == id).order_by(date).limit(1)`: a row of the customer with
      the earliest date (of rows sharing that date, the first stored). */
  function EarliestProgress(progress: seq<Row<Progress>>, customerId: int): (r: Option<Row<Progress>>)
    ensures r.None? <==> forall i :: 0 <= i < |progress| ==> progress[i].data.customerId != Some(customerId)
    ensures r.Some? ==> r.value in progress && r.value.data.customerId == Some(customerId)
    ensures r.Some? ==> forall i :: 0 <= i < |progress| && progress[i].data.customerId == Some(customerId) ==>
      NotAfter(r.value.data.date, progress[i].data.date)
  {
    if progress == [] then None
    else
      var rest := EarliestProgress(progress[1..], customerId);
      assert forall i :: 1 <= i < |progress| ==> progress[i] == progress[1..][i - 1];
      if progress[0].data.customerId != Some(customerId) then rest
      else if rest.Some? && Before(rest.value.data.date, progress[0].data.date) then rest
      else Some(progress[0])
  }

  // ---------------------------------------------------------------- GET /customers/{id}

  /** `SingleCustomerResponse`: the customer's columns, its key and its current weight. */
  datatype SingleCustomer = SingleCustomer(id: int, customer: Customer, weight: int)

  /** `read_customer_by_id`. The weight is that of the customer's earliest progress
      row, or 0 when there is none (`if not current_weight`). */
  function ReadCustomerById(customers: seq<Row<Customer>>, progress: seq<Row<Progress>>, customerId: int)
    : (r: Response<SingleCustomer>)
    ensures r.Ok? <==> exists i :: 0 <= i < |customers| && customers[i].id == customerId
    ensures r.Ok? ==> r.value.id == customerId && Row(customerId, r.value.customer) in customers
    ensures r.Ok? && (forall i :: 0 <= i < |progress| ==> progress[i].data.customerId != Some(customerId)) ==>
      r.value.weight == 0
    ensures r.Ok? && (exists i :: 0 <= i < |progress| && progress[i].data.customerId == Some(customerId)) ==>
      exists k :: 0 <= k < |progress| && progress[k].data.customerId == Some(customerId)
        && r.value.weight == progress[k].data.weight
        && forall i :: 0 <= i < |progress| && progress[i].data.customerId == Some(customerId) ==>
             NotAfter(progress[k].data.date, progress[i].data.date)
    ensures r.Fail? ==> r.error == HttpError(404, ErrorPrefix + ("404: " + CustomerNotFound))
  {
    match Lookup(customers, customerId)
    case None =>
      var notFound := HttpError(404, CustomerNotFound);
      DescribeStatus(notFound);
      Fail(Rewrap(notFound, 404, ErrorPrefix))
    case Some(c) =>
      var weight := match EarliestProgress(progress, customerId)
        case None => 0
        case Some(p) => p.data.weight;
      Ok(SingleCustomer(c.id, c.data, weight))
  }

  /** In a well-keyed table, asking for the key of any row returns that row's columns. */
  lemma ReadCustomerByIdFindsEachRow(customers: seq<Row<Customer>>, progress: seq<Row<Progress>>, next: int, i: int)
    requires WellKeyed(customers, next) && 0 <= i < |customers|
    ensures ReadCustomerById(customers, progress, customers[i].id).Ok?
    ensures ReadCustomerById(customers, progress, customers[i].id).value.customer == customers[i].data
  {
    LookupFindsTheRow(customers, next, i);
  }

  // ---------------------------------------------------------------- GET /customers/{id}/progress/recent

  /** The body of `customer_progress_by_id`: the customer, "first last", and the
      `CustomerProgressResponse` (date and weight) of one progress row. */
  datatype CustomerProgress = CustomerProgress(customerId: int, customerName: string, date: CalendarDate, weight: int)

  /** `customer_progress_by_id`: despite the route's name, the ascending order picks the
      customer's EARLIEST row. Both failures come out of the broad `except` as 404s: the
      raised one, and the `AttributeError` of reading the name of a missing customer. */
  function CustomerProgressById(customers: seq<Row<Customer>>, progress: seq<Row<Progress>>, customerId: int)
    : (r: Response<CustomerProgress>)
    ensures r.Ok? <==>
      && (exists i :: 0 <= i < |progress| && progress[i].data.customerId == Some(customerId))
      && (exists j :: 0 <= j < |customers| && customers[j].id == customerId)
    ensures r.Ok? ==>
      && r.value.customerId == customerId
      && (exists c :: Row(customerId, c) in customers && r.value.customerName == c.firstName + " " + c.lastName)
      && (exists k :: 0 <= k < |progress| && progress[k].data.customerId == Some(customerId)
            && r.value.date == progress[k].data.date && r.value.weight == progress[k].data.weight)
      && forall i :: 0 <= i < |progress| && progress[i].data.customerId == Some(customerId) ==>
           NotAfter(r.value.date, progress[i].data.date)
    ensures (forall i :: 0 <= i < |progress| ==> progress[i].data.customerId != Some(customerId)) ==>
      r == Fail(HttpError(404, ErrorPrefix + ("404: " + NoProgressFor(customerId))))
    ensures (exists i :: 0 <= i < |progress| && progress[i].data.customerId == Some(customerId))
            && (forall j :: 0 <= j < |customers| ==> customers[j].id != customerId) ==>
      r == Fail(HttpError(404, NoneHasNoFirstName))
  {
    match EarliestProgress(progress, customerId)
    case None =>
      var notFound := HttpError(404, NoProgressFor(customerId));
      DescribeStatus(notFound);
      Fail(Rewrap(notFound, 404, ErrorPrefix))
    case Some(p) =>
      match Lookup(customers, customerId)
      case None => Fail(HttpError(404, NoneHasNoFirstName))
      case Some(c) =>
        Ok(CustomerProgress(customerId, c.data.firstName + " " + c.data.lastName, p.data.date, p.data.weight))
  }

  // ---------------------------------------------------------------- GET /customers/{id}/daily_calorie_intake

  const CalorieIntakePlaceholder := "This function does not work yet"

  /** `get_daily_calorie_intake`: the calculation is not implemented; every customer
      gets the same placeholder text. */
  function DailyCalorieIntake(customerId: string): (r: string)
    ensures r == CalorieIntakePlaceholder
  {
    CalorieIntakePlaceholder
  }

  // ---------------------------------------------------------------- POST /customers/

  /** The row `create_user` builds from the request body. */
  function NewCustomer(dto: CustomerDto): Customer {
    Customer(Some(dto.gymId), dto.firstName, dto.lastName, dto.birthDate, dto.gender, dto.length, dto.activityLevel)
  }

  /** The duplicate query compares all seven columns, which is equality of the data. */
  function SameColumns(c: Customer): Row<Customer> -> bool {
    (row: Row<Customer>) =>
      && row.data.gymId == c.gymId && row.data.firstName == c.firstName && row.data.lastName == c.lastName
      && row.data.birthDate == c.birthDate && row.data.gender == c.gender && row.data.length == c.length
      && row.data.activityLevel == c.activityLevel
  }

  /** Some stored customer has exactly these columns. */
  predicate AlreadyRegistered(customers: seq<Row<Customer>>, c: Customer) {
    exists i :: 0 <= i < |customers| && customers[i].data == c
  }

  /** The seven-column duplicate query finds a row exactly when the customer is already registered. */
  lemma DuplicateQueryFindsRegistered(customers: seq<Row<Customer>>, c: Customer)
    ensures Filter(customers, SameColumns(c)) != [] <==> AlreadyRegistered(customers, c)
  {
    var found := Filter(customers, SameColumns(c));
    if found != [] {
      assert found[0] in customers && SameColumns(c)(found[0]);
    }
    if AlreadyRegistered(customers, c) {
      var i :| 0 <= i < |customers| && customers[i].data == c;
      assert SameColumns(c)(customers[i]);
    }
  }

  /** Appending a customer under the next key: the table stays well keyed, the customer
      is registered, and `read_customer_by_id` of the new key returns it. */
  lemma RegisteredCustomerIsFound(customers: seq<Row<Customer>>, progress: seq<Row<Progress>>, next: int, c: Customer)
    requires WellKeyed(customers, next) && next >= 1
    ensures WellKeyed(customers + [Row(next, c)], next + 1)
    ensures AlreadyRegistered(customers + [Row(next, c)], c)
    ensures ReadCustomerById(customers + [Row(next, c)], progress, next).Ok?
    ensures ReadCustomerById(customers + [Row(next, c)], progress, next).value.customer == c
  {
    var grown := customers + [Row(next, c)];
    AppendKeepsKeys(customers, next, c);
    assert grown[|customers|].data == c;
    ReadCustomerByIdFindsEachRow(grown, progress, next + 1, |customers|);
  }

  /** `create_user`: refused with 400 when a row equal on all seven columns exists,
      otherwise one new row with the next key. */
  method CreateUser(db: Db, dto: CustomerDto) returns (r: Response<Reply>)
    requires db.Valid()
    modifies db
    ensures db.Valid()
    ensures r.Fail? <==> AlreadyRegistered(old(db.customers), NewCustomer(dto))
    ensures r.Fail? ==> r.error == HttpError(400, UserExists) && unchanged(db)
    ensures r.Ok? ==> r.value == Reply(201, CustomerAdded(dto))
    ensures r.Ok? ==> db.customers == old(db.customers) + [Row(old(db.nextCustomerId), NewCustomer(dto))]
    ensures r.Ok? ==> db.nextCustomerId == old(db.nextCustomerId) + 1
    ensures r.Ok? ==> db.gyms == old(db.gyms) && db.progress == old(db.progress) && db.goals == old(db.goals)
    ensures r.Ok? ==> db.nextGymId == old(db.nextGymId) && db.nextProgressId == old(db.nextProgressId)
    ensures r.Ok? ==> db.nextGoalId == old(db.nextGoalId)
    ensures AlreadyRegistered(db.customers, NewCustomer(dto))
    ensures r.Ok? ==> ReadCustomerById(db.customers, db.progress, old(db.nextCustomerId)).Ok?
    ensures r.Ok? ==> ReadCustomerById(db.customers, db.progress, old(db.nextCustomerId)).value.customer == NewCustomer(dto)
  {
    var customer := NewCustomer(dto);
    DuplicateQueryFindsRegistered(db.customers, customer);
    if Filter(db.customers, SameColumns(customer)) != [] {
      r := Fail(HttpError(400, UserExists));
      return;
    }
    RegisteredCustomerIsFound(db.customers, db.progress, db.nextCustomerId, customer);
    db.customers := db.customers + [Row(db.nextCustomerId, customer)];
    db.nextCustomerId := db.nextCustomerId + 1;
    r := Ok(Reply(201, CustomerAdded(dto)));
  }

  // ---------------------------------------------------------------- POST /customers/{id}/progress

  /** `create_progress_for_user`: a 404 for an unknown customer, a 422 for a
      non-positive weight (both re-raised unchanged), otherwise one row dated today.
      Until the day is over that row fails the `PastDate` of its response model, so
      `get_progress_by_id` of the new key answers 500 on the same day. */
  method CreateProgressForUser(db: Db, customerId: int, weight: int, today: CalendarDate) returns (r: Response<Reply>)
    requires db.Valid()
    modifies db
    ensures db.Valid()
    ensures r.Fail? <==> weight <= 0 || forall i :: 0 <= i < |old(db.customers)| ==> old(db.customers)[i].id != customerId
    ensures r.Fail? ==> unchanged(db)
    ensures (forall i :: 0 <= i < |old(db.customers)| ==> old(db.customers)[i].id != customerId) ==>
      r == Fail(HttpError(404, NoCustomerWithId(customerId)))
    ensures (exists i :: 0 <= i < |old(db.customers)| && old(db.customers)[i].id == customerId) && weight <= 0 ==>
      r == Fail(HttpError(422, WeightNotPositive))
    ensures r.Ok? ==> r.value == Reply(201, ProgressSaved)
    ensures r.Ok? ==> db.progress == old(db.progress) + [Row(old(db.nextProgressId), Progress(Some(customerId), today, weight))]
    ensures r.Ok? ==> db.nextProgressId == old(db.nextProgressId) + 1
    ensures r.Ok? ==> db.gyms == old(db.gyms) && db.customers == old(db.customers) && db.goals == old(db.goals)
    ensures r.Ok? ==> db.nextGymId == old(db.nextGymId) && db.nextCustomerId == old(db.nextCustomerId)
    ensures r.Ok? ==> db.nextGoalId == old(db.nextGoalId)
    ensures r.Ok? ==> Lookup(db.progress, old(db.nextProgressId)) == Some(Row(old(db.nextProgressId), Progress(Some(customerId), today, weight)))
    ensures r.Ok? ==> ProgressRouter.GetProgressById(db.progress, old(db.nextProgressId), today)
                      == Fail(HttpError(500, ProgressRouter.UnexpectedError))
  {
    if Lookup(db.customers, customerId).None? {
      r := Fail(HttpError(404, NoCustomerWithId(customerId)));
      return;
    }
    var row := Progress(Some(customerId), today, weight);
    if weight <= 0 {
      r := Fail(HttpError(422, WeightNotPositive));
      return;
    }
    AppendKeepsKeys(db.progress, db.nextProgressId, row);
    ProgressRouter.GetProgressByIdFindsEachRow(db.progress + [Row(db.nextProgressId, row)], db.nextProgressId + 1, |db.progress|, today);
    db.progress := db.progress + [Row(db.nextProgressId, row)];
    db.nextProgressId := db.nextProgressId + 1;
    r := Ok(Reply(201, ProgressSaved));
  }

  // ---------------------------------------------------------------- POST /customers/{id}/goals

  const SameDates := "Start date and end date cannot be the same"
  const EndBeforeStart := "End date cannot be before start date"
  const EndNotInFuture := "End date must be in the future"

  /** The validation of `create_goal_for_user`, checked in this order: equal dates,
      end before start, end not after today. */
  function GoalDateProblem(startDate: Date, endDate: Date, today: Date): (r: Option<string>)
    ensures r.None? <==> Before(startDate, endDate) && Before(today, endDate)
    ensures startDate == endDate ==> r == Some(SameDates)
    ensures startDate != endDate && Before(endDate, startDate) ==> r == Some(EndBeforeStart)
    ensures Before(startDate, endDate) && NotAfter(endDate, today) ==> r == Some(EndNotInFuture)
  {
    if startDate == endDate then Some(SameDates)
    else if Before(endDate, startDate) then Some(EndBeforeStart)
    else if NotAfter(endDate, today) then Some(EndNotInFuture)
    else None
  }

  /** `create_goal_for_user`: a rejection is re-wrapped by `except HTTPException` into a
      400 whose detail is prefixed; an accepted goal is one new row with the next key. */
  method CreateGoalForUser(db: Db, customerId: int, goal: GoalDto, today: CalendarDate) returns (r: Response<Reply>)
    requires db.Valid()
    modifies db
    ensures db.Valid()
    ensures r.Fail? <==> !(Before(goal.startDate, goal.endDate) && Before(today, goal.endDate))
    ensures r.Fail? ==> unchanged(db)
    ensures r.Fail? ==>
      r.error == HttpError(400, ErrorPrefix + ("400: " + GoalDateProblem(goal.startDate, goal.endDate, today).value))
    ensures r.Ok? ==> r.value == Reply(201, GoalAdded)
    ensures r.Ok? ==> db.goals == old(db.goals) + [Row(old(db.nextGoalId), Goal(Some(customerId), goal.weightGoal, goal.startDate, goal.endDate))]
    ensures r.Ok? ==> db.nextGoalId == old(db.nextGoalId) + 1
    ensures r.Ok? ==> db.gyms == old(db.gyms) && db.customers == old(db.customers) && db.progress == old(db.progress)
    ensures r.Ok? ==> db.nextGymId == old(db.nextGymId) && db.nextCustomerId == old(db.nextCustomerId)
    ensures r.Ok? ==> db.nextProgressId == old(db.nextProgressId)
    ensures r.Ok? ==> GoalsRouter.GetGoalById(db.goals, old(db.nextGoalId))
                      == Ok(Row(old(db.nextGoalId), Goal(Some(customerId), goal.weightGoal, goal.startDate, goal.endDate)))
  {
    var row := Goal(Some(customerId), goal.weightGoal, goal.startDate, goal.endDate);
    match GoalDateProblem(goal.startDate, goal.endDate, today)
    case Some(message) =>
      var rejected := HttpError(400, message);
      DescribeStatus(rejected);
      r := Fail(Rewrap(rejected, 400, ErrorPrefix));
    case None =>
      GoalsRouter.AppendedGoalIsFound(db.goals, db.nextGoalId, row);
      db.goals := db.goals + [Row(db.nextGoalId, row)];
      db.nextGoalId := db.nextGoalId + 1;
      r := Ok(Reply(201, GoalAdded));
  }

  // ---------------------------------------------------------------- DELETE /customers/{id}

  /** Deleting the customer at position `k` keeps all three tables well keyed, no
      customer row keeps its key, and no progress row or goal refers to it. */
  lemma DeletionKeepsKeys(customers: seq<Row<Customer>>, progress: seq<Row<Progress>>, goals: seq<Row<Goal>>,
                          nextCustomer: int, nextProgress: int, nextGoal: int, k: nat)
    requires WellKeyed(customers, nextCustomer) && WellKeyed(progress, nextProgress) && WellKeyed(goals, nextGoal)
    requires k < |customers|
    ensures WellKeyed(RemoveAt(customers, k), nextCustomer)
    ensures WellKeyed(Unlink(progress, ProgressOf(customers[k].id), DisownProgress), nextProgress)
    ensures WellKeyed(Unlink(goals, GoalOf(customers[k].id), DisownGoal), nextGoal)
    ensures forall i :: 0 <= i < |RemoveAt(customers, k)| ==> RemoveAt(customers, k)[i].id != customers[k].id
    ensures forall i :: 0 <= i < |progress| ==>
      Unlink(progress, ProgressOf(customers[k].id), DisownProgress)[i].data.customerId != Some(customers[k].id)
    ensures forall i :: 0 <= i < |goals| ==>
      Unlink(goals, GoalOf(customers[k].id), DisownGoal)[i].data.customerId != Some(customers[k].id)
  {
    RemoveKeepsKeys(customers, nextCustomer, k);
    UnlinkLeavesNoReference(progress, nextProgress, ProgressOf(customers[k].id), DisownProgress);
    UnlinkLeavesNoReference(goals, nextGoal, GoalOf(customers[k].id), DisownGoal);
  }

  /** Once no customer row has a key, `read_customer_by_id` and the progress route of
      that key fail, whatever the progress table holds. */
  lemma DeletedCustomerIsNotFound(customers: seq<Row<Customer>>, progress: seq<Row<Progress>>, customerId: int)
    requires forall i :: 0 <= i < |customers| ==> customers[i].id != customerId
    ensures ReadCustomerById(customers, progress, customerId).Fail?
    ensures CustomerProgressById(customers, progress, customerId).Fail?
  {
  }

  /** `delete_customer`: a missing id makes `db.delete(None)` raise, which the broad
      `except` turns into a 400; otherwise exactly that row is removed and the
      customer's progress and goals are unlinked from it. */
  method DeleteCustomer(db: Db, customerId: int) returns (r: Response<Reply>)
    requires db.Valid()
    modifies db
    ensures db.Valid()
    ensures r.Fail? <==> forall i :: 0 <= i < |old(db.customers)| ==> old(db.customers)[i].id != customerId
    ensures r.Fail? ==> r.error == HttpError(400, NotMapped) && unchanged(db)
    ensures r.Ok? ==> r.value == Reply(200, CustomerDeleted(customerId))
    ensures r.Ok? ==> RemovedOnce(old(db.customers), db.customers, customerId)
    ensures r.Ok? ==> db.progress == Unlink(old(db.progress), ProgressOf(customerId), DisownProgress)
    ensures r.Ok? ==> db.goals == Unlink(old(db.goals), GoalOf(customerId), DisownGoal)
    ensures r.Ok? ==> db.gyms == old(db.gyms)
    ensures r.Ok? ==> db.nextGymId == old(db.nextGymId) && db.nextCustomerId == old(db.nextCustomerId)
    ensures r.Ok? ==> db.nextProgressId == old(db.nextProgressId) && db.nextGoalId == old(db.nextGoalId)
    ensures r.Ok? ==> forall i :: 0 <= i < |db.customers| ==> db.customers[i].id != customerId
  {
    match IndexOf(db.customers, customerId)
    case None =>
      r := Fail(HttpError(400, NotMapped));
    case Some(k) =>
      DeletionKeepsKeys(db.customers, db.progress, db.goals, db.nextCustomerId, db.nextProgressId, db.nextGoalId, k);
      RemoveAtRemovesOnce(db.customers, k);
      db.customers, db.progress, db.goals :=
        RemoveAt(db.customers, k), Unlink(db.progress, ProgressOf(customerId), DisownProgress),
        Unlink(db.goals, GoalOf(customerId), DisownGoal);
      r := Ok(Reply(200, CustomerDeleted(customerId)));
  }
}

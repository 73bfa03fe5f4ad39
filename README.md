# health-tracker-api, modelled in Dafny

health-tracker-api is a FastAPI service on top of SQLAlchemy. It keeps gyms, their
customers, the customers' weight-progress entries and their weight goals. This project
models the following parts of it:

- the age calculation `calculate_age`, both copies of it;
- the request handlers of the `customers`, `gyms`, `goals` and `progress` routers.

The pieces of the model:

- **Tables.** Each database table is a sequence of `Row(id, data)` in storage order. The
  handlers' queries (`filter(...).first()`, `filter(...).all()`, `order_by(id)`,
  `delete`) are functions over those sequences (module `Tables`).
- **The session.** The database is a class `Database.Db`. It has one `seq` field per table
  and one autoincrement counter per table. `Valid()` says every table is well keyed: its
  keys are positive, below the counter, and increasing in storage order.
- **Read-only handlers** (GET) are functions of the tables.
- **Writing handlers** (POST, DELETE) are methods on a `Db`. Each one states its whole new
  state.
- **Responses.** An `HTTPException` is `Http.HttpError(status, detail)`. Many handlers
  re-raise an exception from a broad `except` with an f-string of the caught exception.
  In the model that is `Rewrap`: the new detail is the prefix followed by
  `str(e) = "<status>: <detail>"`. The exact statuses and details that come out are stated
  in the contracts.
- **Dates** are `(year, month, day)` triples restricted to the proleptic Gregorian
  calendar of Python's `date` (years 1 to 9999), compared lexicographically.
- **The clock.** `date.today()` becomes a parameter `today`. Besides the age, it is
  used by `create_progress_for_user`, `create_goal_for_user`, and the progress routes,
  whose `ProgressResponse` requires a date strictly in the past.
- **`calculate_age`** is a parser of the fixed slices `[0:4]`, `[5:7]` and `[8:10]`
  followed by the age formula. The clock read `date.today()` becomes the parameter
  `today`.

Modules:

- `Wrappers`: `Option`.
- `Digits`: decimal numerals, and `str()` of an integer.
- `Dates`: `Date` and the `CalendarDate` subset type.
- `Http`: errors and replies.
- `Entities`: the four tables' columns.
- `Schemas`: the request bodies.
- `Tables`: row sequences and queries.
- `Database`: the session.
- `Functions`: functions.py.
- `ServiceFunctions`: services/functions.py.
- `CustomersRouter`, `GymsRouter`, `GoalsRouter`, `ProgressRouter`: the routers.

Where a handler's behaviour depends on the ORM, the model follows SQLAlchemy's defaults.
For example, the relationships in models/entities.py have no delete cascade. So deleting
a gym or a customer sets the foreign key of its children to NULL instead of deleting them.

Where the code and its surrounding description disagree, the model follows the code:

- `customer_progress_by_id` (the `/progress/recent` route) and the `current_weight` of
  `read_customer_by_id` both sort ascending by date. They therefore take the customer's
  EARLIEST progress row, not the most recent one.
- Among rows with the same date, the model takes the first one in storage order.
- `get_gyms` answers an empty result with 400, not 404.
- `get_goal_by_id` answers an unknown key with 500.

## Model

| member | source | states |
|---|---|---|
| Functions.Slice | functions.py:7 | Python's clamped slice `s[lo:hi]`: its length is clamped to the string, and each character is the one at `lo + k` |
| Functions.ParseInt | functions.py:7 | `int()` of a slice succeeds exactly on a non-empty string of ASCII digits, and gives its decimal value, or else fails naming the field |
| Functions.MakeDate | functions.py:7 | `date(y, m, d)` succeeds exactly on a valid calendar date. It rejects the year first, then the month, then the day, with the matching error |
| Functions.ParseBirthDate | functions.py:7 | succeeds exactly when the slices [0:4], [5:7] and [8:10] are numerals forming a valid date, and gives that date. A non-numeric year slice is reported first |
| Functions.AgeOn | functions.py:8 | the formula's value is the number of anniversaries reached: the `age`-th anniversary is not after `today` and the next one is after it |
| Functions.CalculateAge | functions.py:4-8 | fails exactly when the birth date does not parse, with the same error. Otherwise `today` lies between the result's anniversary and the next |
| Functions.AnniversaryBracketIsUnique | functions.py:8 | any `n` bracketed by its anniversaries equals the computed age, so the bracket determines the age |
| Functions.AgeIsYearDifferenceUnlessBirthdayPending | functions.py:8 | age = year difference − 1 iff (month, day) of today < (month, day) of birth, and age = year difference otherwise |
| Functions.AgeOnBirthday | functions.py:8 | on the n-th birthday the age is exactly n, because the comparison is strict |
| Functions.AgeIsNonNegative | functions.py:8 | a birth date on or before today gives an age ≥ 0 |
| Functions.AgeIsMonotone | functions.py:8 | for a fixed birth date, a later `today` never gives a smaller age |
| Functions.BirthDateRoundTrip | functions.py:7 | the zero-padded `YYYY-MM-DD` text of any valid date parses back to that date |
| Functions.SeparatorsAreNotInspected | functions.py:7 | two inputs differing only at positions 4 and 7 parse identically |
| Functions.TrailingTextIsIgnored | functions.py:7 | characters after position 9 never change the result |
| Functions.ShortInputIsRejected | functions.py:7 | an input of at most eight characters leaves the day slice empty and is rejected |
| Functions.NineCharacterInputParses | functions.py:7 | `"2000-01-5"` is accepted as 5 January 2000 (the day slice is the single last character) |
| Functions.LeapDayParsesInALeapYear | functions.py:7 | 29 February parses in the leap year 2024 |
| Functions.LeapDayIsRejectedInACommonYear | functions.py:7 | 29 February is a day error in the common year 2023 |
| Functions.LeapDayIsRejectedInACenturyYear | functions.py:7 | 29 February is a day error in 1900, a century year that 400 does not divide |
| ServiceFunctions.CalculateAge | services/functions.py:37-41 | the second copy fails exactly as the first one does, from the same slices, and otherwise gives the same age with the same anniversary bracket |
| ServiceFunctions.CalculateAgeBounds | services/functions.py:41 | for a parsable birth date: never negative when birth ≤ today, and the year difference on the birthday |
| ServiceFunctions.CalculateDailyCalorieIntake | services/functions.py:43-44 | the stub computes nothing and returns `None` |
| Digits.NatToDigits | routers/customers.py:345 | `str(n)` of a natural: a numeral without leading zeros whose decimal value is n |
| Digits.IntToString | routers/gyms.py:76 | `str(i)` of an integer: a minus sign exactly for negatives, followed by the digits of the magnitude |
| Digits.IntToStringInjective | routers/gyms.py:76 | distinct ids give distinct texts in the messages |
| Digits.PadDigits | routers/goals.py:79 | a zero-padded numeral of the given width, whose value is n when n fits |
| Dates.DaysInMonth | functions.py:7 | the month length is 28 to 31, and February has 29 days exactly in leap years |
| Dates.BeforeIsStrictTotalOrder | routers/customers.py:393-403 | date comparison is irreflexive, transitive and total |
| Dates.IsoFormat | routers/goals.py:79 | the text of a date is ten characters: the year, month and day as numerals at 0-3, 5-6 and 8-9, with dashes at 4 and 7 |
| Http.StatusCodeText | routers/customers.py:419-423 | the status part of `str(HTTPException)` for 400, 404 and 500 |
| Http.DescribeStatus | routers/customers.py:88-92 | `str(e)` of an exception with status 400, 404 or 500 is `"<status>: <detail>"` |
| Tables.IndexOf | routers/gyms.py:73 | the position of the first row with a key, or none exactly when no row has it |
| Tables.Lookup | routers/gyms.py:73 | `filter(id == k).first()`: none exactly when no row has key k, otherwise a stored row with that key |
| Tables.LookupFindsTheRow | routers/gyms.py:73 | in a well-keyed table, the lookup of a row's key returns that very row |
| Tables.Filter | routers/gyms.py:39 | `filter(cond).all()`: every kept row is stored and satisfies the condition, and every stored row that satisfies it is kept |
| Tables.FilterKeepsKeyOrder | routers/gyms.py:39 | the filtered rows of a well-keyed table are themselves well keyed, so storage order is kept |
| Tables.FilterKeepingAll | routers/goals.py:49 | a filter that keeps everything returns the table |
| Tables.FilterExtensional | routers/customers.py:32-51 | filters agreeing on every row give the same result |
| Tables.FilterTwice | routers/goals.py:51-54 | two filters in sequence equal one filter on their conjunction |
| Tables.FilterAppend | routers/goals.py:51-54 | filtering distributes over concatenation |
| Tables.Project | routers/progress.py:19-25 | the per-row response list: one element per row, in order, copying the columns |
| Tables.InsertById | routers/goals.py:56 | inserting into an id-sorted sequence keeps it sorted and adds exactly that row |
| Tables.SortById | routers/goals.py:56 | `order_by(id)`: the result is sorted by id and is a permutation of the input |
| Tables.SortingSortedRowsIsIdentity | routers/goals.py:56 | sorting an already sorted sequence changes nothing |
| Tables.RemoveAt | routers/gyms.py:92 | removing one row keeps all other rows in order |
| Tables.AppendKeepsKeys | routers/gyms.py:60-62 | appending a row with the next key keeps the table well keyed, and its lookup finds the new row |
| Tables.RemoveKeepsKeys | routers/gyms.py:92-93 | deleting a row keeps the table well keyed, and afterwards its key finds nothing |
| Tables.WellKeyedIsSorted | routers/goals.py:56 | a well-keyed table is in id order |
| Tables.SameKeysKeepKeys | routers/customers.py:475 | rewriting columns without touching keys keeps a table well keyed |
| Tables.Unlink | models/entities.py:18-25 | after a parent is deleted under a relationship with no delete cascade, every child row stays under its key, the parent's children get their data cleared (foreign key NULL), and every other row is untouched |
| Tables.UnlinkLeavesNoReference | models/entities.py:18-25 | unlinking keeps the table well keyed, and when a cleared row no longer refers to the parent, no row refers to it afterwards |
| GymsRouter.GetGyms | routers/gyms.py:15-51 | with no place: every gym in order, or 400 "an error occurred during search404: …" for an empty table. With a place: exactly the gyms in that place, or 400 when there are none |
| GymsRouter.GetGymById | routers/gyms.py:70-82 | the gym with that key, or 404 "Gym with id N not found" exactly when there is none |
| GymsRouter.GetCustomersByGymId | routers/gyms.py:101-111 | exactly the customers whose gym_id is N, or 404 "Gym with id N has no customers", which keeps its status |
| GymsRouter.CreateGym | routers/gyms.py:53-68 | appends one gym with the next key and no duplicate check, changes nothing else, and `get_gym_by_id` then returns it |
| GymsRouter.DeleteGym | routers/gyms.py:84-98 | a missing key gives 404 and changes nothing. Otherwise exactly that gym is removed, the message has status 200, its customers lose their gym_id, and everything else is unchanged. Afterwards the GET handler and the customer listing of that gym both fail |
| ProgressRouter.GetProgress | routers/progress.py:12-31 | 404 "no progresses found" for an empty table; otherwise one response per stored row in order, copying customer_id, date and weight, exactly when every row passes `ProgressResponse` on that day (positive customer_id and weight, date strictly before today), and 500 "unexpected error!" when any row fails |
| ProgressRouter.GetProgressById | routers/progress.py:33-50 | 404 "No progress found with id N" exactly when no row has that key; otherwise the stored row when it passes `ProgressResponse` on that day, and 500 "unexpected error!" only for a row with that key that fails it |
| ProgressRouter.GetProgressByIdFindsEachRow | routers/progress.py:36-44 | in a well-keyed table, fetching a row's key gives exactly that row when it passes `ProgressResponse`, and the 500 otherwise |
| ProgressRouter.SavedProgressIsShownFromTheNextDay | routers/progress.py:40-50 | a row appended on a given day is answered with 500 for the rest of that day, since its date is not yet a `PastDate`, and returned on every later day when its customer_id and weight are positive |
| ProgressRouter.UnlinkedProgressIsRefused | routers/progress.py:19-50 | a row whose customer_id is NULL, as after `delete_customer`, makes both `get_progress_by_id` of its key and `get_progress` answer 500 on every day |
| GoalsRouter.ReadGoals | routers/goals.py:39-62 | sorted by id, and a permutation of the goals matching the given end and start dates |
| GoalsRouter.ReadGoalsSelectsMatchingGoals | routers/goals.py:51-56 | a goal is in the result iff it is stored and matches every given date filter |
| GoalsRouter.ReadGoalsComposesFilters | routers/goals.py:51-54 | the two optional filters in sequence equal the filter on their conjunction |
| GoalsRouter.ReadGoalsOnWellKeyedTable | routers/goals.py:49-56 | on a well-keyed table the result is the matching goals in storage order, and all goals when no filter is given |
| GoalsRouter.GetGoalById | routers/goals.py:87-107 | the goal with that key, or 500 "Could not retrieve goal with ID N: 404: Goal with ID N not found." exactly when there is none |
| GoalsRouter.AppendedGoalIsFound | routers/goals.py:73-75 | appending a goal under the next key keeps the table well keyed, and `get_goal_by_id` of that key returns the new row |
| GoalsRouter.CreateGoalAsWritten | routers/goals.py:64-85 | as written, every call is refused with 400 "Could not add new goal: 'GoalDTO' object has no attribute 'customer_id'", because the `GoalDTO` it reads has no `customer_id` |
| GoalsRouter.CreateGoalAsWrittenNeverAddsTheGoal | routers/goals.py:67-79 | for no goal and no customer does the call give the 201 "Added goal…" reply that storing the goal would give |
| GoalsRouter.CreateGoal | routers/goals.py:64-80 | corrected: appends exactly one goal with the given customer and dates, with no date validation. It changes nothing else, replies 201 naming the end date and the customer, and `get_goal_by_id` then finds the goal |
| CustomersRouter.ChosenQueryMatchesNames | routers/customers.py:32-51 | the statement picked by the four-way `if` keeps a customer iff each name that is given matches |
| CustomersRouter.ReadCustomerByName | routers/customers.py:24-92 | exactly the customers matching the given names, in storage order, or 404 "An error occurred: 404: No customers found for name F L" exactly when none match |
| CustomersRouter.ReadCustomerByNameWithoutNames | routers/customers.py:48-51 | with neither name given, every customer is listed |
| CustomersRouter.EarliestProgress | routers/customers.py:111-115 | a progress row of the customer whose date is not after any other row of theirs, or none exactly when they have no rows |
| CustomersRouter.ReadCustomerById | routers/customers.py:94-144 | the customer with that key plus the weight of their earliest progress row, or 0 when they have none. An unknown key gives 404 "An error occurred: 404: Customer not found" |
| CustomersRouter.ReadCustomerByIdFindsEachRow | routers/customers.py:98-103 | in a well-keyed table every customer is found by its key |
| CustomersRouter.CustomerProgressById | routers/customers.py:241-285 | the customer's earliest progress row with "first last". No rows gives 404 "…No progress found for customer with id N". Rows for a missing customer give the 404 of the `NoneType` attribute error |
| CustomersRouter.DailyCalorieIntake | routers/customers.py:287-290 | every customer gets the placeholder "This function does not work yet" |
| CustomersRouter.DuplicateQueryFindsRegistered | routers/customers.py:306-316 | the duplicate query on all seven columns finds a row exactly when a stored customer has those columns |
| CustomersRouter.RegisteredCustomerIsFound | routers/customers.py:322-324 | appending a customer under the next key keeps the table well keyed, registers the customer, and `read_customer_by_id` of that key returns it |
| CustomersRouter.CreateUser | routers/customers.py:293-338 | a row equal on all seven columns gives 400 "This user already exists!" and changes nothing. Otherwise it appends exactly one row with the next key, changes nothing else, replies 201, and `read_customer_by_id` then finds it |
| CustomersRouter.CreateProgressForUser | routers/customers.py:340-381 | an unknown customer gives 404 and a weight ≤ 0 gives 422, in that order, and neither stores anything. Otherwise it appends exactly one row dated today, under the next key. A lookup of that key in the table finds the row, but `get_progress_by_id` of it answers 500 on the same day, because the row's date is not yet a `PastDate` |
| CustomersRouter.GoalDateProblem | routers/customers.py:393-407 | no problem iff start < end and end > today. Otherwise, in order: equal dates, end before start, then end not after today |
| CustomersRouter.CreateGoalForUser | routers/customers.py:383-430 | a rejected goal gives 400 "An error occurred: 400: <reason>" and changes nothing. An accepted goal appends exactly one row, changes nothing else, replies 201, and the model's `get_goal_by_id` then finds it (the `GoalResponse` response model that FastAPI applies to that route is not modelled, see below) |
| CustomersRouter.DeletionKeepsKeys | routers/customers.py:475-476 | removing the customer's row and unlinking its progress and goals keeps all three tables well keyed, no customer row keeps that key, and no progress row or goal refers to the customer |
| CustomersRouter.DeletedCustomerIsNotFound | routers/customers.py:94-144 | once no row has a key, `read_customer_by_id` and `customer_progress_by_id` of that key fail |
| CustomersRouter.DeleteCustomer | routers/customers.py:470-486 | a missing customer gives 400 with the ORM's "not mapped" error and changes nothing. Otherwise exactly that row is removed, its progress and goals lose their customer_id, nothing else changes, and no customer row keeps the key |

## Left out

- Database plumbing is not modelled: the engine and session setup, the `get_db` generators, dotenv, commit failures and the `SQLAlchemyError` branches (the 422 of `create_progress_for_user`, the 500s of gyms.py). Each needs a failing database, which the model does not have. The "unexpected error!" 500 of progress.py is modelled for the one cause that needs no failing database, a row that fails `ProgressResponse`; the same 500 from a database failure is not.
- Pydantic validation of request bodies is not modelled. That covers PositiveInt, PastDate and FutureDate, and FastAPI's 422 for bad input, which belong to the library. So the handlers' own checks (weight > 0, goal dates) are modelled on any integer or date.
- Response models are validated in the model only for `ProgressResponse` in routers/progress.py. Elsewhere a stored row that fails its response model is not modelled. Examples are a customer whose gym was deleted (`gym_id` NULL under `CustomerResponse`, which `read_customer_by_name` answers with a 404 carrying pydantic's message), and a goal whose customer_id is missing or not positive or whose end date has passed, under the `GoalResponse` that FastAPI applies to `get_goal_by_id`. The pydantic message texts are not derivable, and `GoalResponse` is checked by FastAPI outside the handler.
- CustomersRouter.CreateGoalForUser: the statement that `get_goal_by_id` finds the new row holds of the model only. The real route also applies `GoalResponse`, which refuses a row whose customer_id is not positive.
- The response models `SingleCustomerResponse`, `CustomerProgressResponse` and `CustomerGoalResponse` are imported by routers/customers.py:10 (and the tests) but are not defined in schemas/responses.py, so that module cannot be imported as given. The shapes `CustomersRouter.SingleCustomer` and `CustomersRouter.CustomerProgress` are inferred from the keyword arguments at their call sites.
- Foreign keys are not enforced on insert, since that depends on the database engine. A goal, progress row or customer may name a key that does not exist.
- Response ids are not modelled. `CustomerResponse` and `GymResponse` declare no `id`, so the ids passed to them are dropped, and the model's lists carry the columns only.
- `read_goals` takes its query dates as already converted `Date`s. The conversion of the query string by the database, and the 500 for a malformed date, are not modelled.
- Functions.ParseInt: accepts only non-empty ASCII digit strings. Python's `int()` also accepts surrounding whitespace, a sign, underscores between digits and non-ASCII digits, which the model rejects.
- The clock read and `print(today)` in `calculate_age` are not modelled. `today` is a parameter.
- The calorie recommendation is not modelled because the code has none. `calculate_daily_calorie_intake` is a stub, and the handler returns a placeholder text.
- `update_customer` is not modelled. It passes an ORM object to `.values()` and refreshes a transient object, so it has no behaviour that can be stated on the tables.
- `read_customer_goals` and `read_customer_progress` in routers/customers.py are not modelled. They are separate listing routes alongside the modelled handlers.
- The alembic migration runner and the `activity_level` range check of the migration are not modelled. `activity_level` is carried as a value compared for equality.
- `async` is not modelled. Each handler is one sequential step on the tables.
- Text produced by the ORM is not derived. The details "'NoneType' object has no attribute 'first_name'", "Class 'builtins.NoneType' is not mapped" and the `AttributeError` text of `create_goal` are taken as constants.

## Findings

| source | as written | input that shows it | evidently intended | confidence | as-written member | corrected member |
|---|---|---|---|---|---|---|
| routers/goals.py:68 | `create_goal` builds the row from `goal.customer_id`, but the `GoalDTO` it imports from schemas/dtos.py:30-34 has that field commented out. The `AttributeError` is caught at line 81, so every request is answered 400 "Could not add new goal: …" and nothing is stored | any body, e.g. weight_goal 70, start 2025-01-01, end 2025-06-01 | store the goal for the given customer, as with the `GoalDTO` of dtos/dtos.py:27-31 that declares `customer_id`, and reply 201 | medium, not executed | GoalsRouter.CreateGoalAsWritten, GoalsRouter.CreateGoalAsWrittenNeverAddsTheGoal | GoalsRouter.CreateGoal |

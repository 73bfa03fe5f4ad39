/** The columns of the four tables of models/entities.py, without the primary key
    (which `Tables.Row` carries). Foreign keys are nullable columns. */
module Entities {
  import opened Wrappers
  import opened Dates

  datatype Gym = Gym(name: string, addressPlace: string)

  /** `activity_level` is a Float column; it is only ever copied and compared for equality. */
  datatype Customer = Customer(
    gymId: Option<int>,
    firstName: string,
    lastName: string,
    birthDate: CalendarDate,
    gender: string,
    length: int,
    activityLevel: real)

  datatype Progress = Progress(customerId: Option<int>, date: CalendarDate, weight: int)

  datatype Goal = Goal(customerId: Option<int>, weightGoal: int, startDate: CalendarDate, endDate: CalendarDate)

  // The foreign keys a deletion sets to NULL: `Gym.customers`, `Customer.progress`
  // and `Customer.goals` have no delete cascade.

  function MemberOf(gymId: int): Customer -> bool {
    (c: Customer) => c.gymId == Some(gymId)
  }

  function LeaveGym(c: Customer): Customer {
    c.(gymId := None)
  }

  function ProgressOf(customerId: int): Progress -> bool {
    (p: Progress) => p.customerId == Some(customerId)
  }

  function DisownProgress(p: Progress): Progress {
    p.(customerId := None)
  }

  function GoalOf(customerId: int): Goal -> bool {
    (g: Goal) => g.customerId == Some(customerId)
  }

  function DisownGoal(g: Goal): Goal {
    g.(customerId := None)
  }
}

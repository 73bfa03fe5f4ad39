/** The request bodies of schemas/dtos.py that the modelled handlers read. The
    library validators on their fields (PositiveInt, PastDate, FutureDate) belong to
    the request layer and are not assumed here. */
module Schemas {
  import opened Dates

  /** `CustomerDTO`. */
  datatype CustomerDto = CustomerDto(
    gymId: int,
    firstName: string,
    lastName: string,
    birthDate: CalendarDate,
    gender: string,
    length: int,
    activityLevel: real)

  /** `GoalDTO`; its `customer_id` field is commented out in schemas/dtos.py. */
  datatype GoalDto = GoalDto(weightGoal: int, startDate: CalendarDate, endDate: CalendarDate)
}

/** The database session the handlers share: the four tables of models/entities.py,
    each in storage order, with the key each autoincrementing id column issues next. */
module Database {
  import opened Tables
  import opened Entities

  class Db {
    var gyms: seq<Row<Gym>>
    var customers: seq<Row<Customer>>
    var progress: seq<Row<Progress>>
    var goals: seq<Row<Goal>>
    var nextGymId: int
    var nextCustomerId: int
    var nextProgressId: int
    var nextGoalId: int

    /** Every table is well keyed by its own counter. */
    ghost predicate Valid()
      reads this
    {
      && nextGymId >= 1 && nextCustomerId >= 1 && nextProgressId >= 1 && nextGoalId >= 1
      && WellKeyed(gyms, nextGymId)
      && WellKeyed(customers, nextCustomerId)
      && WellKeyed(progress, nextProgressId)
      && WellKeyed(goals, nextGoalId)
    }

    /** A fresh database: empty tables, every id sequence starting at 1. */
    constructor ()
      ensures Valid()
      ensures gyms == [] && customers == [] && progress == [] && goals == []
      ensures nextGymId == 1 && nextCustomerId == 1 && nextProgressId == 1 && nextGoalId == 1
    {
      gyms, customers, progress, goals := [], [], [], [];
      nextGymId, nextCustomerId, nextProgressId, nextGoalId := 1, 1, 1, 1;
    }
  }
}

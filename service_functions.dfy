/** services/functions.py keeps a second, character-for-character copy of `calculate_age`.
    It reads the same three slices and applies the same formula, so it is modelled
    by the definition in `Functions`, and its contract is restated here for this copy. */
module ServiceFunctions {
  import opened Dates
  import Functions
  import opened Wrappers

  /** `calculate_age(born)` of services/functions.py, evaluated on the day `today`. */
  function CalculateAge(born: string, today: Date): (r: Functions.Result<int>)
    ensures r.Err? <==> Functions.ParseBirthDate(born).Err?
    ensures r.Err? ==> r.error == Functions.ParseBirthDate(born).error
    ensures r.Ok? ==>
      var birth := Functions.ParseBirthDate(born).value;
      && r.value == Functions.AgeOn(birth, today)
      && NotAfter(Functions.Anniversary(birth, r.value), today)
      && Before(today, Functions.Anniversary(birth, r.value + 1))
  {
    Functions.CalculateAge(born, today)
  }

  /** The copy gives the year difference on the birthday and is never negative
      for a birth date on or before `today`. */
  lemma CalculateAgeBounds(born: string, today: Date)
    requires Functions.ParseBirthDate(born).Ok?
    ensures var birth := Functions.ParseBirthDate(born).value;
      && CalculateAge(born, today).Ok?
      && (NotAfter(birth, today) ==> CalculateAge(born, today).value >= 0)
      && (today.month == birth.month && today.day == birth.day ==>
            CalculateAge(born, today).value == today.year - birth.year)
  {
  }

  /** `calculate_daily_calorie_intake()`: the body is `pass`, so the call takes nothing
      and gives Python's `None`; no intake is ever computed. */
  function CalculateDailyCalorieIntake(): (r: Option<real>)
    ensures r.None?
  {
    None
  }
}

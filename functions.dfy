/** `calculate_age` of functions.py: read a birth date from the fixed positions of a
    `YYYY-MM-DD` string and give the whole years lived by `today`. The clock read
    (`date.today()`) is the parameter `today`. */
module Functions {
  import opened Digits
  import opened Dates

  /** Which of the three `int(...)` conversions failed. */
  datatype Field = YearField | MonthField | DayField

  /** The `ValueError`s the function can raise: from `int()` on a slice, or from `date()`. */
  datatype AgeError =
    | NotAnInteger(field: Field)
    | YearOutOfRange
    | MonthOutOfRange
    | DayOutOfRange

  datatype Result<+T> = Ok(value: T) | Err(error: AgeError) {
    predicate IsFailure() {
      Err?
    }

    function PropagateFailure<U>(): Result<U>
      requires Err?
    {
      Err(error)
    }

    function Extract(): T
      requires Ok?
    {
      value
    }
  }

  /** Python's `s[lo:hi]` for 0 <= lo <= hi: the bounds are clamped to the string. */
  function Slice(s: string, lo: nat, hi: nat): (r: string)
    requires lo <= hi
    ensures |r| == (if |s| <= lo then 0 else if |s| <= hi then |s| - lo else hi - lo)
    ensures forall k :: 0 <= k < |r| ==> lo + k < |s| && r[k] == s[lo + k]
  {
    if |s| <= lo then [] else if |s| <= hi then s[lo..] else s[lo..hi]
  }

  /** The strings the model lets `int()` accept: one or more ASCII digits. */
  predicate IsIntLiteral(t: string) {
    t != [] && AllDigits(t)
  }

  function ParseInt(t: string, f: Field): (r: Result<int>)
    ensures r.Ok? <==> IsIntLiteral(t)
    ensures r.Ok? ==> r.value == DigitsValue(t) && r.value >= 0
    ensures r.Err? ==> r.error == NotAnInteger(f)
  {
    if IsIntLiteral(t) then Ok(DigitsValue(t)) else Err(NotAnInteger(f))
  }

  /** `date(year, month, day)`: the year is checked first, then the month, then the day. */
  function MakeDate(y: int, m: int, d: int): (r: Result<CalendarDate>)
    ensures r.Ok? <==> IsValid(Date(y, m, d))
    ensures r.Ok? ==> r.value == Date(y, m, d)
    ensures r == Err(YearOutOfRange) <==> !(MinYear <= y <= MaxYear)
    ensures r == Err(MonthOutOfRange) <==> MinYear <= y <= MaxYear && !(1 <= m <= 12)
    ensures r == Err(DayOutOfRange) <==> MinYear <= y <= MaxYear && 1 <= m <= 12 && !(1 <= d <= DaysInMonth(y, m))
  {
    if !(MinYear <= y <= MaxYear) then Err(YearOutOfRange)
    else if !(1 <= m <= 12) then Err(MonthOutOfRange)
    else if !(1 <= d <= DaysInMonth(y, m)) then Err(DayOutOfRange)
    else Ok(Date(y, m, d))
  }

  /** `date(year=int(born[0:4]), month=int(born[5:7]), day=int(born[8:10]))`;
      the arguments are converted left to right before `date()` runs. */
  function ParseBirthDate(born: string): (r: Result<CalendarDate>)
    ensures r.Ok? <==>
      && IsIntLiteral(Slice(born, 0, 4)) && IsIntLiteral(Slice(born, 5, 7)) && IsIntLiteral(Slice(born, 8, 10))
      && IsValid(Date(DigitsValue(Slice(born, 0, 4)), DigitsValue(Slice(born, 5, 7)), DigitsValue(Slice(born, 8, 10))))
    ensures r.Ok? ==>
      r.value == Date(DigitsValue(Slice(born, 0, 4)), DigitsValue(Slice(born, 5, 7)), DigitsValue(Slice(born, 8, 10)))
    ensures !IsIntLiteral(Slice(born, 0, 4)) ==> r == Err(NotAnInteger(YearField))
  {
    var y :- ParseInt(Slice(born, 0, 4), YearField);
    var m :- ParseInt(Slice(born, 5, 7), MonthField);
    var d :- ParseInt(Slice(born, 8, 10), DayField);
    MakeDate(y, m, d)
  }

  /** The date on which `birth` comes round for the `n`-th time. */
  function Anniversary(birth: Date, n: int): Date {
    Date(birth.year + n, birth.month, birth.day)
  }

  /** `today.year - birth.year - ((today.month, today.day) < (birth.month, birth.day))`:
      the number of anniversaries reached by `today`. */
  function AgeOn(birth: Date, today: Date): (age: int)
    ensures NotAfter(Anniversary(birth, age), today)
    ensures Before(today, Anniversary(birth, age + 1))
  {
    today.year - birth.year - (if MonthDayBefore(today.month, today.day, birth.month, birth.day) then 1 else 0)
  }

  /** `calculate_age(born)` evaluated on the day `today`. */
  function CalculateAge(born: string, today: Date): (r: Result<int>)
    ensures r.Err? <==> ParseBirthDate(born).Err?
    ensures r.Err? ==> r.error == ParseBirthDate(born).error
    ensures r.Ok? ==>
      var birth := ParseBirthDate(born).value;
      NotAfter(Anniversary(birth, r.value), today) && Before(today, Anniversary(birth, r.value + 1))
  {
    var birth :- ParseBirthDate(born);
    Ok(AgeOn(birth, today))
  }

  // Properties of the age formula.

  /** The anniversary bracket determines the age: there is only one such `n`. */
  lemma AnniversaryBracketIsUnique(birth: Date, today: Date, n: int)
    requires NotAfter(Anniversary(birth, n), today) && Before(today, Anniversary(birth, n + 1))
    ensures n == AgeOn(birth, today)
  {
  }

  /** One year is taken off exactly when this year's birthday is still to come. */
  lemma AgeIsYearDifferenceUnlessBirthdayPending(birth: Date, today: Date)
    ensures AgeOn(birth, today) == today.year - birth.year - 1
            <==> MonthDayBefore(today.month, today.day, birth.month, birth.day)
    ensures AgeOn(birth, today) == today.year - birth.year
            <==> !MonthDayBefore(today.month, today.day, birth.month, birth.day)
  {
  }

  /** On the birthday itself the comparison is strict, so the age is the year difference. */
  lemma AgeOnBirthday(birth: Date, n: int)
    ensures AgeOn(birth, Anniversary(birth, n)) == n
  {
  }

  /** Nobody born on or before `today` has a negative age. */
  lemma AgeIsNonNegative(birth: Date, today: Date)
    requires NotAfter(birth, today)
    ensures AgeOn(birth, today) >= 0
  {
  }

  /** As `today` advances, the age never decreases. */
  lemma AgeIsMonotone(birth: Date, today1: Date, today2: Date)
    requires NotAfter(today1, today2)
    ensures AgeOn(birth, today1) <= AgeOn(birth, today2)
  {
  }

  // Properties of the parser.

  /** A zero-padded `YYYY-MM-DD` string of a valid date parses back to that date. */
  lemma BirthDateRoundTrip(d: CalendarDate)
    ensures ParseBirthDate(IsoFormat(d)) == Ok(d)
  {
    var s := IsoFormat(d);
    assert Slice(s, 0, 4) == s[0..4];
    assert Slice(s, 5, 7) == s[5..7];
    assert Slice(s, 8, 10) == s[8..10];
  }

  /** Only positions 0-3, 5-6 and 8-9 are read: the separators at 4 and 7 may be anything. */
  lemma SeparatorsAreNotInspected(s: string, t: string)
    requires |s| == |t|
    requires forall i :: 0 <= i < |s| && i != 4 && i != 7 ==> s[i] == t[i]
    ensures ParseBirthDate(s) == ParseBirthDate(t)
  {
    assert Slice(s, 0, 4) == Slice(t, 0, 4);
    assert Slice(s, 5, 7) == Slice(t, 5, 7);
    assert Slice(s, 8, 10) == Slice(t, 8, 10);
  }

  /** Text after position 9 is ignored. */
  lemma TrailingTextIsIgnored(s: string, rest: string)
    requires |s| >= 10
    ensures ParseBirthDate(s + rest) == ParseBirthDate(s)
  {
    assert Slice(s + rest, 0, 4) == Slice(s, 0, 4);
    assert Slice(s + rest, 5, 7) == Slice(s, 5, 7);
    assert Slice(s + rest, 8, 10) == Slice(s, 8, 10);
  }

  /** With at most eight characters the day slice is empty, so parsing fails. */
  lemma ShortInputIsRejected(s: string)
    requires |s| <= 8
    ensures ParseBirthDate(s).Err?
  {
  }

  /** A nine-character input still parses: `born[8:10]` is then the single last digit. */
  lemma NineCharacterInputParses()
    ensures ParseBirthDate("2000-01-5") == Ok(Date(2000, 1, 5))
  {
    assert Slice("2000-01-5", 0, 4) == "2000";
    assert Slice("2000-01-5", 5, 7) == "01";
    assert Slice("2000-01-5", 8, 10) == "5";
    Numeral4("2000", 2000);
    Numeral2("01", 1);
    assert DigitsValue("5") == 5;
  }

  /** February 29 is accepted in a leap year... */
  lemma LeapDayParsesInALeapYear()
    ensures ParseBirthDate("2024-02-29") == Ok(Date(2024, 2, 29))
  {
    assert Slice("2024-02-29", 0, 4) == "2024" && Slice("2024-02-29", 5, 7) == "02" && Slice("2024-02-29", 8, 10) == "29";
    Numeral4("2024", 2024);
    Numeral2("02", 2);
    Numeral2("29", 29);
  }

  /** ...and is a day error in a common year... */
  lemma LeapDayIsRejectedInACommonYear()
    ensures ParseBirthDate("2023-02-29") == Err(DayOutOfRange)
  {
    assert Slice("2023-02-29", 0, 4) == "2023" && Slice("2023-02-29", 5, 7) == "02" && Slice("2023-02-29", 8, 10) == "29";
    Numeral4("2023", 2023);
    Numeral2("02", 2);
    Numeral2("29", 29);
  }

  /** ...including a century year that 400 does not divide. */
  lemma LeapDayIsRejectedInACenturyYear()
    ensures ParseBirthDate("1900-02-29") == Err(DayOutOfRange)
  {
    assert Slice("1900-02-29", 0, 4) == "1900" && Slice("1900-02-29", 5, 7) == "02" && Slice("1900-02-29", 8, 10) == "29";
    Numeral4("1900", 1900);
    Numeral2("02", 2);
    Numeral2("29", 29);
  }

  /** Evaluates a two-digit numeral. */
  lemma Numeral2(s: string, n: int)
    requires |s| == 2 && AllDigits(s)
    requires n == DigitValue(s[0]) * 10 + DigitValue(s[1])
    ensures DigitsValue(s) == n
  {
    assert s[..1][..0] == [];
    assert DigitsValue(s[..1]) == DigitValue(s[0]);
    assert DigitsValue(s) == DigitsValue(s[..1]) * 10 + DigitValue(s[1]);
  }

  /** Evaluates a four-digit numeral. */
  lemma Numeral4(s: string, n: int)
    requires |s| == 4 && AllDigits(s)
    requires n == ((DigitValue(s[0]) * 10 + DigitValue(s[1])) * 10 + DigitValue(s[2])) * 10 + DigitValue(s[3])
    ensures DigitsValue(s) == n
  {
    Numeral2(s[..2], DigitValue(s[0]) * 10 + DigitValue(s[1]));
    assert s[..3][..2] == s[..2];
    assert DigitsValue(s[..3]) == DigitsValue(s[..2]) * 10 + DigitValue(s[2]);
    assert DigitsValue(s) == DigitsValue(s[..3]) * 10 + DigitValue(s[3]);
  }
}

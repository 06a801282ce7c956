/** C integers as the programs see them (time_t is a 32-bit int, long is 64 bits wide),
    and the two ways a program run can end. */
module Machine {

  datatype Option<+T> = None | Some(value: T)

  const TIME_MIN := -0x8000_0000
  const TIME_MAX := 0x7fff_ffff
  const TIME_SPAN := 0x1_0000_0000
  const LONG_MIN := -0x8000_0000_0000_0000
  const LONG_MAX := 0x7fff_ffff_ffff_ffff
  const LONG_SPAN := 0x1_0000_0000_0000_0000

  datatype Error =
    | TimeOverflow
    | NoDayInMonth
    | LeapDayInCommonYear
    | TooManyTransitions
    | TooManyTypes
    | TooManyAbbreviations
    | WildRead            // the C code reads memory it does not own

  /** Exit stands for the message and exit(1) of the source. */
  datatype Outcome<+T> = Ok(value: T) | Exit(error: Error) {
    predicate IsFailure() {
      Exit?
    }

    function PropagateFailure<U>(): Outcome<U>
      requires Exit?
    {
      Exit(error)
    }

    function Extract(): T
      requires Ok?
    {
      value
    }
  }

  predicate InTime(x: int) {
    TIME_MIN <= x <= TIME_MAX
  }

  predicate InLong(x: int) {
    LONG_MIN <= x <= LONG_MAX
  }

  /** Conversion to time_t keeps the low 32 bits. */
  function WrapTime(x: int): (r: int)
    ensures InTime(r) && (x - r) % TIME_SPAN == 0
    ensures InTime(x) ==> r == x
  {
    (x - TIME_MIN) % TIME_SPAN + TIME_MIN
  }

  /** Conversion to long keeps the low 64 bits. */
  function WrapLong(x: int): (r: int)
    ensures InLong(r) && (x - r) % LONG_SPAN == 0
    ensures InLong(x) ==> r == x
  {
    (x - LONG_MIN) % LONG_SPAN + LONG_MIN
  }

  /** C division truncates towards zero. */
  function CDiv(a: int, b: nat): int
    requires b > 0
  {
    if a >= 0 then a / b else -((-a) / b)
  }
}

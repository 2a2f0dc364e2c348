/** Calendar months as named values, and the two ways the weather-station headers number
    them: calibration_config.h counts January as 1, configuracion_regional.h counts it as 0.
    The month names are what the headers' comments give for each numeric constant, so this
    module is the reference against which the season predicates are checked. */
module Calendar {

  datatype Month =
    | January | February | March | April | May | June
    | July | August | September | October | November | December

  /** Position of `m` in the year counting January as 0. */
  function ZeroBased(m: Month): (n: int)
    ensures 0 <= n < 12
  {
    match m
    case January => 0
    case February => 1
    case March => 2
    case April => 3
    case May => 4
    case June => 5
    case July => 6
    case August => 7
    case September => 8
    case October => 9
    case November => 10
    case December => 11
  }

  /** Position of `m` in the year counting January as 1. */
  function OneBased(m: Month): (n: int)
    ensures 1 <= n <= 12
    ensures n == ZeroBased(m) + 1
  {
    ZeroBased(m) + 1
  }

  /** The month a 0-based number denotes. */
  function FromZeroBased(n: int): (m: Month)
    requires 0 <= n < 12
    ensures ZeroBased(m) == n
  {
    if n == 0 then January
    else if n == 1 then February
    else if n == 2 then March
    else if n == 3 then April
    else if n == 4 then May
    else if n == 5 then June
    else if n == 6 then July
    else if n == 7 then August
    else if n == 8 then September
    else if n == 9 then October
    else if n == 10 then November
    else December
  }

  /** The month a 1-based number denotes. */
  function FromOneBased(n: int): (m: Month)
    requires 1 <= n <= 12
    ensures OneBased(m) == n
  {
    FromZeroBased(n - 1)
  }

  /** Numbering a month and reading the number back gives the month again. */
  lemma {:induction false} ZeroBasedRoundTrip(m: Month)
    ensures FromZeroBased(ZeroBased(m)) == m
  {
    match m
    case January =>
    case February =>
    case March =>
    case April =>
    case May =>
    case June =>
    case July =>
    case August =>
    case September =>
    case October =>
    case November =>
    case December =>
  }
}

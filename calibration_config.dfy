/** calibration_config.h: the regional calibration constants of the weather station, the
    helpers that classify a month (numbered 1 to 12, January = 1) as rainy or dry, the LDR
    rescale onto the UV scale, and the compile-time range checks of the configuration.
    The header's `float` constants are `real`s here: every one of them that the helpers
    return or compare is exactly representable, so no rounding is involved. */
module CalibrationConfig {
  import Calendar
  import ArduinoMath

  /** Arduino's `byte`: an unsigned 8-bit month argument. */
  type Byte = x: int | 0 <= x < 256

  // Regional data (REGION_ALTITUDE, TEMP_*, HUMIDITY_*).
  const RegionAltitude: real := 2219.0
  const TempMinAnnual: real := 6.0
  const TempMaxAnnual: real := 27.0
  const TempAvgColdMonth: real := 12.0
  const TempAvgHotMonth: real := 23.5
  const HumidityMinTypical: real := 75.0
  const HumidityMaxTypical: real := 91.0
  const HumidityAvgDrySeason: real := 75.0
  const HumidityAvgWetSeason: real := 85.0

  // Rain pattern, months numbered from 1 (RAINY_SEASON_*, PEAK_RAIN_MONTH, DRY_SEASON_MONTH).
  const RainySeasonStart: Byte := 6
  const RainySeasonEnd: Byte := 9
  const PeakRainMonth: Byte := 9
  const DrySeasonMonth: Byte := 1

  /** The months the header's comments name for its rainy season: June to September. */
  const RainyMonths: set<Calendar.Month> :=
    {Calendar.June, Calendar.July, Calendar.August, Calendar.September}

  // LDR rescale (UV_CALIBRATION_FACTOR and the 10-bit ADC range given to `map`).
  const UvCalibrationFactor: real := 11.0
  const AdcMin: int := 0
  const AdcMax: int := 1023

  /** `map` takes `long` arguments, so the float factor reaches it converted to an integer,
      which C does by discarding the fraction (the factor is positive, so this is Floor). */
  const UvScaleTop: int := UvCalibrationFactor.Floor

  /** isRainySeason: an inclusive range test on a 1-based month. It holds exactly for the
      numbers of the months the header calls its rainy season, and for no other byte. */
  function IsRainySeason(month: Byte): (r: bool)
    ensures r <==> 1 <= month <= 12 && Calendar.FromOneBased(month) in RainyMonths
  {
    month >= RainySeasonStart && month <= RainySeasonEnd
  }

  /** getTypicalHumidity: the wet-season average in the rainy season, the dry-season average
      otherwise; either lies in the region's typical humidity range. */
  function GetTypicalHumidity(month: Byte): (h: real)
    ensures HumidityMinTypical <= h <= HumidityMaxTypical
    ensures h == HumidityAvgWetSeason <==> IsRainySeason(month)
    ensures h == HumidityAvgDrySeason <==> !IsRainySeason(month)
  {
    if IsRainySeason(month) then HumidityAvgWetSeason else HumidityAvgDrySeason
  }

  /** calibrateLDR: `map(rawValue, 0, 1023, 0, 11)`. The result is the number of whole
      elevenths-of-full-scale steps in the reading, with C's rounding toward zero for a
      negative reading; nothing is clamped. On the ADC's own range it stays in [0, 11]
      and reaches 11 only at full scale. */
  function CalibrateLdr(rawValue: int): (r: int)
    ensures 0 <= rawValue ==> r * 1023 <= rawValue * 11 < (r + 1) * 1023
    ensures rawValue < 0 ==> (r - 1) * 1023 < rawValue * 11 <= r * 1023
    ensures 0 <= rawValue <= 1023 ==> 0 <= r <= 11
    ensures 0 <= rawValue <= 1023 ==> (r == 11 <==> rawValue == 1023)
  {
    ArduinoMath.Map(rawValue, AdcMin, AdcMax, 0, UvScaleTop)
  }

  /** The rescale is non-decreasing over every input, inside the ADC range or outside it. */
  lemma {:induction false} CalibrateLdrMonotone(a: int, b: int)
    requires a <= b
    ensures CalibrateLdr(a) <= CalibrateLdr(b)
  {
    ArduinoMath.MapMonotone(a, b, AdcMin, AdcMax, 0, UvScaleTop);
  }

  /** The ends of the ADC range map onto the ends of the UV scale. */
  lemma CalibrateLdrEndpoints()
    ensures CalibrateLdr(0) == 0
    ensures CalibrateLdr(1023) == 11
  {
  }

  /** Readings outside [0, 1023] are extrapolated, not clamped. */
  lemma CalibrateLdrDoesNotClamp()
    ensures CalibrateLdr(2046) == 22
    ensures CalibrateLdr(-1023) == -11
    ensures CalibrateLdr(-1) == 0
  {
  }

  /** On a 16-bit `int` (AVR), every reading's product with 11 fits in a 32-bit `long` and
      the result fits back in a 16-bit `int`, so the rescale never overflows there. */
  lemma CalibrateLdrFitsAvrWidths(rawValue: int)
    requires -0x8000 <= rawValue < 0x8000
    ensures -0x8000_0000 <= rawValue * UvScaleTop < 0x8000_0000
    ensures -0x8000 <= CalibrateLdr(rawValue) < 0x8000
  {
  }

  /** The peak rain month falls inside the rainy season and the driest month outside it. */
  lemma RainConstantsConsistent()
    ensures IsRainySeason(PeakRainMonth)
    ensures !IsRainySeason(DrySeasonMonth)
    ensures Calendar.FromOneBased(PeakRainMonth) == Calendar.September
    ensures Calendar.FromOneBased(DrySeasonMonth) == Calendar.January
  {
  }

  /** The boundary months of the season are in it; their neighbours are not. */
  lemma RainySeasonBoundaries()
    ensures IsRainySeason(6) && IsRainySeason(9)
    ensures !IsRainySeason(5) && !IsRainySeason(10)
    ensures !IsRainySeason(0) && !IsRainySeason(255)
  {
  }

  /** Exactly four of the twelve month numbers are rainy. */
  lemma {:induction false} RainySeasonLength()
    ensures |set m: int | 1 <= m <= 12 && IsRainySeason(m)| == 4
  {
    assert (set m: int | 1 <= m <= 12 && IsRainySeason(m)) == {6, 7, 8, 9};
  }

  // ------------------------------------------------------------------------------------
  // Configuration validation (the #if / #error block at the end of the header).

  /** The values the range checks look at. */
  datatype Settings = Settings(
    altitude: real,
    tempMinAnnual: real,
    tempMaxAnnual: real,
    humidityMinTypical: real,
    humidityMaxTypical: real,
    rainySeasonStart: int,
    rainySeasonEnd: int)

  /** The configuration the header ships with. */
  const Shipped: Settings := Settings(
    RegionAltitude, TempMinAnnual, TempMaxAnnual,
    HumidityMinTypical, HumidityMaxTypical,
    RainySeasonStart, RainySeasonEnd)

  /** One `#error` of the validation block. */
  datatype ValidationError =
    | AltitudeOutOfRange
    | TemperatureMinAboveMax
    | HumidityMinAboveMax
    | RainyMonthOutOfRange

  /** The rainy-season month check as written: it rejects only months above 12. */
  predicate RainyMonthRejected(start: int, end: int)
  {
    start > 12 || end > 12
  }

  /** The errors the validation block raises for `s`, in the order of the block. */
  function ValidationErrors(s: Settings): (errs: seq<ValidationError>)
    ensures AltitudeOutOfRange in errs <==> !(0.0 <= s.altitude <= 10000.0)
    ensures TemperatureMinAboveMax in errs <==> s.tempMinAnnual > s.tempMaxAnnual
    ensures HumidityMinAboveMax in errs <==> s.humidityMinTypical > s.humidityMaxTypical
    ensures RainyMonthOutOfRange in errs <==> RainyMonthRejected(s.rainySeasonStart, s.rainySeasonEnd)
    ensures forall i, j :: 0 <= i < j < |errs| ==> errs[i] != errs[j]
  {
    (if s.altitude < 0.0 || s.altitude > 10000.0 then [AltitudeOutOfRange] else [])
    + (if s.tempMinAnnual > s.tempMaxAnnual then [TemperatureMinAboveMax] else [])
    + (if s.humidityMinTypical > s.humidityMaxTypical then [HumidityMinAboveMax] else [])
    + (if RainyMonthRejected(s.rainySeasonStart, s.rainySeasonEnd) then [RainyMonthOutOfRange] else [])
  }

  /** A configuration builds when no `#error` fires. */
  predicate IsValid(s: Settings)
  {
    ValidationErrors(s) == []
  }

  /** The shipped configuration passes every check. */
  lemma ShippedIsValid()
    ensures IsValid(Shipped)
    ensures 0.0 <= Shipped.altitude <= 10000.0
    ensures Shipped.tempMinAnnual <= Shipped.tempMaxAnnual
    ensures Shipped.humidityMinTypical <= Shipped.humidityMaxTypical
  {
  }

  /** As written, the month check lets a start month of 0 through, although its message
      announces the range 1-12; it also accepts a season whose start is after its end. */
  lemma MonthZeroPassesValidation()
    ensures IsValid(Shipped.(rainySeasonStart := 0))
    ensures IsValid(Shipped.(rainySeasonStart := 9, rainySeasonEnd := 6))
  {
  }

  /** The month check its message describes: both months in 1-12. */
  predicate RainyMonthRejectedIntended(start: int, end: int)
  {
    !(1 <= start <= 12 && 1 <= end <= 12)
  }

  /** The intended check accepts exactly the pairs of real month numbers, refuses the
      month 0 the written one lets through, and agrees with it above 12. */
  lemma RainyMonthCheckIntended(start: int, end: int)
    ensures !RainyMonthRejectedIntended(start, end) <==>
              (exists ms: Calendar.Month :: Calendar.OneBased(ms) == start) &&
              (exists me: Calendar.Month :: Calendar.OneBased(me) == end)
    ensures RainyMonthRejected(start, end) ==> RainyMonthRejectedIntended(start, end)
    ensures RainyMonthRejectedIntended(0, RainySeasonEnd) && !RainyMonthRejected(0, RainySeasonEnd)
    ensures !RainyMonthRejectedIntended(RainySeasonStart, RainySeasonEnd)
  {
    if !RainyMonthRejectedIntended(start, end) {
      assert Calendar.OneBased(Calendar.FromOneBased(start)) == start;
      assert Calendar.OneBased(Calendar.FromOneBased(end)) == end;
    }
  }
}

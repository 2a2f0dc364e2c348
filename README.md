# Weather-station configuration headers, modelled in Dafny

An Arduino weather station is configured by two independent headers. Most of each header is
constant data, but each also holds a few inline helpers that this project models and
proves properties of.

- `calibration_config.h` numbers months from 1 (January = 1). Its helpers are:
  - `isRainySeason`, an inclusive range test for June to September;
  - `getTypicalHumidity`, which selects the wet-season or the dry-season average;
  - `calibrateLDR`, which rescales a 10-bit ADC reading onto a 0–11 UV scale with Arduino's `map`.

  A block of `#if`/`#error` range checks at the end states which configurations may be built.
- `configuracion_regional.h` numbers months from 0 (January = 0). Its helpers are:
  - `obtenerMesActual`, which derives a "current month" from the uptime counter `millis()`;
  - three predicates that classify that month as rainy, hot or cold;
  - `obtenerFactorEstacionalLluvia`, which gives a rain-probability bonus in the rainy season.

Modules:

- `Calendar` (calendar.dfy): the twelve months as named values, and both numberings with their inverses. The month names the headers' comments give for each constant are checked against it.
- `ArduinoMath` (arduino_math.dfy): C's truncating integer division and the formula of Arduino's `map`.
- `CalibrationConfig` (calibration_config.dfy): the first header.
- `ConfiguracionRegional` (configuracion_regional.dfy): the second header. The `millis()` reading is a parameter of type `Millis` (an `unsigned long`, 0 ≤ u < 2^32).
- `MonthNumbering` (month_numbering.dfy): relates the two rainy seasons through calendar months. The two headers' constants are kept apart.

Modelling choices:

- The headers' `float` constants are Dafny `real`s. Every value the helpers return or compare is exactly representable in binary floating point, so no rounding is involved.
- `UV_CALIBRATION_FACTOR` (11.0) reaches `map` as the `long` 11, converted by discarding the fraction.
- C's `/` rounds toward zero. Dafny's `/` does not for negative operands, so the C operator is written out as `DivTrunc`.
- `calibrateLDR` does not clamp its input to [0, 1023], and neither does the model: readings outside the range are extrapolated.

## Model

| member | source | states |
|---|---|---|
| `Calendar.FromZeroBased` | configuracion_regional.h:44 | the month a 0-based number (0 = January) denotes; numbering it again gives the number back |
| `Calendar.FromOneBased` | calibration_config.h:34-37 | the month a 1-based number (1 = January) denotes; numbering it again gives the number back |
| `Calendar.ZeroBasedRoundTrip` | configuracion_regional.h:44 | numbering a month from 0 and reading it back gives the same month |
| `ArduinoMath.DivTrunc` | calibration_config.h:179 | C integer quotient: \|q\|·\|b\| ≤ \|a\| < (\|q\|+1)·\|b\|, with the sign of the algebraic quotient, i.e. the fraction is discarded toward zero |
| `ArduinoMath.DivTruncMonotone` | calibration_config.h:179 | for a positive divisor, C's quotient never decreases as the dividend grows, across zero included |
| `ArduinoMath.Map` | calibration_config.h:179 | `map` sends the input range's ends exactly onto the output range's ends (in_min to out_min, in_max to out_max) for any non-degenerate range |
| `ArduinoMath.MapMonotone` | calibration_config.h:179 | with an increasing input range and non-decreasing output range, `map` is non-decreasing over all integers, in range or not |
| `CalibrationConfig.IsRainySeason` | calibration_config.h:167-170 | holds for a byte exactly when it is the 1-based number of June, July, August or September, the months the comments at lines 34-35 name |
| `CalibrationConfig.RainySeasonBoundaries` | calibration_config.h:168-170 | months 6 and 9 are rainy; 5, 10, 0 and 255 are not |
| `CalibrationConfig.RainySeasonLength` | calibration_config.h:34-35 | exactly four of the month numbers 1..12 are rainy |
| `CalibrationConfig.RainConstantsConsistent` | calibration_config.h:34-37 | PEAK_RAIN_MONTH (September) is in the rainy season, DRY_SEASON_MONTH (January) is not |
| `CalibrationConfig.GetTypicalHumidity` | calibration_config.h:172-175 | returns the wet-season average exactly in the rainy season and the dry-season average exactly outside it; the result lies in [HUMIDITY_MIN_TYPICAL, HUMIDITY_MAX_TYPICAL] |
| `CalibrationConfig.CalibrateLdr` | calibration_config.h:177-180 | result r satisfies r·1023 ≤ 11·raw < (r+1)·1023 for raw ≥ 0 (rounded toward zero below 0); on [0, 1023] r lies in [0, 11] and is 11 only at 1023 |
| `CalibrationConfig.CalibrateLdrMonotone` | calibration_config.h:178-180 | the rescale is non-decreasing over every integer input |
| `CalibrationConfig.CalibrateLdrEndpoints` | calibration_config.h:178-180 | reading 0 gives 0 and reading 1023 gives 11 |
| `CalibrationConfig.CalibrateLdrDoesNotClamp` | calibration_config.h:178-180 | out-of-range readings are extrapolated (2046 gives 22, -1023 gives -11), not clamped |
| `CalibrationConfig.CalibrateLdrFitsAvrWidths` | calibration_config.h:178-180 | for every 16-bit `int` reading, the product with 11 fits a 32-bit `long` and the result fits an `int` |
| `CalibrationConfig.ValidationErrors` | calibration_config.h:185-199 | each `#error` fires exactly when its condition is violated: altitude outside [0, 10000], min temperature above max, min humidity above max, a rainy month above 12; no error is reported twice |
| `CalibrationConfig.ShippedIsValid` | calibration_config.h:185-199 | the shipped constants pass every check |
| `CalibrationConfig.MonthZeroPassesValidation` | calibration_config.h:197-199 | a rainy-season start of 0 passes the month check, and so does a start after the end |
| `CalibrationConfig.RainyMonthCheckIntended` | calibration_config.h:197-198 | the check described by the message (months 1-12) accepts exactly pairs of real month numbers, rejects everything the written check rejects, also rejects month 0, and accepts the shipped months |
| `ConfiguracionRegional.ObtenerMesActual` | configuracion_regional.h:205-209 | the derived month lies in [0, 11] |
| `ConfiguracionRegional.MesDelDia` | configuracion_regional.h:206-209 | during day d of uptime the month is d mod 12, so it changes every 24 hours and repeats every 12 days |
| `ConfiguracionRegional.MesSiguiente` | configuracion_regional.h:208 | one day later the month is (month + 1) mod 12, while the counter does not wrap |
| `ConfiguracionRegional.MesAlDesbordarMillis` | configuracion_regional.h:206-209 | the last counter value before the 32-bit wrap gives month 1, and the counter restarts at month 0 |
| `ConfiguracionRegional.EsTemporadaLluvias` | configuracion_regional.h:211-215 | holds exactly when the current month is June, July, August or September (0-based 5..8) |
| `ConfiguracionRegional.EsTemporadaCalor` | configuracion_regional.h:217-221 | holds exactly when the current month is April, May or June (0-based 3..5) |
| `ConfiguracionRegional.EsTemporadaFrio` | configuracion_regional.h:223-227 | holds exactly when the current month is December or February (0-based 11 or 1): an equality pair, not a wrap-around range |
| `ConfiguracionRegional.ObtenerFactorEstacionalLluvia` | configuracion_regional.h:229-235 | returns 10.0 exactly in the rainy season and 0.0 exactly outside it |
| `ConfiguracionRegional.TemporadasPorDia` | configuracion_regional.h:211-235 | by uptime day d: rainy iff 5 ≤ d mod 12 ≤ 8, hot iff 3 ≤ d mod 12 ≤ 5, cold iff d mod 12 ∈ {11, 1}, bonus 10.0 exactly on rainy days |
| `ConfiguracionRegional.CalorYFrioDisjuntos` | configuracion_regional.h:217-227 | the hot and cold predicates never hold together |
| `ConfiguracionRegional.LluviasYFrioDisjuntos` | configuracion_regional.h:211-227 | the rainy and cold predicates never hold together |
| `ConfiguracionRegional.CalorYLluviasSeSolapan` | configuracion_regional.h:45-50 | on uptime day 5 (month 5) the hot and rainy predicates both hold |
| `ConfiguracionRegional.FrioOmiteEnero` | configuracion_regional.h:53-54 | month 0 (January) is not cold, month 1 (February) is |
| `ConfiguracionRegional.EsTemporadaCalorCorregida` | configuracion_regional.h:48-50 | corrected hot season: exactly April and May, and it implies the written hot predicate |
| `ConfiguracionRegional.EsTemporadaFrioCorregida` | configuracion_regional.h:52-54 | corrected cold season: exactly December and January |
| `ConfiguracionRegional.TemporadasCorregidasDisjuntas` | configuracion_regional.h:44-54 | with the corrected hot and cold seasons, the three seasons are pairwise disjoint |
| `ConfiguracionRegional.ConstantesOrdenadas` | configuracion_regional.h:44-106 | every MES_* constant is in [0, 11]; pressure, humidity and LDR thresholds are strictly increasing from low to high |
| `MonthNumbering.RainySeasonsAgree` | calibration_config.h:167-170 | for each calendar month, the 1-based rainy test and the 0-based one agree, and both hold exactly for June to September |
| `MonthNumbering.NumberingsAreNotInterchangeable` | configuracion_regional.h:44-46 | 9 is rainy under the 1-based header but, read 0-based, 9 is October, outside the other header's rain months |

## Left out

- `getRegionalPressureBase` (calibration_config.h:163-165, from line 31) is left out. It is the standard-atmosphere barometric formula, evaluated with `pow` and the real exponent 5.255. Floating-point transcendental arithmetic has no faithful model here.
- `corregirTemperaturaAltitud`, `corregirPresionAltitud` and `corregirRocioAltitud` are left out. They are floating-point affine corrections, and modelling them over reals would misstate float rounding.
- `millis()` is a hardware clock and is not modelled. Its reading is the `millis` parameter.
- The source of Arduino's `map` is not part of this model. `ArduinoMath.Map` assumes the classic formula `(x - in_min) * (out_max - out_min) / (in_max - in_min) + out_min`.
- ArduinoMath.Map: does not model overflow of the 32-bit `long` product in general. For the one call the headers make, `CalibrationConfig.CalibrateLdrFitsAvrWidths` proves there is none.
- ConfiguracionRegional.ObtenerMesActual: the model divides by the intended 86,400,000. On AVR, where `int` is 16 bits, the literal product `24 * 60 * 60 * 1000` overflows a signed `int`, which is undefined behaviour. A compiler that wraps would divide by 23,552 instead. C integer widths are not modelled.
- The validation block is modelled as a predicate over the configured values, not as preprocessor behaviour. As written, `#if` is given floating constants (2219.0, 6.0, …). Section 6.10.1 of ISO C11 allows only integer constant expressions there, so the preprocessor rejects those lines before any check runs.
- `isRainySeason` takes a `byte`. The conversion a caller's wider integer undergoes on the way in is not modelled.
- The model states no properties about data with no behaviour: UI strings, pin numbers, I2C addresses, debug, power and serial flags, update intervals, alert thresholds, and the prediction weights. Neither header checks that the weights sum to 1.
- The prediction, display and sensor-driver logic that consumes these constants is not part of this model.

## Findings

| source | as written | input that shows it | evidently intended | confidence | as-written member | corrected member |
|---|---|---|---|---|---|---|
| configuracion_regional.h:53-54 | cold season is `mes == 11 \|\| mes == 1`; with 0 = January (line 44), month 1 is February | uptime 0 (month 0, January): not cold; uptime 86,400,000 (month 1, February): cold | December and January (months 11 and 0), as the comment on MES_FIN_FRIO and line 26's "Enero (mes más frío)" say | medium, not executed | `ConfiguracionRegional.FrioOmiteEnero` | `ConfiguracionRegional.EsTemporadaFrioCorregida` |
| configuracion_regional.h:50 | MES_FIN_CALOR is 5, which with 0 = January is June, the first rainy month | uptime 432,000,000 (day 5, month 5): hot and rainy at once | hot season ends in May (month 4), as the comments at lines 27 and 50 say, so that it does not overlap the rains | medium, not executed | `ConfiguracionRegional.CalorYLluviasSeSolapan` | `ConfiguracionRegional.EsTemporadaCalorCorregida` |
| calibration_config.h:197-198 | the month check rejects only RAINY_SEASON_START or RAINY_SEASON_END above 12 | RAINY_SEASON_START 0 passes every check | reject months outside 1-12, the range its `#error` message announces | medium, not executed | `CalibrationConfig.MonthZeroPassesValidation` | `CalibrationConfig.RainyMonthCheckIntended` |

Two further observations are not findings:

- `obtenerMesActual` advances its "month" once per day of uptime rather than once per calendar month. Its comment calls it a simplification, and `MesDelDia` states the behaviour exactly.
- The validation accepts a season whose start is after its end. `isRainySeason` then holds for no month.

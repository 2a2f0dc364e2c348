/** The two headers number months differently (calibration_config.h from 1,
    configuracion_regional.h from 0) yet describe the same rainy season. Their constants are
    not merged; this module only relates the two classifications through calendar months. */
module MonthNumbering {
  import Calendar
  import CalibrationConfig
  import ConfiguracionRegional

  /** For every calendar month, calibration_config.h calls it rainy (under its 1-based
      number) exactly when configuracion_regional.h does (on any uptime whose 0-based month
      is that month): both rainy seasons are June to September. */
  lemma {:induction false} RainySeasonsAgree(m: Calendar.Month, millis: ConfiguracionRegional.Millis)
    requires ConfiguracionRegional.ObtenerMesActual(millis) == Calendar.ZeroBased(m)
    ensures CalibrationConfig.IsRainySeason(Calendar.OneBased(m)) <==>
              ConfiguracionRegional.EsTemporadaLluvias(millis)
    ensures CalibrationConfig.IsRainySeason(Calendar.OneBased(m)) <==>
              m in {Calendar.June, Calendar.July, Calendar.August, Calendar.September}
  {
    Calendar.ZeroBasedRoundTrip(m);
    assert Calendar.FromOneBased(Calendar.OneBased(m)) == m;
  }

  /** Read with the other header's numbering, each rainy season would be shifted by a month:
      the 1-based bounds 6..9 taken as 0-based months mean July to October. */
  lemma NumberingsAreNotInterchangeable()
    ensures CalibrationConfig.IsRainySeason(9)
    ensures Calendar.FromZeroBased(9) == Calendar.October
    ensures Calendar.FromZeroBased(9) !in ConfiguracionRegional.MesesLluvia
  {
  }
}

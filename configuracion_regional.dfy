/** configuracion_regional.h: the regional configuration of the weather station. Its
    helpers derive a "current month" (numbered 0 to 11, January = 0) from the device uptime
    and classify that month as rainy, hot or cold. The uptime reading `millis()` is a
    parameter here; it is an `unsigned long`, so it lies in [0, 2^32). */
module ConfiguracionRegional {
  import Calendar

  /** A reading of `millis()`: milliseconds since start-up, wrapping at 2^32. */
  type Millis = u: int | 0 <= u < 0x1_0000_0000

  /** Milliseconds in a day, the divisor the header writes as `24 * 60 * 60 * 1000`. */
  const MsPorDia: int := 24 * 60 * 60 * 1000

  // Seasonal months, numbered from 0 (MES_*).
  const MesInicioLluvias: int := 5
  const MesFinLluvias: int := 8
  const MesInicioCalor: int := 3
  const MesFinCalor: int := 5
  const MesInicioFrio: int := 11
  const MesFinFrio: int := 1
  const MesesConfigurados: seq<int> :=
    [MesInicioLluvias, MesFinLluvias, MesInicioCalor, MesFinCalor, MesInicioFrio, MesFinFrio]

  // Classification thresholds (UMBRAL_*).
  const UmbralPresionBaja: real := 1000.0
  const UmbralPresionMedia: real := 1010.0
  const UmbralPresionAlta: real := 1020.0
  const UmbralHumedadAlta: real := 85.0
  const UmbralHumedadMedia: real := 80.0
  const UmbralHumedadBaja: real := 70.0
  const UmbralLdrNoche: int := 100
  const UmbralLdrAmanecer: int := 300
  const UmbralLdrDia: int := 600
  const UmbralLdrTarde: int := 800

  /** The seasonal rain bonus and its absence (the two returns of obtenerFactorEstacionalLluvia). */
  const BonoLluvia: real := 10.0
  const SinBono: real := 0.0

  /** The months the header's comments name for each season. */
  const MesesLluvia: set<Calendar.Month> :=
    {Calendar.June, Calendar.July, Calendar.August, Calendar.September}
  const MesesCalorComentados: set<Calendar.Month> := {Calendar.April, Calendar.May}
  const MesesFrioComentados: set<Calendar.Month> := {Calendar.December, Calendar.January}

  /** obtenerMesActual: the number of whole days of uptime, modulo 12. */
  function ObtenerMesActual(millis: Millis): (mes: int)
    ensures 0 <= mes < 12
  {
    (millis / MsPorDia) % 12
  }

  /** During day `d` of uptime (counting from 0) the "month" is `d` modulo 12: the value
      changes once every 24 hours and repeats every 12 days. */
  lemma {:induction false} MesDelDia(d: nat, t: int)
    requires 0 <= t < MsPorDia
    requires d * MsPorDia + t < 0x1_0000_0000
    ensures ObtenerMesActual(d * MsPorDia + t) == d % 12
  {
    var u := d * MsPorDia + t;
    assert u / MsPorDia == d;
  }

  /** One day later the month has advanced by one, wrapping from 11 to 0, as long as the
      uptime counter does not wrap in between. */
  lemma {:induction false} MesSiguiente(millis: Millis)
    requires millis + MsPorDia < 0x1_0000_0000
    ensures ObtenerMesActual(millis + MsPorDia) == (ObtenerMesActual(millis) + 1) % 12
  {
    var d, t := millis / MsPorDia, millis % MsPorDia;
    assert millis == d * MsPorDia + t;
    MesDelDia(d, t);
    MesDelDia(d + 1, t);
  }

  /** The uptime counter wraps after 49 whole days, on "month" 1; it restarts at month 0. */
  lemma MesAlDesbordarMillis()
    ensures ObtenerMesActual(0xFFFF_FFFF) == 1
    ensures ObtenerMesActual(0) == 0
  {
  }

  /** esTemporadaLluvias: the current month lies in [MES_INICIO_LLUVIAS, MES_FIN_LLUVIAS],
      that is, it is one of the months the header names for the rains. */
  function EsTemporadaLluvias(millis: Millis): (r: bool)
    ensures r <==> Calendar.FromZeroBased(ObtenerMesActual(millis)) in MesesLluvia
  {
    var mes := ObtenerMesActual(millis);
    mes >= MesInicioLluvias && mes <= MesFinLluvias
  }

  /** esTemporadaCalor: the current month lies in [MES_INICIO_CALOR, MES_FIN_CALOR]. Under
      the header's numbering that range is April to June, one month more than the April and
      May its comments name. */
  function EsTemporadaCalor(millis: Millis): (r: bool)
    ensures r <==> Calendar.FromZeroBased(ObtenerMesActual(millis)) in
                     {Calendar.April, Calendar.May, Calendar.June}
  {
    var mes := ObtenerMesActual(millis);
    mes >= MesInicioCalor && mes <= MesFinCalor
  }

  /** esTemporadaFrio: the current month equals MES_INICIO_FRIO or MES_FIN_FRIO. This is
      an equality test on two months, not a range, and under the header's numbering those
      two months are December and February. */
  function EsTemporadaFrio(millis: Millis): (r: bool)
    ensures r <==> Calendar.FromZeroBased(ObtenerMesActual(millis)) in
                     {Calendar.December, Calendar.February}
  {
    var mes := ObtenerMesActual(millis);
    mes == MesInicioFrio || mes == MesFinFrio
  }

  /** obtenerFactorEstacionalLluvia: the rain bonus in the rainy season, none otherwise. */
  function ObtenerFactorEstacionalLluvia(millis: Millis): (f: real)
    ensures f == BonoLluvia <==> EsTemporadaLluvias(millis)
    ensures f == SinBono <==> !EsTemporadaLluvias(millis)
    ensures SinBono <= f <= BonoLluvia
  {
    if EsTemporadaLluvias(millis) then BonoLluvia else SinBono
  }

  /** The seasons by day of uptime: rain on days 5 to 8 of every 12, heat on days 3 to 5,
      cold on days 11 and 1, and the rain bonus exactly on the rainy days. */
  lemma {:induction false} TemporadasPorDia(d: nat, t: int)
    requires 0 <= t < MsPorDia
    requires d * MsPorDia + t < 0x1_0000_0000
    ensures EsTemporadaLluvias(d * MsPorDia + t) <==> 5 <= d % 12 <= 8
    ensures EsTemporadaCalor(d * MsPorDia + t) <==> 3 <= d % 12 <= 5
    ensures EsTemporadaFrio(d * MsPorDia + t) <==> d % 12 == 11 || d % 12 == 1
    ensures ObtenerFactorEstacionalLluvia(d * MsPorDia + t) == (if 5 <= d % 12 <= 8 then 10.0 else 0.0)
  {
    MesDelDia(d, t);
  }

  /** Heat and cold never coincide. */
  lemma CalorYFrioDisjuntos(millis: Millis)
    ensures !(EsTemporadaCalor(millis) && EsTemporadaFrio(millis))
  {
  }

  /** Rain and cold never coincide. */
  lemma LluviasYFrioDisjuntos(millis: Millis)
    ensures !(EsTemporadaLluvias(millis) && EsTemporadaFrio(millis))
  {
  }

  /** As written, month 5 (June) is both hot and rainy: on day 5 of uptime both hold. */
  lemma CalorYLluviasSeSolapan()
    ensures EsTemporadaCalor(5 * MsPorDia) && EsTemporadaLluvias(5 * MsPorDia)
  {
    MesDelDia(5, 0);
  }

  /** As written, January (month 0) is not cold while February (month 1) is, although the
      header's comments call month 1 January and January its coldest month. */
  lemma FrioOmiteEnero()
    ensures !EsTemporadaFrio(0) && Calendar.FromZeroBased(ObtenerMesActual(0)) == Calendar.January
    ensures EsTemporadaFrio(MsPorDia) && Calendar.FromZeroBased(ObtenerMesActual(MsPorDia)) == Calendar.February
  {
    MesDelDia(1, 0);
  }

  // ------------------------------------------------------------------------------------
  // The hot and cold seasons as the header's comments describe them.

  /** May and January under the header's own numbering, the months its comments give for
      MES_FIN_CALOR and MES_FIN_FRIO. */
  const MesFinCalorComentado: int := 4
  const MesFinFrioComentado: int := 0

  /** The hot season the comments describe: April and May (months 3 and 4). */
  function EsTemporadaCalorCorregida(millis: Millis): (r: bool)
    ensures r <==> Calendar.FromZeroBased(ObtenerMesActual(millis)) in MesesCalorComentados
    ensures r ==> EsTemporadaCalor(millis)
  {
    var mes := ObtenerMesActual(millis);
    mes >= MesInicioCalor && mes <= MesFinCalorComentado
  }

  /** The cold season the comments describe: December and January (months 11 and 0). */
  function EsTemporadaFrioCorregida(millis: Millis): (r: bool)
    ensures r <==> Calendar.FromZeroBased(ObtenerMesActual(millis)) in MesesFrioComentados
  {
    var mes := ObtenerMesActual(millis);
    mes == MesInicioFrio || mes == MesFinFrioComentado
  }

  /** With the corrected hot and cold seasons, the three seasons are pairwise disjoint. */
  lemma TemporadasCorregidasDisjuntas(millis: Millis)
    ensures !(EsTemporadaCalorCorregida(millis) && EsTemporadaLluvias(millis))
    ensures !(EsTemporadaCalorCorregida(millis) && EsTemporadaFrioCorregida(millis))
    ensures !(EsTemporadaLluvias(millis) && EsTemporadaFrioCorregida(millis))
  {
  }

  /** Every month constant is a valid 0-based month and the thresholds are strictly ordered. */
  lemma ConstantesOrdenadas()
    ensures forall mes :: mes in MesesConfigurados ==> 0 <= mes < 12
    ensures MesInicioLluvias <= MesFinLluvias && MesInicioCalor <= MesFinCalor
    ensures UmbralPresionBaja < UmbralPresionMedia < UmbralPresionAlta
    ensures UmbralHumedadBaja < UmbralHumedadMedia < UmbralHumedadAlta
    ensures UmbralLdrNoche < UmbralLdrAmanecer < UmbralLdrDia < UmbralLdrTarde
  {
  }
}

/** The display formatters for sensor readings: a reading is placed in a named band and rendered as
    `<value> <unit> (<band>)`, or `N/A` when there is no reading. */
module Sensors {
  import opened Wrappers
  import opened Text

  const NotAvailable := "N/A"

  /** The accelerometer record; only `magnitude` (in g) is displayed. */
  datatype AccelerometerData = AccelerometerData(x: real, y: real, z: real, magnitude: real)

  datatype NoiseBand = Silent | ModerateNoise | Loud | VeryLoud
  datatype LightBand = Dark | LowLight | Lit | VeryBright
  datatype MovementBand = Still | LightMovement | ModerateMovement | IntenseMovement

  function NoiseRank(b: NoiseBand): nat
  {
    match b
    case Silent => 0
    case ModerateNoise => 1
    case Loud => 2
    case VeryLoud => 3
  }

  function LightRank(b: LightBand): nat
  {
    match b
    case Dark => 0
    case LowLight => 1
    case Lit => 2
    case VeryBright => 3
  }

  function MovementRank(b: MovementBand): nat
  {
    match b
    case Still => 0
    case LightMovement => 1
    case ModerateMovement => 2
    case IntenseMovement => 3
  }

  function NoiseLabel(b: NoiseBand): string
  {
    match b
    case Silent => "Silencioso"
    case ModerateNoise => "Moderado"
    case Loud => "Alto"
    case VeryLoud => "Muito Alto"
  }

  function LightLabel(b: LightBand): string
  {
    match b
    case Dark => "Escuro"
    case LowLight => "Pouca Luz"
    case Lit => "Iluminado"
    case VeryBright => "Muito Claro"
  }

  function MovementLabel(b: MovementBand): string
  {
    match b
    case Still => "Parado"
    case LightMovement => "Movimento Leve"
    case ModerateMovement => "Movimento Moderado"
    case IntenseMovement => "Movimento Intenso"
  }

  /** The noise band, by the early-return chain on decibels. */
  function NoiseBandOf(db: real): NoiseBand
  {
    if db < 40.0 then Silent
    else if db < 60.0 then ModerateNoise
    else if db < 80.0 then Loud
    else VeryLoud
  }

  /** The light band, by the early-return chain on lux. */
  function LightBandOf(lux: real): LightBand
  {
    if lux < 50.0 then Dark
    else if lux < 500.0 then LowLight
    else if lux < 10000.0 then Lit
    else VeryBright
  }

  /** The movement band: start at rest, and let each later threshold exceeded override the last. */
  function MovementBandOf(magnitude: real): MovementBand
  {
    var movement := Still;
    var movement := if magnitude > 1.2 then LightMovement else movement;
    var movement := if magnitude > 2.0 then ModerateMovement else movement;
    var movement := if magnitude > 3.0 then IntenseMovement else movement;
    movement
  }

  /** The noise bands are the half-open intervals below 40, [40, 60), [60, 80) and from 80 up. */
  lemma NoiseBands(db: real)
    ensures NoiseBandOf(db) == Silent <==> db < 40.0
    ensures NoiseBandOf(db) == ModerateNoise <==> 40.0 <= db < 60.0
    ensures NoiseBandOf(db) == Loud <==> 60.0 <= db < 80.0
    ensures NoiseBandOf(db) == VeryLoud <==> 80.0 <= db
  {
  }

  /** The light bands are below 50, [50, 500), [500, 10000) and from 10000 up. */
  lemma LightBands(lux: real)
    ensures LightBandOf(lux) == Dark <==> lux < 50.0
    ensures LightBandOf(lux) == LowLight <==> 50.0 <= lux < 500.0
    ensures LightBandOf(lux) == Lit <==> 500.0 <= lux < 10000.0
    ensures LightBandOf(lux) == VeryBright <==> 10000.0 <= lux
  {
  }

  /** The highest threshold exceeded wins: at most 1.2, (1.2, 2.0], (2.0, 3.0] and above 3.0. */
  lemma MovementBands(magnitude: real)
    ensures MovementBandOf(magnitude) == Still <==> magnitude <= 1.2
    ensures MovementBandOf(magnitude) == LightMovement <==> 1.2 < magnitude <= 2.0
    ensures MovementBandOf(magnitude) == ModerateMovement <==> 2.0 < magnitude <= 3.0
    ensures MovementBandOf(magnitude) == IntenseMovement <==> 3.0 < magnitude
  {
  }

  /** A larger reading never falls in a lower band. */
  lemma BandsMonotone(a: real, b: real)
    requires a <= b
    ensures NoiseRank(NoiseBandOf(a)) <= NoiseRank(NoiseBandOf(b))
    ensures LightRank(LightBandOf(a)) <= LightRank(LightBandOf(b))
    ensures MovementRank(MovementBandOf(a)) <= MovementRank(MovementBandOf(b))
  {
  }

  /** `formatNoiseLevel`; `show` is the platform's rendering of a number inside a template string. */
  function FormatNoiseLevel(db: Option<real>, show: real -> string): (r: string)
    ensures db.None? <==> r == NotAvailable
    ensures db.Some? ==> StartsWith(r, show(db.value)) && EndsWith(r, " dB (" + NoiseLabel(NoiseBandOf(db.value)) + ")")
  {
    if db.None? then NotAvailable
    else show(db.value) + " dB (" + NoiseLabel(NoiseBandOf(db.value)) + ")"
  }

  /** `formatLightLevel`. */
  function FormatLightLevel(lux: Option<real>, show: real -> string): (r: string)
    ensures lux.None? <==> r == NotAvailable
    ensures lux.Some? ==> StartsWith(r, show(lux.value)) && EndsWith(r, " lux (" + LightLabel(LightBandOf(lux.value)) + ")")
  {
    if lux.None? then NotAvailable
    else show(lux.value) + " lux (" + LightLabel(LightBandOf(lux.value)) + ")"
  }

  /** `formatAccelerometer`. */
  function FormatAccelerometer(data: Option<AccelerometerData>, show: real -> string): (r: string)
    ensures data.None? <==> r == NotAvailable
    ensures data.Some? ==> StartsWith(r, MovementLabel(MovementBandOf(data.value.magnitude)) + " (")
                           && EndsWith(r, show(data.value.magnitude) + "g)")
  {
    if data.None? then NotAvailable
    else MovementLabel(MovementBandOf(data.value.magnitude)) + " (" + show(data.value.magnitude) + "g)"
  }

  /** Distinct bands have distinct labels, so the label in a rendering names the band. */
  lemma LabelsDistinct(a: NoiseBand, b: NoiseBand, c: LightBand, d: LightBand, e: MovementBand, f: MovementBand)
    ensures NoiseLabel(a) == NoiseLabel(b) ==> a == b
    ensures LightLabel(c) == LightLabel(d) ==> c == d
    ensures MovementLabel(e) == MovementLabel(f) ==> e == f
  {
  }
}

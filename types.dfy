/** The records the calculator passes around: the design input, one parameter set
    per chamber type, and the calculation result. */
module Types {

  datatype Option<+T> = None | Some(value: T)

  /** The three chamber designs the calculator sizes. */
  datatype ChamberType = Horizontal | Aerated | Vertical

  /** The design input of one calculation: peak flow q (m3/s), flow-variation
      coefficient kz, and the selected chamber type. */
  datatype UserInput = UserInput(q: real, kz: real, chamberType: ChamberType)

  /** Horizontal-flow parameters: velocity v (m/s), residence time t (s), effective
      depth h2 (m), width of one channel bGrid (m), grit load xGrit (m3 of grit per
      10^6 m3 of sewage) and cleaning interval tClean (days). */
  datatype HorizontalParams = HorizontalParams(v: real, t: real, h2: real, bGrid: real, xGrit: real, tClean: real)

  /** Aerated parameters: residence time t (min), horizontal velocity vHorizontal
      (m/s), airRatio (m3 of air per m3 of water) and widthDepthRatio (B / h2). */
  datatype AeratedParams = AeratedParams(t: real, vHorizontal: real, airRatio: real, widthDepthRatio: real)

  /** Vertical-flow parameters: rise velocity vUp (m/s) and residence time t (s). */
  datatype VerticalParams = VerticalParams(vUp: real, t: real)

  /** The intermediate quantities each chamber type shows beside its result. */
  datatype Details =
    | HorizontalDetails(area: real, gritDepth: real, velocityCheck: real)
    | AeratedDetails(volume: real, area: real)
    | VerticalDetails(area: real)

  /** One calculation result; the optional fields belong to one chamber type each. */
  datatype CalculationResult = CalculationResult(
    length: real,
    totalWidth: real,
    totalDepth: real,
    effectiveDepth: real,
    numChannels: Option<int>,
    volumeGrit: Option<real>,
    airSupply: Option<real>,
    diameter: Option<real>,
    details: Details)
}

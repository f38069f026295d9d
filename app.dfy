/** The result computation of the calculator page: the validity gate on the parsed
    flow and variation coefficient, followed by the dispatch on the chamber type.
    A parsed field is `None` where parseFloat gives NaN. */
module App {
  import opened Numerics
  import opened Types
  import opened Constants
  import opened Calculations

  /** The page's initial state: the design-manual flow and coefficient, the
      horizontal-flow chamber and the default parameter sets. */
  const InitialQ: Option<real> := Some(0.2)
  const InitialKz: Option<real> := Some(1.5)
  const InitialType: ChamberType := Horizontal

  /** The parameter set of the selected chamber type satisfies that engine's
      precondition; the sets of the other types are not looked at. */
  predicate SelectedParamsOk(t: ChamberType, hp: HorizontalParams, ap: AeratedParams, vp: VerticalParams) {
    if t == Horizontal then HorizontalParamsOk(hp)
    else if t == Aerated then AeratedParamsOk(ap)
    else VerticalParamsOk(vp)
  }

  /** The gate: an input record exists exactly when both q and kz are numbers above
      zero, and then it carries them and the chamber type unchanged. */
  function Gate(q: Option<real>, kz: Option<real>, t: ChamberType): (r: Option<UserInput>)
    ensures r.Some? <==> (q.Some? && kz.Some? && q.value > 0.0 && kz.value > 0.0)
    ensures r.Some? ==> r.value.q == q.value && r.value.kz == kz.value && r.value.chamberType == t
  {
    if q.None? || kz.None? || q.value <= 0.0 || kz.value <= 0.0 then None
    else Some(UserInput(q.value, kz.value, t))
  }

  /** The dispatch: the horizontal chain for HORIZONTAL, the aerated chain for
      AERATED and the vertical chain otherwise, each on its own parameter set; the
      type-specific result fields tell the three apart. */
  function Dispatch(input: UserInput, hp: HorizontalParams, ap: AeratedParams, vp: VerticalParams,
                    sqrt: real -> real): (r: CalculationResult)
    requires input.q > 0.0 && input.kz > 0.0
    requires SelectedParamsOk(input.chamberType, hp, ap, vp)
    ensures r.numChannels.Some? <==> input.chamberType == Horizontal
    ensures r.airSupply.Some? <==> input.chamberType == Aerated
    ensures r.diameter.Some? <==> input.chamberType == Vertical
    ensures input.chamberType == Horizontal ==> r == CalculateHorizontal(input, hp)
    ensures input.chamberType == Aerated ==> r == CalculateAerated(input, ap, sqrt)
    ensures input.chamberType == Vertical ==> r == CalculateVertical(input, vp, sqrt)
  {
    if input.chamberType == Horizontal then CalculateHorizontal(input, hp)
    else if input.chamberType == Aerated then CalculateAerated(input, ap, sqrt)
    else CalculateVertical(input, vp, sqrt)
  }

  /** The page's result: none unless the gate passes, otherwise the dispatch of the
      gated input record. */
  function ComputeResult(q: Option<real>, kz: Option<real>, t: ChamberType,
                         hp: HorizontalParams, ap: AeratedParams, vp: VerticalParams,
                         sqrt: real -> real): (r: Option<CalculationResult>)
    requires (q.Some? && kz.Some? && q.value > 0.0 && kz.value > 0.0) ==> SelectedParamsOk(t, hp, ap, vp)
    ensures r.None? <==> (q.None? || kz.None? || q.value <= 0.0 || kz.value <= 0.0)
    ensures r.Some? ==> r.value == Dispatch(UserInput(q.value, kz.value, t), hp, ap, vp, sqrt)
  {
    match Gate(q, kz, t)
    case None => None
    case Some(input) => Some(Dispatch(input, hp, ap, vp, sqrt))
  }

  /** Only the selected type's parameter set influences the result; the horizontal
      chain does not use the square root at all. */
  lemma OnlySelectedParamsMatter(q: Option<real>, kz: Option<real>, t: ChamberType,
                                 hp: HorizontalParams, ap: AeratedParams, vp: VerticalParams, sqrt: real -> real,
                                 hp': HorizontalParams, ap': AeratedParams, vp': VerticalParams, sqrt': real -> real)
    requires (q.Some? && kz.Some? && q.value > 0.0 && kz.value > 0.0) ==> SelectedParamsOk(t, hp, ap, vp)
    requires t == Horizontal ==> hp == hp'
    requires t == Aerated ==> ap == ap' && sqrt == sqrt'
    requires t == Vertical ==> vp == vp' && sqrt == sqrt'
    ensures (q.Some? && kz.Some? && q.value > 0.0 && kz.value > 0.0) ==> SelectedParamsOk(t, hp', ap', vp')
    ensures ComputeResult(q, kz, t, hp, ap, vp, sqrt) == ComputeResult(q, kz, t, hp', ap', vp', sqrt')
  {
  }

  /** Whether a result appears depends on q and kz alone: not on the chamber type,
      nor on any parameter value. */
  lemma GateInspectsOnlyFlowInputs(q: Option<real>, kz: Option<real>,
                                   t: ChamberType, hp: HorizontalParams, ap: AeratedParams, vp: VerticalParams, sqrt: real -> real,
                                   t': ChamberType, hp': HorizontalParams, ap': AeratedParams, vp': VerticalParams, sqrt': real -> real)
    requires (q.Some? && kz.Some? && q.value > 0.0 && kz.value > 0.0) ==> SelectedParamsOk(t, hp, ap, vp)
    requires (q.Some? && kz.Some? && q.value > 0.0 && kz.value > 0.0) ==> SelectedParamsOk(t', hp', ap', vp')
    ensures ComputeResult(q, kz, t, hp, ap, vp, sqrt).Some? == ComputeResult(q, kz, t', hp', ap', vp', sqrt').Some?
  {
  }

  /** A negative grit load does not suppress the horizontal calculation: the
      result appears, showing a negative grit volume. */
  lemma NegativeGritLoadStillComputes(hp: HorizontalParams, sqrt: real -> real)
    requires hp == DefaultHorizontalParams().(xGrit := -30.0)
    ensures ComputeResult(InitialQ, InitialKz, Horizontal, hp, DefaultAeratedParams(), DefaultVerticalParams(), sqrt).Some?
    ensures ComputeResult(InitialQ, InitialKz, Horizontal, hp, DefaultAeratedParams(), DefaultVerticalParams(), sqrt).value.volumeGrit.value
            < 0.0
  {
    var input := UserInput(0.2, 1.5, Horizontal);
    var gv := SizeHorizontal(input, hp).gritVolume;
    assert gv == -0.6912;
    RoundNearest(gv, 3);
    Pow10Values();
    assert (Round(gv, 3) - gv) * 1000.0 <= 0.5;
  }

  /** A negative retention time, which the horizontal panel's t field can hold, does
      not suppress the horizontal calculation either: the result appears, showing a
      negative length. */
  lemma NegativeRetentionTimeStillComputes(hp: HorizontalParams, sqrt: real -> real)
    requires hp == DefaultHorizontalParams().(t := -30.0)
    ensures ComputeResult(InitialQ, InitialKz, Horizontal, hp, DefaultAeratedParams(), DefaultVerticalParams(), sqrt).Some?
    ensures ComputeResult(InitialQ, InitialKz, Horizontal, hp, DefaultAeratedParams(), DefaultVerticalParams(), sqrt).value.length
            < 0.0
  {
    var input := UserInput(0.2, 1.5, Horizontal);
    var len := SizeHorizontal(input, hp).length;
    assert len == -7.5;
    RoundNearest(len, 2);
    Pow10Values();
    assert (Round(len, 2) - len) * 100.0 <= 0.5;
  }

  /** The default parameter sets satisfy every engine precondition for any flow and
      coefficient above zero. */
  lemma DefaultsAccepted(q: real, kz: real, t: ChamberType)
    requires q > 0.0 && kz > 0.0
    ensures SelectedParamsOk(t, DefaultHorizontalParams(), DefaultAeratedParams(), DefaultVerticalParams())
    ensures HorizontalDomain(UserInput(q, kz, t), DefaultHorizontalParams())
    ensures AeratedDomain(UserInput(q, kz, t), DefaultAeratedParams())
    ensures VerticalDomain(UserInput(q, kz, t), DefaultVerticalParams())
  {
  }

  /** On the initial state the page shows the horizontal design-manual example. */
  lemma InitialStateResult(q: Option<real>, kz: Option<real>, t: ChamberType,
                           hp: HorizontalParams, ap: AeratedParams, vp: VerticalParams, sqrt: real -> real)
    requires q == InitialQ && kz == InitialKz && t == InitialType
    requires hp == DefaultHorizontalParams() && ap == DefaultAeratedParams() && vp == DefaultVerticalParams()
    ensures ComputeResult(q, kz, t, hp, ap, vp, sqrt) == Some(CalculateHorizontal(UserInput(0.2, 1.5, Horizontal), hp))
    ensures ComputeResult(q, kz, t, hp, ap, vp, sqrt)
         == Some(CalculationResult(7.5, 1.2, 1.7, 1.0, Some(2), Some(0.691), None, None,
                                   HorizontalDetails(0.8, 0.4, 0.25)))
  {
    var input := UserInput(0.2, 1.5, Horizontal);
    assert ComputeResult(q, kz, t, hp, ap, vp, sqrt) == Some(Dispatch(input, hp, ap, vp, sqrt));
    HorizontalManualExample();
  }
}

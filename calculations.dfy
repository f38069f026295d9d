/** The grit-chamber sizing engine: one formula chain per chamber type. Each chain
    is split into the unrounded intermediate values (`SizeHorizontal`, `SizeAerated`,
    `SizeVertical`) and the result record built from them with the display rounding
    applied (`CalculateHorizontal`, `CalculateAerated`, `CalculateVertical`). The
    engine never declines. Its preconditions keep every divisor non-zero and every
    square-root argument non-negative, and they go further than that: the horizontal
    chain also requires Q, v, h2 and b_grid to be positive, the aerated chain Q,
    v_horizontal and the width/depth ratio, and the vertical chain v_up. */
module Calculations {
  import opened Numerics
  import opened Types
  import opened Constants

  // ------------------------------------------------------------------
  // Horizontal-flow chamber
  // ------------------------------------------------------------------

  /** Every number a result shows is non-negative: the dimensions, the optional
      type-specific quantities and the details beside them. */
  predicate NonNegativeResult(r: CalculationResult) {
    && r.length >= 0.0 && r.totalWidth >= 0.0 && r.totalDepth >= 0.0 && r.effectiveDepth >= 0.0
    && (r.numChannels.Some? ==> r.numChannels.value >= 0)
    && (r.volumeGrit.Some? ==> r.volumeGrit.value >= 0.0)
    && (r.airSupply.Some? ==> r.airSupply.value >= 0.0)
    && (r.diameter.Some? ==> r.diameter.value >= 0.0)
    && match r.details
       case HorizontalDetails(area, gritDepth, velocityCheck) => area >= 0.0 && gritDepth >= 0.0 && velocityCheck >= 0.0
       case AeratedDetails(volume, area) => volume >= 0.0 && area >= 0.0
       case VerticalDetails(area) => area >= 0.0
  }

  /** The horizontal parameters divide the chain without a zero divisor, with
      velocity, depth and channel width of the physical sign. */
  predicate HorizontalParamsOk(p: HorizontalParams) {
    p.v > 0.0 && p.t != 0.0 && p.h2 > 0.0 && p.bGrid > 0.0
  }

  predicate HorizontalDomain(input: UserInput, p: HorizontalParams) {
    input.q > 0.0 && input.kz != 0.0 && HorizontalParamsOk(p)
  }

  /** The unrounded values of the horizontal chain: length L, cross-section A,
      required width B_calc, channel count n, actual width B_actual, grit volume
      V_grit, hopper depth h3 and total depth H. */
  datatype HorizontalSizing = HorizontalSizing(
    length: real, area: real, requiredWidth: real, channels: int,
    width: real, gritVolume: real, gritDepth: real, totalDepth: real)

  /** Rounding the number of channels up always yields at least one channel and a
      width that covers the requirement by less than one channel: n is the bound
      that `Ceil` gives for w / b. */
  lemma ChannelsCover(w: real, b: real, n: int)
    requires w > 0.0 && b > 0.0
    requires w / b <= n as real && (n - 1) as real < w / b
    ensures n >= 1
    ensures w <= n as real * b < w + b
  {
    var z := w / b;
    assert z * b == w;
    ScaleBelow(z, n as real, b);
    ScaleStrictlyBelow((n - 1) as real, z, b);
    assert (n - 1) as real * b == n as real * b - b;
  }

  lemma ScaleBelow(a: real, c: real, b: real)
    requires b > 0.0 && a <= c
    ensures a * b <= c * b
  {
  }

  lemma ScaleStrictlyBelow(a: real, c: real, b: real)
    requires b > 0.0 && a < c
    ensures a * b < c * b
  {
  }

  /** Hopper depth h3: never below the 0.4 m constructible minimum nor below the
      grit volume spread over the plan plus a 0.2 m allowance, and one of the two. */
  function HopperDepth(gritVolume: real, length: real, width: real): (h3: real)
    requires length * width != 0.0
    ensures h3 >= 0.4
    ensures h3 >= gritVolume / (length * width) + 0.2
    ensures h3 == 0.4 || h3 == gritVolume / (length * width) + 0.2
  {
    Max(0.4, gritVolume / (length * width) + 0.2)
  }

  function SizeHorizontal(input: UserInput, p: HorizontalParams): (s: HorizontalSizing)
    requires HorizontalDomain(input, p)
    ensures s.channels >= 1
    ensures s.width == s.channels as real * p.bGrid
    ensures s.requiredWidth <= s.width < s.requiredWidth + p.bGrid
    ensures s.length * s.width != 0.0
    ensures s.gritVolume == GritVolume(input.q, input.kz, p.xGrit, p.tClean)
    ensures s.gritDepth == HopperDepth(s.gritVolume, s.length, s.width)
  {
    var L := p.v * p.t;
    var A := input.q / p.v;
    var bCalc := A / p.h2;
    var n := Ceil(bCalc / p.bGrid);
    ChannelsCover(bCalc, p.bGrid, n);
    var bActual := n as real * p.bGrid;
    var vGrit := GritVolume(input.q, input.kz, p.xGrit, p.tClean);
    assert L * bActual != 0.0;
    var h3 := HopperDepth(vGrit, L, bActual);
    var h := FREEBOARD + p.h2 + h3;
    HorizontalSizing(L, A, bCalc, n, bActual, vGrit, h3, h)
  }

  /** The channel count is the least whole number of channels whose combined width
      covers the required width. */
  lemma ChannelCountIsLeast(input: UserInput, p: HorizontalParams, m: int)
    requires HorizontalDomain(input, p)
    requires m as real * p.bGrid >= SizeHorizontal(input, p).requiredWidth
    ensures m >= SizeHorizontal(input, p).channels
  {
    var s := SizeHorizontal(input, p);
    LeastCover(s.requiredWidth, p.bGrid, s.channels, m);
  }

  /** No fewer than n channels of width b cover w when n - 1 channels do not. */
  lemma LeastCover(w: real, b: real, n: int, m: int)
    requires b > 0.0 && n as real * b < w + b && m as real * b >= w
    ensures m >= n
  {
    assert (n - 1) as real * b == n as real * b - b;
    CancelPositive((n - 1) as real, m as real, b);
  }

  lemma CancelPositive(a: real, c: real, b: real)
    requires b > 0.0 && a * b < c * b
    ensures a < c
  {
  }

  /** The length is what the water travels in the residence time, the cross-section
      carries the peak flow at the design velocity, and the required width gives
      that cross-section at the effective depth. */
  lemma HorizontalHydraulics(input: UserInput, p: HorizontalParams)
    requires HorizontalDomain(input, p)
    ensures SizeHorizontal(input, p).length / p.v == p.t
    ensures SizeHorizontal(input, p).area * p.v == input.q
    ensures SizeHorizontal(input, p).requiredWidth * p.h2 == SizeHorizontal(input, p).area
  {
    var s := SizeHorizontal(input, p);
    assert s.length == p.v * p.t;
    assert s.area == input.q / p.v;
    assert s.requiredWidth == s.area / p.h2;
  }

  /** The grit volume collected between cleanings, V = Q·x·T·86400 / (Kz·10^6): the
      average flow Q/Kz, accumulated over the cleaning interval in seconds, times
      the grit load per cubic metre of sewage. */
  function GritVolume(q: real, kz: real, xGrit: real, tClean: real): (v: real)
    requires kz != 0.0
    ensures v == (q / kz) * (tClean * 86400.0) * (xGrit / 1000000.0)
  {
    AverageFlowForm(q, kz, xGrit, tClean);
    (q * xGrit * tClean * 86400.0) / (kz * 1000000.0)
  }

  lemma AverageFlowForm(q: real, kz: real, x: real, tc: real)
    requires kz != 0.0
    ensures (q * x * tc * 86400.0) / (kz * 1000000.0) == (q / kz) * (tc * 86400.0) * (x / 1000000.0)
  {
    calc {
      (q * x * tc * 86400.0) / (kz * 1000000.0);
      ((q / kz) * kz * x * tc * 86400.0) / (kz * 1000000.0);
      (q / kz) * (tc * 86400.0) * (x / 1000000.0);
    }
  }

  /** The hopper depth h3 and the total depth H follow the hopper rule and add the
      freeboard, so the chamber is at least h2 + 0.7 deep. */
  lemma HorizontalDepths(input: UserInput, p: HorizontalParams)
    requires HorizontalDomain(input, p)
    ensures SizeHorizontal(input, p).gritDepth >= 0.4
    ensures SizeHorizontal(input, p).totalDepth == FREEBOARD + p.h2 + SizeHorizontal(input, p).gritDepth
    ensures SizeHorizontal(input, p).totalDepth >= p.h2 + 0.7
  {
  }

  /** The horizontal result: the effective depth is the input h2 and the channel
      count is n, both left unrounded; the other quantities are shown with two
      decimals, the grit volume with three. */
  function CalculateHorizontal(input: UserInput, p: HorizontalParams): (r: CalculationResult)
    requires HorizontalDomain(input, p)
    ensures r.effectiveDepth == p.h2
    ensures r.numChannels == Some(SizeHorizontal(input, p).channels)
    ensures r.numChannels.value >= 1
    ensures r.length == Round(SizeHorizontal(input, p).length, 2)
    ensures r.totalWidth == Round(SizeHorizontal(input, p).width, 2)
    ensures r.totalDepth == Round(SizeHorizontal(input, p).totalDepth, 2)
    ensures r.volumeGrit == Some(Round(SizeHorizontal(input, p).gritVolume, 3))
    ensures r.airSupply == None && r.diameter == None
    ensures r.details == HorizontalDetails(
      Round(SizeHorizontal(input, p).area, 2), Round(SizeHorizontal(input, p).gritDepth, 2), p.v)
  {
    var s := SizeHorizontal(input, p);
    CalculationResult(
      length := Round(s.length, 2),
      totalWidth := Round(s.width, 2),
      totalDepth := Round(s.totalDepth, 2),
      effectiveDepth := p.h2,
      numChannels := Some(s.channels),
      volumeGrit := Some(Round(s.gritVolume, 3)),
      airSupply := None,
      diameter := None,
      details := HorizontalDetails(area := Round(s.area, 2), gritDepth := Round(s.gritDepth, 2), velocityCheck := p.v))
  }

  /** With a positive variation coefficient and retention time and a grit load and
      cleaning interval that are not negative, every shown number is non-negative. */
  lemma HorizontalNonNegative(input: UserInput, p: HorizontalParams)
    requires HorizontalDomain(input, p)
    requires input.kz > 0.0 && p.t > 0.0 && p.xGrit >= 0.0 && p.tClean >= 0.0
    ensures NonNegativeResult(CalculateHorizontal(input, p))
  {
    var s := SizeHorizontal(input, p);
    assert s.length == p.v * p.t && s.area == input.q / p.v;
    ProductNonNegative(p.v, p.t);
    ProductNonNegative(input.q / input.kz, p.tClean * 86400.0);
    ProductNonNegative((input.q / input.kz) * (p.tClean * 86400.0), p.xGrit / 1000000.0);
    HorizontalDepths(input, p);
    RoundNonNegative(s.length, 2);
    RoundNonNegative(s.width, 2);
    RoundNonNegative(s.totalDepth, 2);
    RoundNonNegative(s.gritVolume, 3);
    RoundNonNegative(s.area, 2);
    RoundNonNegative(s.gritDepth, 2);
  }

  /** The design-manual example with the default parameters, Q = 0.2 m3/s and
      Kz = 1.5: L = 7.5 m, A = 0.8 m2, two channels 1.2 m wide, 0.6912 m3 of grit,
      the 0.4 m hopper minimum, and 1.7 m in all. */
  lemma HorizontalManualExample()
    ensures SizeHorizontal(UserInput(0.2, 1.5, Horizontal), DefaultHorizontalParams())
         == HorizontalSizing(7.5, 0.8, 0.8, 2, 1.2, 0.6912, 0.4, 1.7)
    ensures CalculateHorizontal(UserInput(0.2, 1.5, Horizontal), DefaultHorizontalParams())
         == CalculationResult(7.5, 1.2, 1.7, 1.0, Some(2), Some(0.691), None, None,
                              HorizontalDetails(0.8, 0.4, 0.25))
  {
    var s := SizeHorizontal(UserInput(0.2, 1.5, Horizontal), DefaultHorizontalParams());
    assert Ceil(0.8 / 0.6) == 2;
    assert s == HorizontalSizing(7.5, 0.8, 0.8, 2, 1.2, 0.6912, 0.4, 1.7);
    Pow10Values();
    RoundIs(7.5, 2, 750);
    RoundIs(1.2, 2, 120);
    RoundIs(1.7, 2, 170);
    RoundIs(0.6912, 3, 691);
    RoundIs(0.8, 2, 80);
    RoundIs(0.4, 2, 40);
  }

  // ------------------------------------------------------------------
  // Aerated chamber
  // ------------------------------------------------------------------

  /** The aerated parameters divide the chain without a zero divisor and keep the
      square-root argument non-negative. */
  predicate AeratedParamsOk(p: AeratedParams) {
    p.vHorizontal > 0.0 && p.widthDepthRatio > 0.0
  }

  predicate AeratedDomain(input: UserInput, p: AeratedParams) {
    input.q > 0.0 && AeratedParamsOk(p)
  }

  /** The unrounded values of the aerated chain: volume V, cross-section A, length L,
      effective depth h2, width B, air supply (m3/h) and total depth H. */
  datatype AeratedSizing = AeratedSizing(
    volume: real, area: real, length: real, depth: real, width: real,
    airSupply: real, totalDepth: real)

  function SizeAerated(input: UserInput, p: AeratedParams, sqrt: real -> real): (s: AeratedSizing)
    requires AeratedDomain(input, p)
    ensures s.area > 0.0
  {
    var V := input.q * p.t * 60.0;
    var A := input.q / p.vHorizontal;
    var L := V / A;
    var h2 := sqrt(A / p.widthDepthRatio);
    var B := p.widthDepthRatio * h2;
    var air := p.airRatio * input.q * 3600.0;
    var H := FREEBOARD + h2 + 0.5;
    AeratedSizing(V, A, L, h2, B, air, H)
  }

  /** The length is the distance the water travels at the horizontal velocity during
      the residence time, so it does not depend on the flow; the volume is that
      length times the cross-section, which carries the flow at that velocity. */
  lemma AeratedLength(input: UserInput, p: AeratedParams, sqrt: real -> real)
    requires AeratedDomain(input, p)
    ensures SizeAerated(input, p, sqrt).length == p.t * 60.0 * p.vHorizontal
    ensures SizeAerated(input, p, sqrt).volume == SizeAerated(input, p, sqrt).length * SizeAerated(input, p, sqrt).area
    ensures SizeAerated(input, p, sqrt).area * p.vHorizontal == input.q
  {
    TravelDistance(input.q, p.t * 60.0, p.vHorizontal);
  }

  /** (q * t) / (q / v) is v * t for positive q and v. */
  lemma TravelDistance(q: real, t: real, v: real)
    requires q > 0.0 && v > 0.0
    ensures (q * t) / (q / v) == t * v
    ensures (q * t) / (q / v) * (q / v) == q * t
    ensures (q / v) * v == q
  {
    assert (t * v) * (q / v) == q * t;
  }

  /** Two flows sized with the same parameters get the same length. */
  lemma AeratedLengthIndependentOfFlow(a: UserInput, b: UserInput, p: AeratedParams, sqrt: real -> real)
    requires AeratedDomain(a, p) && AeratedDomain(b, p)
    ensures SizeAerated(a, p, sqrt).length == SizeAerated(b, p, sqrt).length
  {
    AeratedLength(a, p, sqrt);
    AeratedLength(b, p, sqrt);
  }

  /** The width and depth have the prescribed ratio and together make up exactly the
      cross-section; the depth is positive. */
  lemma AeratedCrossSection(input: UserInput, p: AeratedParams, sqrt: real -> real)
    requires AeratedDomain(input, p) && IsSqrt(sqrt)
    ensures SizeAerated(input, p, sqrt).depth > 0.0 && SizeAerated(input, p, sqrt).width > 0.0
    ensures SizeAerated(input, p, sqrt).width == p.widthDepthRatio * SizeAerated(input, p, sqrt).depth
    ensures SizeAerated(input, p, sqrt).width * SizeAerated(input, p, sqrt).depth == SizeAerated(input, p, sqrt).area
  {
    var s := SizeAerated(input, p, sqrt);
    var x := s.area / p.widthDepthRatio;
    assert x > 0.0;
    assert s.depth == sqrt(x);
    RatioRectangle(s.area, p.widthDepthRatio, s.depth);
  }

  /** A depth h with h * h == A / r makes a rectangle r * h by h of area A. */
  lemma RatioRectangle(a: real, r: real, h: real)
    requires a > 0.0 && r > 0.0 && h >= 0.0 && h * h == a / r
    ensures h > 0.0 && r * h > 0.0
    ensures (r * h) * h == a
  {
    assert (r * h) * h == r * (h * h);
  }

  /** The depth is the only positive depth whose ratio-wide rectangle has the
      cross-section's area. */
  lemma AeratedDepthIsUnique(input: UserInput, p: AeratedParams, sqrt: real -> real, d: real)
    requires AeratedDomain(input, p) && IsSqrt(sqrt)
    requires d > 0.0 && (p.widthDepthRatio * d) * d == SizeAerated(input, p, sqrt).area
    ensures d == SizeAerated(input, p, sqrt).depth
  {
    var s := SizeAerated(input, p, sqrt);
    AeratedCrossSection(input, p, sqrt);
    SameRectangle(p.widthDepthRatio, d, s.depth);
  }

  /** Two positive depths giving the same ratio-wide rectangle area are equal. */
  lemma SameRectangle(r: real, d: real, e: real)
    requires r > 0.0 && d > 0.0 && e > 0.0 && (r * d) * d == (r * e) * e
    ensures d == e
  {
    assert r * (d * d) == r * (e * e);
    assert d * d == e * e;
    assert (d - e) * (d + e) == 0.0;
  }

  /** The air supply per second is the air-to-water ratio times the peak flow, and
      the total depth adds the freeboard and a 0.5 m grit sump to the depth. */
  lemma AeratedAirAndDepth(input: UserInput, p: AeratedParams, sqrt: real -> real)
    requires AeratedDomain(input, p)
    ensures SizeAerated(input, p, sqrt).airSupply / 3600.0 == p.airRatio * input.q
    ensures SizeAerated(input, p, sqrt).totalDepth == FREEBOARD + SizeAerated(input, p, sqrt).depth + 0.5
    ensures SizeAerated(input, p, sqrt).totalDepth == SizeAerated(input, p, sqrt).depth + 0.8
  {
  }

  /** The aerated result: every quantity shown with two decimals except the air
      supply and the volume, shown with one. */
  function CalculateAerated(input: UserInput, p: AeratedParams, sqrt: real -> real): (r: CalculationResult)
    requires AeratedDomain(input, p)
    ensures r.length == Round(SizeAerated(input, p, sqrt).length, 2)
    ensures r.totalWidth == Round(SizeAerated(input, p, sqrt).width, 2)
    ensures r.totalDepth == Round(SizeAerated(input, p, sqrt).totalDepth, 2)
    ensures r.effectiveDepth == Round(SizeAerated(input, p, sqrt).depth, 2)
    ensures r.airSupply == Some(Round(SizeAerated(input, p, sqrt).airSupply, 1))
    ensures r.numChannels == None && r.volumeGrit == None && r.diameter == None
    ensures r.details == AeratedDetails(
      Round(SizeAerated(input, p, sqrt).volume, 1), Round(SizeAerated(input, p, sqrt).area, 2))
  {
    var s := SizeAerated(input, p, sqrt);
    CalculationResult(
      length := Round(s.length, 2),
      totalWidth := Round(s.width, 2),
      totalDepth := Round(s.totalDepth, 2),
      effectiveDepth := Round(s.depth, 2),
      numChannels := None,
      volumeGrit := None,
      airSupply := Some(Round(s.airSupply, 1)),
      diameter := None,
      details := AeratedDetails(volume := Round(s.volume, 1), area := Round(s.area, 2)))
  }

  /** A value shown with two decimals is within 0.005 of the value. */
  lemma RoundTwoWithin(x: real)
    ensures -0.005 <= Round(x, 2) - x <= 0.005
  {
    RoundNearest(x, 2);
    Pow10Values();
  }

  /** The sides w and d, each shown with two decimals, multiply to the area a up to
      0.005 (w + d) + 0.000025. */
  predicate ShownAreaWithin(w: real, d: real, a: real) {
    -(0.005 * (w + d) + 0.000025) <= Round(w, 2) * Round(d, 2) - a <= 0.005 * (w + d) + 0.000025
  }

  /** Multiplying the displayed width (`totalWidth`) by the displayed depth
      (`effectiveDepth`) gives back the cross-section up to the display rounding of
      the two factors. */
  lemma AeratedDisplayedArea(input: UserInput, p: AeratedParams, sqrt: real -> real, s: AeratedSizing)
    requires AeratedDomain(input, p) && IsSqrt(sqrt) && s == SizeAerated(input, p, sqrt)
    ensures ShownAreaWithin(s.width, s.depth, s.area)
  {
    AeratedCrossSection(input, p, sqrt);
    ShownRectangle(s.width, s.depth, s.area);
  }

  /** Sides shown within 0.005 of exact sides give the exact area up to the
      rounding error of the product. */
  lemma ShownRectangle(w: real, d: real, a: real)
    requires w > 0.0 && d > 0.0 && w * d == a
    ensures ShownAreaWithin(w, d, a)
  {
    RoundTwoWithin(w);
    RoundTwoWithin(d);
    ProductOfApproximations(w, d, Round(w, 2), Round(d, 2), 0.005);
  }

  /** With a retention time and an air ratio that are not negative, every shown
      number is non-negative. */
  lemma AeratedNonNegative(input: UserInput, p: AeratedParams, sqrt: real -> real)
    requires AeratedDomain(input, p) && IsSqrt(sqrt)
    requires p.t >= 0.0 && p.airRatio >= 0.0
    ensures NonNegativeResult(CalculateAerated(input, p, sqrt))
  {
    var s := SizeAerated(input, p, sqrt);
    AeratedLength(input, p, sqrt);
    AeratedCrossSection(input, p, sqrt);
    AeratedAirAndDepth(input, p, sqrt);
    ProductNonNegative(p.t * 60.0, p.vHorizontal);
    ProductNonNegative(s.length, s.area);
    ProductNonNegative(p.airRatio, input.q);
    RoundNonNegative(s.length, 2);
    RoundNonNegative(s.width, 2);
    RoundNonNegative(s.totalDepth, 2);
    RoundNonNegative(s.depth, 2);
    RoundNonNegative(s.airSupply, 1);
    RoundNonNegative(s.volume, 1);
    RoundNonNegative(s.area, 2);
  }

  /** The design-manual example with the default parameters and Q = 1.2 m3/s:
      V = 144 m3, A = 12 m2, L = 12 m, h2 = sqrt(8) = 2.83 m, B = 4.24 m,
      864 m3/h of air and H = 3.63 m. */
  lemma AeratedManualExample(sqrt: real -> real)
    requires IsSqrt(sqrt)
    ensures var s := SizeAerated(UserInput(1.2, 1.5, Aerated), DefaultAeratedParams(), sqrt);
      && s.volume == 144.0 && s.area == 12.0 && s.length == 12.0
      && 2.828 < s.depth < 2.829 && s.airSupply == 864.0
    ensures CalculateAerated(UserInput(1.2, 1.5, Aerated), DefaultAeratedParams(), sqrt)
         == CalculationResult(12.0, 4.24, 3.63, 2.83, None, None, Some(864.0), None,
                              AeratedDetails(144.0, 12.0))
  {
    var s := SizeAerated(UserInput(1.2, 1.5, Aerated), DefaultAeratedParams(), sqrt);
    assert s.area == 12.0;
    assert s.volume == 144.0;
    assert s.length == 12.0;
    assert s.depth == sqrt(8.0);
    RootBetween(s.depth, 8.0, 2.828, 2.829);
    Pow10Values();
    RoundIs(12.0, 2, 1200);
    RoundIs(s.width, 2, 424);
    RoundIs(s.totalDepth, 2, 363);
    RoundIs(s.depth, 2, 283);
    RoundIs(864.0, 1, 8640);
    RoundIs(144.0, 1, 1440);
  }

  // ------------------------------------------------------------------
  // Vertical-flow chamber
  // ------------------------------------------------------------------

  /** The rise velocity divides the chain and is of the physical sign. */
  predicate VerticalParamsOk(p: VerticalParams) {
    p.vUp > 0.0
  }

  /** With a non-negative flow the square-root argument is non-negative. */
  predicate VerticalDomain(input: UserInput, p: VerticalParams) {
    input.q >= 0.0 && VerticalParamsOk(p)
  }

  /** The unrounded values of the vertical chain: plan area A, diameter D, water
      depth h2, cone height h4 and total depth H. */
  datatype VerticalSizing = VerticalSizing(
    area: real, diameter: real, waterDepth: real, coneHeight: real, totalDepth: real)

  function SizeVertical(input: UserInput, p: VerticalParams, sqrt: real -> real): (s: VerticalSizing)
    requires VerticalDomain(input, p)
    ensures s.area >= 0.0
  {
    var A := input.q / p.vUp;
    var D := sqrt((4.0 * A) / PI);
    var h2 := p.vUp * p.t;
    var h4 := D / 2.0;
    var H := FREEBOARD + h2 + h4;
    VerticalSizing(A, D, h2, h4, H)
  }

  /** The plan is the circle of diameter D whose area A carries the flow at the rise
      velocity. */
  lemma VerticalPlan(input: UserInput, p: VerticalParams, sqrt: real -> real)
    requires VerticalDomain(input, p) && IsSqrt(sqrt)
    ensures SizeVertical(input, p, sqrt).area * p.vUp == input.q
    ensures SizeVertical(input, p, sqrt).diameter >= 0.0
    ensures SizeVertical(input, p, sqrt).diameter * SizeVertical(input, p, sqrt).diameter
         == 4.0 * (input.q / p.vUp) / PI
    ensures PI * (SizeVertical(input, p, sqrt).diameter / 2.0) * (SizeVertical(input, p, sqrt).diameter / 2.0)
         == SizeVertical(input, p, sqrt).area
  {
    var s := SizeVertical(input, p, sqrt);
    var x := (4.0 * s.area) / PI;
    assert x >= 0.0;
    assert s.diameter == sqrt(x);
    CircleArea(s.area, s.diameter);
  }

  /** A diameter whose square is 4A / PI bounds a circle of area A. */
  lemma CircleArea(a: real, d: real)
    requires d * d == (4.0 * a) / PI
    ensures PI * (d / 2.0) * (d / 2.0) == a
  {
    assert PI * (d / 2.0) * (d / 2.0) == PI * (d * d) / 4.0;
  }

  /** The water depth is what the water rises in the residence time; the cone
      height is half the diameter; the total depth adds the freeboard to both. */
  lemma VerticalDepths(input: UserInput, p: VerticalParams, sqrt: real -> real)
    requires VerticalDomain(input, p)
    ensures SizeVertical(input, p, sqrt).waterDepth / p.vUp == p.t
    ensures SizeVertical(input, p, sqrt).coneHeight * 2.0 == SizeVertical(input, p, sqrt).diameter
    ensures SizeVertical(input, p, sqrt).totalDepth
         == FREEBOARD + p.vUp * p.t + SizeVertical(input, p, sqrt).diameter / 2.0
  {
    assert (p.vUp * p.t) / p.vUp == p.t;
  }

  /** A larger flow needs a strictly larger diameter. */
  lemma VerticalDiameterGrowsWithFlow(a: UserInput, b: UserInput, p: VerticalParams, sqrt: real -> real)
    requires VerticalDomain(a, p) && VerticalDomain(b, p) && IsSqrt(sqrt)
    requires a.q < b.q
    ensures SizeVertical(a, p, sqrt).diameter < SizeVertical(b, p, sqrt).diameter
  {
    var x, y := (4.0 * (a.q / p.vUp)) / PI, (4.0 * (b.q / p.vUp)) / PI;
    QuotientGrows(a.q, b.q, p.vUp);
    assert 0.0 <= x < y;
    SqrtStrictlyIncreasing(sqrt, x, y);
  }

  /** A faster rise velocity needs a strictly smaller diameter. */
  lemma VerticalDiameterShrinksWithRiseVelocity(input: UserInput, p: VerticalParams, p': VerticalParams, sqrt: real -> real)
    requires VerticalDomain(input, p) && VerticalDomain(input, p') && IsSqrt(sqrt)
    requires input.q > 0.0 && p.vUp < p'.vUp
    ensures SizeVertical(input, p', sqrt).diameter < SizeVertical(input, p, sqrt).diameter
  {
    var x, y := (4.0 * (input.q / p'.vUp)) / PI, (4.0 * (input.q / p.vUp)) / PI;
    QuotientShrinks(input.q, p.vUp, p'.vUp);
    assert 0.0 <= x < y;
    SqrtStrictlyIncreasing(sqrt, x, y);
  }

  lemma QuotientGrows(a: real, b: real, v: real)
    requires 0.0 <= a < b && v > 0.0
    ensures 0.0 <= (4.0 * (a / v)) / PI < (4.0 * (b / v)) / PI
  {
  }

  lemma QuotientShrinks(q: real, v: real, w: real)
    requires q > 0.0 && 0.0 < v < w
    ensures 0.0 <= (4.0 * (q / w)) / PI < (4.0 * (q / v)) / PI
  {
    assert q / w < q / v;
  }

  /** The vertical result: the diameter fills the length, width and diameter slots
      alike; every quantity is shown with two decimals. */
  function CalculateVertical(input: UserInput, p: VerticalParams, sqrt: real -> real): (r: CalculationResult)
    requires VerticalDomain(input, p)
    ensures r.length == Round(SizeVertical(input, p, sqrt).diameter, 2)
    ensures r.totalWidth == r.length && r.diameter == Some(r.length)
    ensures r.effectiveDepth == Round(SizeVertical(input, p, sqrt).waterDepth, 2)
    ensures r.totalDepth == Round(SizeVertical(input, p, sqrt).totalDepth, 2)
    ensures r.numChannels == None && r.volumeGrit == None && r.airSupply == None
    ensures r.details == VerticalDetails(Round(SizeVertical(input, p, sqrt).area, 2))
  {
    var s := SizeVertical(input, p, sqrt);
    CalculationResult(
      length := Round(s.diameter, 2),
      totalWidth := Round(s.diameter, 2),
      totalDepth := Round(s.totalDepth, 2),
      effectiveDepth := Round(s.waterDepth, 2),
      numChannels := None,
      volumeGrit := None,
      airSupply := None,
      diameter := Some(Round(s.diameter, 2)),
      details := VerticalDetails(area := Round(s.area, 2)))
  }

  /** With a retention time that is not negative, every shown number is
      non-negative. */
  lemma VerticalNonNegative(input: UserInput, p: VerticalParams, sqrt: real -> real)
    requires VerticalDomain(input, p) && IsSqrt(sqrt)
    requires p.t >= 0.0
    ensures NonNegativeResult(CalculateVertical(input, p, sqrt))
  {
    var s := SizeVertical(input, p, sqrt);
    VerticalPlan(input, p, sqrt);
    VerticalDepths(input, p, sqrt);
    ProductNonNegative(p.vUp, p.t);
    RoundNonNegative(s.diameter, 2);
    RoundNonNegative(s.waterDepth, 2);
    RoundNonNegative(s.totalDepth, 2);
    RoundNonNegative(s.area, 2);
  }

  /** The design-manual example with the default parameters and Q = 0.2 m3/s:
      A = 4 m2, D = sqrt(16 / PI) = 2.26 m, h2 = 1.5 m and H = 2.93 m. */
  lemma VerticalManualExample(sqrt: real -> real)
    requires IsSqrt(sqrt)
    ensures var s := SizeVertical(UserInput(0.2, 1.5, Vertical), DefaultVerticalParams(), sqrt);
      && s.area == 4.0 && 2.256 < s.diameter < 2.257 && s.waterDepth == 1.5
    ensures CalculateVertical(UserInput(0.2, 1.5, Vertical), DefaultVerticalParams(), sqrt)
         == CalculationResult(2.26, 2.26, 2.93, 1.5, None, None, None, Some(2.26), VerticalDetails(4.0))
  {
    var s := SizeVertical(UserInput(0.2, 1.5, Vertical), DefaultVerticalParams(), sqrt);
    assert s.area == 4.0;
    assert s.waterDepth == 1.5;
    var x := 16.0 / PI;
    assert s.diameter == sqrt(x);
    RootBetween(s.diameter, x, 2.256, 2.257);
    Pow10Values();
    RoundIs(s.diameter, 2, 226);
    RoundIs(1.5, 2, 150);
    RoundIs(s.totalDepth, 2, 293);
    RoundIs(4.0, 2, 400);
  }
}

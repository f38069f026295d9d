/** The design-manual default parameter sets and the standard freeboard. */
module Constants {
  import opened Types

  /** Freeboard h1 (m) above the water surface, added to every total depth. */
  const FREEBOARD: real := 0.3

  /** Horizontal-flow defaults; each lies in the range the design manual recommends. */
  function DefaultHorizontalParams(): (p: HorizontalParams)
    ensures 0.15 <= p.v <= 0.3
    ensures 30.0 <= p.t <= 60.0
    ensures 0.25 <= p.h2 <= 1.2
    ensures p.bGrid >= 0.6
    ensures p.xGrit > 0.0 && p.tClean > 0.0
  {
    HorizontalParams(v := 0.25, t := 30.0, h2 := 1.0, bGrid := 0.6, xGrit := 30.0, tClean := 2.0)
  }

  /** Aerated defaults; each lies in the range the design manual recommends. */
  function DefaultAeratedParams(): (p: AeratedParams)
    ensures 1.0 <= p.t <= 3.0
    ensures 0.06 <= p.vHorizontal <= 0.12
    ensures p.airRatio == 0.2
    ensures 1.0 <= p.widthDepthRatio <= 2.0
  {
    AeratedParams(t := 2.0, vHorizontal := 0.1, airRatio := 0.2, widthDepthRatio := 1.5)
  }

  /** Vertical-flow defaults; each lies in the range the design manual recommends. */
  function DefaultVerticalParams(): (p: VerticalParams)
    ensures 0.02 <= p.vUp <= 0.1
    ensures 30.0 <= p.t <= 60.0
  {
    VerticalParams(vUp := 0.05, t := 30.0)
  }
}

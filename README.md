# Grit-chamber sizing, modelled in Dafny

This project models the sizing engine of a calculator for wastewater grit chambers. It covers three chamber types.

- **Horizontal-flow chamber.** The model computes:
  - the length from velocity and retention time;
  - the cross-sectional area and the required width;
  - the number of channels, rounded up, and the actual width;
  - the grit volume collected between cleanings;
  - a hopper depth with a 0.4 m floor;
  - the total depth.
- **Aerated chamber.** The model computes:
  - the volume, area and length;
  - a width/depth split from a ratio through a square root;
  - the hourly air supply;
  - the total depth, made of the freeboard, the effective depth and a 0.5 m sump.
- **Vertical-flow chamber.** The model computes the plan area, the diameter, the water depth, a cone height of D/2 and the total depth.

The model also covers the page-level result computation. A validity gate yields no result unless the flow Q and the variation coefficient Kz are numbers above zero. When the gate passes, a dispatch picks the chain for the selected chamber type. The default parameter sets and the freeboard constant are modelled too.

Modules:
- `Numerics` (numerics.dfy): the JavaScript numeric built-ins over exact reals.
  - `Math.ceil` and `Math.max` are functions with their own contracts.
  - `toFixed` followed by `parseFloat` is `Round(x, digits)`: the nearest multiple of 10^-digits, with a tie going away from zero.
  - `Math.sqrt` is a function parameter constrained by `IsSqrt`.
  - `Math.PI` is its decimal rendering.
- `Types` (types.dfy): the input, parameter and result records.
- `Constants` (constants.dfy): the default parameter sets and `FREEBOARD`.
- `Calculations` (calculations.dfy): the three chains.
  - Each chain is split into a `Size…` function that holds the unrounded intermediate values and a `Calculate…` function that builds the displayed record.
  - The lemmas state the design relations on the unrounded values.
  - One design-manual worked example per chain is evaluated to the exact displayed record.
- `App` (app.dfy): the gate, the dispatch and the page's result.

## Model

| member | source | states |
|---|---|---|
| Numerics.Ceil | utils/calculations.ts:30 | Math.ceil: the result is an integer n with n - 1 < x <= n, i.e. the least integer not below x |
| Numerics.Max | utils/calculations.ts:46 | Math.max of two numbers: an upper bound of both that equals one of them |
| Numerics.Round | utils/calculations.ts:51-59 | parseFloat(x.toFixed(d)): the result has at most d decimals |
| Numerics.RoundNearest | utils/calculations.ts:51-59 | the displayed value lies within half a unit of the last digit from x, a half-unit tie is resolved away from zero, and non-negative values stay non-negative |
| Numerics.RoundIs | utils/calculations.ts:51-59 | the displayed value of a non-negative x is k·10^-d whenever x·10^d lies in [k - 1/2, k + 1/2), which evaluates displays of values known only by bounds |
| Numerics.RoundNonNegative | utils/calculations.ts:51-59 | a non-negative value is never shown as a negative one |
| Numerics.PI | utils/calculations.ts:129 | Math.PI, as the decimal rendering 3.141592653589793 of the double |
| Numerics.IsSqrt | utils/calculations.ts:89 | Math.sqrt, here for the aerated depth and also for the vertical diameter at utils/calculations.ts:129: for every non-negative argument, a non-negative result whose square is the argument; the aerated depth and the vertical diameter are stated for every such function |
| Numerics.SqrtStrictlyIncreasing | utils/calculations.ts:129 | the square root used for the diameter and the depth strictly increases with its argument |
| Constants.FREEBOARD | constants.ts:27 | the freeboard h1 = 0.3 m, which every total depth adds (see HorizontalDepths, AeratedAirAndDepth and VerticalDepths) |
| Constants.DefaultHorizontalParams | constants.ts:4-11 | v in [0.15, 0.3], t in [30, 60], h2 in [0.25, 1.2], b_grid at least 0.6, grit load and cleaning interval positive |
| Constants.DefaultAeratedParams | constants.ts:14-19 | t in [1, 3] minutes, horizontal velocity in [0.06, 0.12], air ratio exactly 0.2, width/depth ratio in [1, 2] |
| Constants.DefaultVerticalParams | constants.ts:22-25 | rise velocity in [0.02, 0.1], retention time in [30, 60] |
| Calculations.ChannelsCover | utils/calculations.ts:30-33 | n = ceil(B_calc / b_grid) is at least 1 and n·b_grid covers B_calc with less than one channel width to spare |
| Calculations.HopperDepth | utils/calculations.ts:46 | the hopper depth is at least 0.4, at least V_grit/(L·B_actual) + 0.2, and equal to one of the two |
| Calculations.SizeHorizontal | utils/calculations.ts:21-48 | at least one channel; actual width = n·b_grid, covering the required width with less than b_grid to spare; the grit volume is `GritVolume` of Q, Kz, x_grit and T_clean; the grit depth is the hopper depth of that volume over L·B_actual |
| Calculations.ChannelCountIsLeast | utils/calculations.ts:27-30 | every channel count m whose total width covers the required width is at least n, so n is the least such count |
| Calculations.HorizontalHydraulics | utils/calculations.ts:21-27 | L/v = t, A·v = Q and B_calc·h2 = A |
| Calculations.GritVolume | utils/calculations.ts:35-37 | the grit volume Q·x·T·86400/(Kz·10^6) equals the average flow Q/Kz, times the cleaning interval in seconds, times the grit load per 10^6 m³ |
| Calculations.HorizontalDepths | utils/calculations.ts:46-48 | the grit depth is at least 0.4; H = FREEBOARD + h2 + h3, and H is at least h2 + 0.7 |
| Calculations.CalculateHorizontal | utils/calculations.ts:50-62 | effectiveDepth is h2 unchanged and numChannels is n unrounded (at least 1); length, width, depth, area and grit depth are shown to 2 decimals, grit volume to 3; velocityCheck is v; no air supply or diameter |
| Calculations.HorizontalNonNegative | utils/calculations.ts:50-62 | with Kz > 0, t > 0 and a grit load and cleaning interval that are not negative, every number of the horizontal result is non-negative |
| Calculations.HorizontalManualExample | utils/calculations.ts:21-62 | Q = 0.2 and Kz = 1.5 with the defaults give L = 7.5, A = 0.8, n = 2, B = 1.2, V = 0.6912, h3 = 0.4 (the floor applies) and H = 1.7, and the exact displayed record |
| Calculations.SizeAerated | utils/calculations.ts:77-98 | the cross-sectional area is positive |
| Calculations.AeratedLength | utils/calculations.ts:77-83 | L = t·60·v_horizontal, V = L·A and A·v_horizontal = Q |
| Calculations.AeratedLengthIndependentOfFlow | utils/calculations.ts:77-83 | two flows with the same parameters give the same length |
| Calculations.AeratedCrossSection | utils/calculations.ts:80-90 | depth and width are positive, B = ratio·h2 and B·h2 = Q/v_horizontal exactly |
| Calculations.AeratedDepthIsUnique | utils/calculations.ts:86-89 | any positive depth d with (ratio·d)·d = A is the computed depth |
| Calculations.AeratedAirAndDepth | utils/calculations.ts:94-98 | the air supply per second is air_ratio·Q; H = FREEBOARD + h2 + 0.5 = h2 + 0.8 |
| Calculations.CalculateAerated | utils/calculations.ts:100-110 | length, width, total and effective depth and area are shown to 2 decimals, air supply and volume to 1; no channel count, grit volume or diameter |
| Calculations.AeratedDisplayedArea | utils/calculations.ts:89-90 | the displayed width times the displayed depth (both to 2 decimals) differs from the true area by at most 0.005·(B + h2) + 0.000025 |
| Calculations.AeratedNonNegative | utils/calculations.ts:100-110 | with a retention time and an air ratio that are not negative, every number of the aerated result is non-negative |
| Calculations.AeratedManualExample | utils/calculations.ts:77-110 | Q = 1.2 with the defaults gives V = 144, A = 12, L = 12, a depth between 2.828 and 2.829 and an air supply of 864 m³/h, and the exact displayed record |
| Calculations.SizeVertical | utils/calculations.ts:128-139 | the plan area is non-negative |
| Calculations.VerticalPlan | utils/calculations.ts:128-129 | A·v_up = Q, D >= 0, D·D = 4·(Q/v_up)/PI with PI the decimal value of Math.PI (not π), and the circle of diameter D has area A under that PI |
| Calculations.VerticalDepths | utils/calculations.ts:133-139 | h2/v_up = t, the cone height is D/2, and H = FREEBOARD + v_up·t + D/2 |
| Calculations.VerticalDiameterGrowsWithFlow | utils/calculations.ts:128-129 | a larger flow gives a strictly larger diameter |
| Calculations.VerticalDiameterShrinksWithRiseVelocity | utils/calculations.ts:128-129 | for a positive flow, a larger rise velocity gives a strictly smaller diameter |
| Calculations.CalculateVertical | utils/calculations.ts:141-150 | length, totalWidth and diameter carry the same D shown to 2 decimals; effective depth, total depth and area also to 2 decimals; no channel count, grit volume or air supply |
| Calculations.VerticalNonNegative | utils/calculations.ts:141-150 | with a retention time that is not negative, every number of the vertical result is non-negative |
| Calculations.VerticalManualExample | utils/calculations.ts:128-150 | Q = 0.2 with the defaults gives A = 4 and the exact displayed record (D = 2.26, h2 = 1.5, H = 2.93) |
| App.InitialQ | App.tsx:21 | the initial flow field, which parses to 0.2 |
| App.InitialKz | App.tsx:22 | the initial coefficient field, which parses to 1.5 |
| App.InitialType | App.tsx:23 | the initially selected chamber type, HORIZONTAL |
| App.Gate | App.tsx:37-39 | an input record exists exactly when q and kz are numbers above zero, and it then carries q, kz and the chamber type unchanged |
| App.Dispatch | App.tsx:41-47 | HORIZONTAL runs the horizontal chain on the horizontal parameters, AERATED the aerated chain, any other type the vertical chain; the type-specific fields are present exactly for their type |
| App.ComputeResult | App.tsx:33-48 | no result exactly when q or kz is missing or not above zero; otherwise the dispatch of the record (q, kz, type) |
| App.OnlySelectedParamsMatter | App.tsx:41-47 | changing the parameter sets of unselected types, or the square root under the horizontal chain, does not change the result |
| App.GateInspectsOnlyFlowInputs | App.tsx:37 | whether a result appears does not depend on the chamber type or on any parameter value |
| App.NegativeGritLoadStillComputes | App.tsx:37-42 | one instance: with x_grit = -30 in the otherwise default horizontal set, Q = 0.2 and Kz = 1.5, the gate still passes and the result shows a negative grit volume, so a negative parameter does not suppress the calculation (the page has no field for x_grit, so this one is reachable only through the parameter record) |
| App.NegativeRetentionTimeStillComputes | App.tsx:37-42 | one instance: with t = -30 in the otherwise default horizontal set (a value the horizontal panel's t field at App.tsx:176-179 accepts), Q = 0.2 and Kz = 1.5, the gate still passes and the result shows a negative length |
| App.DefaultsAccepted | constants.ts:4-25 | the default sets meet every engine precondition for any Q > 0 and Kz > 0 |
| App.InitialStateResult | App.tsx:21-48 | the initial state (0.2, 1.5, HORIZONTAL and the defaults) yields the horizontal chain on the defaults, i.e. the design-manual record |

## Left out

- Rendering: all JSX, the result cards, the advanced-parameter panel and the chamber diagram component are UI without domain logic.
- React state and memoisation: useState setters and useMemo dependency tracking are not modelled. The result is a plain function of its inputs.
- String parsing: parseFloat on the text fields is not modelled. A parsed field is `Option<real>`, with `None` standing for NaN.
- Infinity: a field reading "Infinity" passes the gate in the source, because it is neither NaN nor ≤ 0. Reals have no infinity, so this input has no counterpart.
- IEEE-754 arithmetic is not modelled. All quantities are exact reals, so binary rounding of intermediate values and of toFixed's input is not modelled, and NaN/Infinity propagation is not either. `Round` is the decimal rounding of the exact value.
- Channel count at exact multiples: because of the ceiling, the binary rounding of B_calc/b_grid can change the count by a whole channel. With Q = 1.05, Kz = 1.5 and the default horizontal set, the exact quotient 4.2/0.6 is 7, so the model gives n = 7 and B = 4.2; in doubles the quotient is 7.000000000000001, so the program shows n = 8 and B = 4.8. Calculations.ChannelsCover and Calculations.ChannelCountIsLeast hold for the exact quotient only.
- Math.sqrt is not a concrete function, because Dafny cannot construct real square roots. Every lemma that needs it quantifies over any function satisfying `IsSqrt`.
- Math.PI is the decimal rendering 3.141592653589793 of the double, not π.
- Engine preconditions: the source engine never declines. On a zero divisor it yields Infinity or NaN.
  - The horizontal, aerated and vertical chains require the divisors they use to be non-zero or positive:
    - horizontal: v, h2, b_grid and Q positive; t and Kz non-zero;
    - aerated: Q, v_horizontal and the width/depth ratio positive;
    - vertical: v_up positive and Q non-negative.
  - These positivity requirements exclude inputs the source still computes. A negative v or h2 (the page's v and h2 fields accept one) gives a finite record with a channel count of at most zero. For example, v = -0.25 with Q = 0.2, Kz = 1.5 and the other defaults gives L = -7.5, n = -1, B = -0.6, h3 = 0.4 and H = 1.7.
  - Nothing else is required. Negative grit loads, cleaning intervals, air ratios and retention times are accepted.
  - The engine has no "declines on invalid input" path. The only no-result path is the gate in App.tsx.
- The breakdown display at App.tsx:279 hard-codes the air ratio 0.2. It is display text, not part of the computed result.
- GRIT_CHAMBER_SLOPE (constants.ts:28) is not modelled, because it is never used.
- types.ts is mirrored by the datatypes in `Types`, with fields renamed to camelCase. `UserInput.type` becomes `chamberType`, and the per-type `details` object becomes a `Details` datatype. It has no behaviour of its own.
- Calculations.SizeAerated, Calculations.SizeVertical: their own ensures state only the area's sign. The relations they compute are stated by the lemmas beside them, and the square-root relations hold only under `IsSqrt`.
- Numerics.Round: its own ensures states only that the result has at most `digits` decimals. How near the result is to x, and how ties are broken, is stated by `Numerics.RoundNearest`.

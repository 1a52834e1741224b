# Two-pump station calculator (schema 01)

A Dafny model of the calculation engine for the two-pump pressurised pumping
station ("schema 01"). Each pump is given by its flow (m³/h), lift head (m) and
line velocity (m/s), and the shared discharge manifold by its velocity. The
engine returns:

- the two pumps with their flows converted to m³/s;
- the bore and design pressure of the check valves K1, K2 and the gate valves Z1 to Z5;
- three minimum clearance lengths.

The engine is a set of pure functions, and the model keeps that form.

- `js_number.dfy` (module `JsNumber`) models JavaScript numbers over exact reals:
  `Num = Fin(real) | NaN | PosInf | NegInf`. It gives `+`, `*`, `/` and
  `Math.max` with JavaScript's rules for NaN and the infinities, plus
  `Number.isFinite` and `Math.sqrt`. `Math.PI` is a constant known only to lie
  strictly between 3.14159 and 3.1416, so no proof depends on its exact digits. The finite square root is `HostSqrt`, a
  constant of a function type that promises only what the host's square root
  guarantees and the proofs need: a non-negative result, positive for a
  positive argument. Where a proof needs the exact root, it takes
  `IsExactRoot(HostSqrt)` as a hypothesis.
- `types.dfy` (module `CalculatorTypes`) holds the records: `PumpInput`,
  `PumpCalculated`, `ValveResult`, `CalculatorInputs` and `CalculatorResults`.
- `schema_01.dfy` (module `Schema01`) holds the four engine functions and the
  lemmas about them.

Equality between `Num` values is structural, so `NaN == NaN` holds. The
statement "K1 equals Z1" therefore means the two fields have the same value or
are both NaN. This is the sense of `Object.is`, not of JavaScript's `===`.

## Model

| member | source | states |
|---|---|---|
| `Schema01.M3hToM3s` | src/lib/calculators/schema-01.ts:7-9 | A finite hourly flow f gives exactly f/3600, which is negative exactly when f is. The result is positive exactly when f is, +∞ included. NaN and both infinities pass through unchanged, so the result is finite exactly when f is. |
| `Schema01.M3hToM3sRoundTrip` | src/lib/calculators/schema-01.ts:7-9 | Multiplying the converted flow by 3600 gives back the hourly flow for every input, NaN and infinities included. So the conversion is exactly division by 3600. |
| `Schema01.M3hToM3sExamples` | src/lib/calculators/schema-01.test.ts:14-30 | 3600 m³/h gives exactly 1 m³/s, 1800 gives 0.5 and 0 gives 0. |
| `Schema01.ApproximateFlowExamples` | src/lib/calculators/schema-01.test.ts:30-41 | 100 m³/h lies within 0.005 of 0.02778 m³/s, and 250.5 m³/h within 0.005 of 0.06958 m³/s. These are the default tolerances of the tests. |
| `Schema01.CalculateDiameter` | src/lib/calculators/schema-01.ts:11-16 | The guard inputs give NaN: a non-finite flow or velocity, a zero velocity, or a zero flow. The result is never infinite. It is a positive number exactly when flow and velocity are finite with the same sign. Otherwise it is NaN, from the guard or from the square root of a negative ratio. |
| `Schema01.DiameterCarriesFlow` | src/lib/calculators/schema-01.ts:15 | Assume the square root is exact, and take a finite flow q and velocity v of the same sign. Then the computed bore d is finite and its cross-section π·(d/2000)² times v equals q: the pipe carries the flow at that velocity. |
| `Schema01.DiameterIsOnlyBore` | src/lib/calculators/schema-01.ts:15 | Under the same hypotheses, a positive bore b carries q at v if and only if b is the computed diameter. So the formula picks the one bore that fits. |
| `Schema01.DiameterReachesEveryBore` | src/lib/calculators/schema-01.ts:11-16 | Under an exact square root, for every finite non-zero velocity and every positive bore there is a flow of the velocity's sign whose computed diameter is that bore. |
| `Schema01.RootCarriesFlow` | src/lib/calculators/schema-01.ts:15 | On reals: for q and v of the same sign, the bore 1000·sqrt(4q/(π·v)) has a cross-section that carries q at v. |
| `Schema01.OnlyBoreCarries` | src/lib/calculators/schema-01.ts:15 | On reals: for q and v of the same sign, a positive bore carries q at v exactly when it equals 1000·sqrt(4q/(π·v)). |
| `Schema01.DiameterDegenerateExamples` | src/lib/calculators/schema-01.test.ts:64-81 | The test cases all give NaN: zero velocity, zero flow, a NaN flow, a NaN velocity, and an infinite flow. |
| `Schema01.CalculatePressure` | src/lib/calculators/schema-01.ts:18-23 | The pressure is NaN exactly when the head is not finite. Otherwise it is the head times the combined factor 0.11. |
| `Schema01.PressureExamples` | src/lib/calculators/schema-01.test.ts:86-117 | Heads 0, 10, 20 and 50 give exactly 0, 1.1, 2.2 and 5.5. Zero gives 0, not NaN. NaN and +∞ give NaN. |
| `Schema01.PressureStrictlyIncreasing` | src/lib/calculators/schema-01.ts:18-23 | Of two finite heads, the higher one gets a strictly higher, finite design pressure. |
| `Schema01.Calculate` | src/lib/calculators/schema-01.ts:25-93 | Each result pump keeps its three input fields and gains the flow converted by `M3hToM3s`. K1 = Z1, both sized from pump 1's own flow, velocity and head. K2 = Z2, both sized from pump 2's. Z3 = Z4 = Z5. length1 is 5 K1 bores, length2 is 3 K1 bores and length3 is 3 Z3 bores. Each length is NaN exactly when its governing bore is NaN. |
| `Schema01.ManifoldSizing` | src/lib/calculators/schema-01.ts:56-73 | With both hourly flows finite, the manifold bore is the diameter of the average flow (f1 + f2)/7200 m³/s at the manifold velocity; this is an average, not a sum. If either flow is not finite, the bore is NaN. The manifold pressure is the pressure of `Math.max` of the two heads, and it is NaN if either head is NaN. |
| `Schema01.MaxHeadRule` | src/lib/calculators/schema-01.ts:58-62 | With finite heads, the manifold pressure is finite. It is at least the pressure of either check valve, and it equals one of them. |
| `Schema01.PumpSwap` | src/lib/calculators/schema-01.ts:36-77 | Swapping the two pumps swaps K1 with K2 and Z1 with Z2. The manifold valves and length3 stay the same. |
| `Schema01.IdenticalPumps` | src/lib/calculators/schema-01.ts:36-73 | With two identical pumps, K1 = K2 = Z1 = Z2. The manifold is sized on one pump's own flow, since the average of two equal flows is that flow. Its pressure equals the check valves' pressure. |
| `Schema01.BaseStationExample` | src/lib/calculators/schema-01.test.ts:136-212 | Two pumps at 100 m³/h, 20 m and 2 m/s, with a manifold at 1.5 m/s. Each pump's flow is exactly 100/3600 m³/s, which is within 0.000005 of 0.027778 (the five-digit tolerance of line 148). The four pump-line valves are equal. The check-valve and manifold pressures are 2.2. The manifold bore is the diameter of 100/3600 m³/s at 1.5 m/s. |
| `Schema01.AsymmetricHeadsExample` | src/lib/calculators/schema-01.test.ts:214-239 | With heads of 20 m and 30 m, Z3, Z4 and Z5 are all rated 3.3. |
| `Schema01.DifferentPumpsExample` | src/lib/calculators/schema-01.test.ts:267-297 | Pump 1 at 25 m and pump 2 at 18 m: K1's pressure is strictly greater than K2's, and the pressures of Z1 and Z2 differ (line 296). |
| `Schema01.DifferentPumpsBoresExample` | src/lib/calculators/schema-01.test.ts:267-295 | Under an exact square root, the same two pumps (150 m³/h at 2.2 m/s, 120 m³/h at 1.8 m/s) get different K1 and K2 bores, whatever the value of π. |
| `Schema01.AllZeroInputs` | src/lib/calculators/schema-01.test.ts:303-326 | With all inputs zero, every diameter and every length is NaN and every pressure is 0. |
| `Schema01.DiameterExamples` | src/lib/calculators/schema-01.test.ts:44-61 | Under an exact square root, the bore for 0.027778 m³/s at 2 m/s lies within 0.05 mm of 132.98, and the bore for 100 m³/h at 1.5 m/s lies within 0.05 mm of 153.56, for every π in the enclosure. |
| `Schema01.BaseStationBoresExample` | src/lib/calculators/schema-01.test.ts:152-173 | Under an exact square root, in the base station (two pumps of 100 m³/h, 20 m, 2 m/s) the K1, K2, Z1 and Z2 bores are equal and lie within 0.05 mm of 132.98. |
| `Schema01.DiameterBetween` | src/lib/calculators/schema-01.ts:11-16 | Under an exact square root, for a positive flow and velocity whose radicand 4q / (π v) lies between lo² and hi² for every π in the enclosure, the computed bore lies strictly between 1000·lo and 1000·hi mm. |
| `Schema01.SewageStationExample` | src/lib/calculators/schema-01.test.ts:331-369 | Both pumps at 200 m³/h, 15 m and 2 m/s, manifold at 1.5 m/s. The K1 pressure is exactly 1.65, so between 1 and 5. Under an exact square root, the K1 bore lies between 100 and 300 mm and length1 exceeds 500 mm. |
| `JsNumber.NaNAbsorbs` | src/lib/calculators/schema-01.ts:56-77 | A NaN operand makes `+`, `*`, `/`, `Math.max` and `Math.sqrt` return NaN. This is how a NaN flow passes through the `/3600` of line 8 and the average of line 56, and how a NaN head passes through `Math.max` at line 58 and a NaN bore through the lengths at lines 75-77. The guards at lines 12-14 and 19-21 make the NaN results of `calculateDiameter` and `calculatePressure` themselves; inside those two functions only the root of a negative value yields a NaN that is then absorbed. |
| `JsNumber.SpecialValueRules` | src/lib/calculators/schema-01.ts:56-77 | ∞ − ∞, 0·∞, 0/0 and ∞/∞ are NaN. A positive or negative finite value over zero is +∞ or −∞. A finite value over +∞ is 0. The square root of a negative number is NaN and of +∞ is +∞. `Math.max` with +∞ is +∞, and with −∞ is the other operand. |
| `JsNumber.AddCommutes` | src/lib/calculators/schema-01.ts:56 | The sum of the two pump flows does not depend on their order, NaN and infinities included. |
| `JsNumber.MaxCommutes` | src/lib/calculators/schema-01.ts:58 | `Math.max` of the two heads does not depend on their order, NaN included. |

## Left out

- Floating-point rounding is not modelled: numbers are exact reals. So 0.1·1.1 is exactly 0.11, `/3600` is exact, and there is no overflow, underflow or negative zero. Division by zero is modelled with a positive zero divisor.
- `Schema01.CalculateDiameter`: "positive and never infinite" holds over exact reals only. With doubles, a radicand that overflows (flow 1e300 at velocity 1e-10) gives +∞, and one that underflows (flow 5e-324 at velocity 10) gives 0.
- `Schema01.PressureStrictlyIncreasing`: strict growth holds over exact reals only. With doubles, two adjacent heads can round to the same pressure.
- `Math.sqrt` on finite non-negative arguments is uninterpreted (`HostSqrt`). Its concrete values are not modelled.
- Results that need the digits of `Math.PI` beyond 3.14159 < π < 3.1416, or a rounded `Math.sqrt`, are not stated; every bore value the tests in src/lib/calculators/schema-01.test.ts check needs only the enclosure and an exact root. The bores 132.98 and 153.56 to one decimal need only the enclosure and an exact root, and are stated by `Schema01.DiameterExamples` and `Schema01.BaseStationBoresExample`. The K1 and K2 bore comparison at src/lib/calculators/schema-01.test.ts:295 is stated by `Schema01.DifferentPumpsBoresExample`, which needs only an exact (hence injective) root. The sewage-station bounds at lines 359-363 are stated by `Schema01.SewageStationExample`. The approximate flows of the tests are stated by `Schema01.ApproximateFlowExamples` and `Schema01.BaseStationExample`. The pressure comparison at line 296 is stated by `Schema01.DifferentPumpsExample`.
- `Math.PI` has no exact value in the model: it is only known to lie strictly between 3.14159 and 3.1416.
- `Schema01.DiameterCarriesFlow`: holds only under the hypothesis that the square root is exact, because the model cannot define a real square root.
- `Schema01.DiameterIsOnlyBore`: holds only under the hypothesis that the square root is exact, because the model cannot define a real square root.
- `Schema01.DiameterReachesEveryBore`: holds only under the hypothesis that the square root is exact, because the model cannot define a real square root.
- `Schema01.RootCarriesFlow`: holds only under the hypothesis that the square root is exact, because the model cannot define a real square root.
- `Schema01.OnlyBoreCarries`: holds only under the hypothesis that the square root is exact, because the model cannot define a real square root.
- `Schema01.DifferentPumpsBoresExample`: holds only under the hypothesis that the square root is exact, because the model cannot define a real square root.
- `Schema01.DiameterExamples`: holds only under the hypothesis that the square root is exact, because the model cannot define a real square root.
- `Schema01.BaseStationBoresExample`: holds only under the hypothesis that the square root is exact, because the model cannot define a real square root.
- `Schema01.DiameterBetween`: holds only under the hypothesis that the square root is exact, because the model cannot define a real square root.
- `Schema01.SewageStationExample`: its bore and length bounds hold only under the hypothesis that the square root is exact, because the model cannot define a real square root.
- The calculator registry in src/lib/calculators/index.ts (`getCalculator`, `getAllCalculators`, `calculatorRegistry`) is not modelled. It is a constant lookup table with display strings and no domain logic.
- The schema identifier union in src/lib/calculators/types.ts:37-42 is not modelled. Only `schema-01` has an implementation.

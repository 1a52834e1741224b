/**
 * Sizing for a two-pump station discharging into a shared manifold:
 * pipe diameters, design pressures and clearance lengths for the check
 * valves K1, K2 and the gate valves Z1 to Z5.
 */
module Schema01 {
  import opened JsNumber
  import opened CalculatorTypes

  /** Converts a flow from m³/h to m³/s; NaN and the infinities pass through. */
  function M3hToM3s(flowM3PerH: Num): (q: Num)
    ensures IsFinite(q) <==> IsFinite(flowM3PerH)
    ensures IsFinite(flowM3PerH) ==> q == Fin(flowM3PerH.value / 3600.0)
    ensures IsFinite(flowM3PerH) ==> (q.value < 0.0 <==> flowM3PerH.value < 0.0)
    ensures !IsFinite(flowM3PerH) ==> q == flowM3PerH
    ensures IsPositive(q) <==> IsPositive(flowM3PerH)
  {
    Div(flowM3PerH, Fin(3600.0))
  }

  /** The inputs the diameter formula refuses outright. */
  predicate DiameterGuard(q: Num, v: Num) {
    !IsFinite(q) || !IsFinite(v) || IsZero(v) || IsZero(q)
  }

  /** Flow and velocity are finite numbers of the same sign. */
  predicate SameSignFinite(q: Num, v: Num) {
    && IsFinite(q) && IsFinite(v)
    && ((q.value > 0.0 && v.value > 0.0) || (q.value < 0.0 && v.value < 0.0))
  }

  /**
   * Pipe bore in millimetres for flow `q` (m³/s) at velocity `v` (m/s):
   * sqrt(4q / (π v)) · 1000. The result is a positive number exactly when
   * q and v are finite and of the same sign, and NaN otherwise: through the
   * guard, or through the square root of a negative value.
   */
  function CalculateDiameter(q: Num, v: Num): (d: Num)
    ensures DiameterGuard(q, v) ==> d.NaN?
    ensures d.NaN? || (d.Fin? && d.value > 0.0)
    ensures !d.NaN? <==> SameSignFinite(q, v)
  {
    if DiameterGuard(q, v) then NaN
    else
      FormulaOutcome(q, v);
      Mul(Sqrt(Div(Mul(Fin(4.0), q), Mul(Fin(Pi), v))), Fin(1000.0))
  }

  /**
   * Past the guard, the formula yields 1000 times the host square root of
   * 4q / (π v) when q and v share a sign, and NaN (the root of a negative
   * value) when they do not.
   */
  lemma FormulaOutcome(q: Num, v: Num)
    requires !DiameterGuard(q, v)
    ensures Pi * v.value != 0.0
    ensures Mul(Sqrt(Div(Mul(Fin(4.0), q), Mul(Fin(Pi), v))), Fin(1000.0))
            == if SameSignFinite(q, v) then Fin(Bore(q.value, v.value)) else NaN
    ensures SameSignFinite(q, v) ==> Bore(q.value, v.value) > 0.0
  {
    RadicandSign(q.value, v.value);
    assert Mul(Fin(4.0), q) == Fin(4.0 * q.value);
    assert Mul(Fin(Pi), v) == Fin(Pi * v.value);
    assert Div(Mul(Fin(4.0), q), Mul(Fin(Pi), v)) == Fin((4.0 * q.value) / (Pi * v.value));
    if SameSignFinite(q, v) {
      assert Sqrt(Fin((4.0 * q.value) / (Pi * v.value))) == Fin(HostSqrt((4.0 * q.value) / (Pi * v.value)));
    } else {
      assert Sqrt(Fin((4.0 * q.value) / (Pi * v.value))) == NaN;
    }
  }

  /** The bore in millimetres the formula gives for a finite flow `q` and velocity `v`. */
  function Bore(q: real, v: real): real
    requires v != 0.0
  {
    RadicandSign(q, v);
    HostSqrt((4.0 * q) / (Pi * v)) * 1000.0
  }

  /** The radicand 4q / (π v) is positive exactly when q and v share a sign. */
  lemma RadicandSign(q: real, v: real)
    requires v != 0.0
    ensures Pi * v != 0.0
    ensures (4.0 * q) / (Pi * v) > 0.0 <==> (q > 0.0 && v > 0.0) || (q < 0.0 && v < 0.0)
    ensures q != 0.0 ==> (4.0 * q) / (Pi * v) != 0.0
  {
    ProductSign(Pi, v);
    assert (4.0 * q) / (Pi * v) * (Pi * v) == 4.0 * q;
    DivisionSign(4.0 * q, Pi * v);
  }

  /** A quotient is positive exactly when numerator and denominator share a sign. */
  lemma DivisionSign(a: real, b: real)
    requires b != 0.0
    ensures a / b > 0.0 <==> (a > 0.0 && b > 0.0) || (a < 0.0 && b < 0.0)
  {
    var c := a / b;
    assert a == c * b;
    ProductSign(c, b);
  }

  /** A product is positive exactly when both factors share a sign. */
  lemma ProductSign(a: real, b: real)
    ensures a * b > 0.0 <==> (a > 0.0 && b > 0.0) || (a < 0.0 && b < 0.0)
  {
    if a > 0.0 && b < 0.0 {
      assert a * b == -(a * -b);
    } else if a < 0.0 && b > 0.0 {
      assert a * b == -(-a * b);
    } else if a < 0.0 && b < 0.0 {
      assert a * b == -a * -b;
    }
  }

  /** Design pressure from a pump's lift head: head · 0.1 · 1.1, NaN for a non-finite head. */
  function CalculatePressure(headM: Num): (p: Num)
    ensures p.NaN? <==> !IsFinite(headM)
    ensures IsFinite(headM) ==> p == Fin(0.11 * headM.value)
  {
    if !IsFinite(headM) then NaN
    else Mul(Mul(headM, Fin(0.1)), Fin(1.1))
  }

  /** `c` is `p` with its flow per second attached and every input field unchanged. */
  predicate Extends(c: PumpCalculated, p: PumpInput) {
    && c.flowM3PerH == p.flowM3PerH
    && c.headM == p.headM
    && c.velocityMPerS == p.velocityMPerS
    && c.flowM3PerS == M3hToM3s(p.flowM3PerH)
  }

  /** The valve sized on one pump's own discharge line. */
  predicate SizedOnPumpLine(valve: ValveResult, p: PumpInput) {
    && valve.diameterMm == CalculateDiameter(M3hToM3s(p.flowM3PerH), p.velocityMPerS)
    && valve.pressureM == CalculatePressure(p.headM)
  }

  /** `len` is `factor` bores of a valve of diameter `d`, and NaN when `d` is. */
  predicate Clearance(len: Num, d: Num, factor: real) {
    (d.NaN? && len.NaN?) || (d.Fin? && len == Fin(factor * d.value))
  }

  /** Sizes the whole station. */
  function Calculate(inputs: CalculatorInputs): (r: CalculatorResults)
    ensures Extends(r.pump1, inputs.pump1) && Extends(r.pump2, inputs.pump2)
    ensures r.checkValveK1 == r.gateValveZ1 && SizedOnPumpLine(r.checkValveK1, inputs.pump1)
    ensures r.checkValveK2 == r.gateValveZ2 && SizedOnPumpLine(r.checkValveK2, inputs.pump2)
    ensures r.gateValveZ3 == r.gateValveZ4 == r.gateValveZ5
    ensures Clearance(r.length1, r.checkValveK1.diameterMm, 5.0)
    ensures Clearance(r.length2, r.checkValveK1.diameterMm, 3.0)
    ensures Clearance(r.length3, r.gateValveZ3.diameterMm, 3.0)
  {
    var pump1 := PumpCalculated(inputs.pump1.flowM3PerH, inputs.pump1.headM, inputs.pump1.velocityMPerS,
                                M3hToM3s(inputs.pump1.flowM3PerH));
    var pump2 := PumpCalculated(inputs.pump2.flowM3PerH, inputs.pump2.headM, inputs.pump2.velocityMPerS,
                                M3hToM3s(inputs.pump2.flowM3PerH));
    var checkValveK1 := ValveResult(CalculateDiameter(pump1.flowM3PerS, pump1.velocityMPerS), CalculatePressure(pump1.headM));
    var checkValveK2 := ValveResult(CalculateDiameter(pump2.flowM3PerS, pump2.velocityMPerS), CalculatePressure(pump2.headM));
    var gateValveZ1 := ValveResult(CalculateDiameter(pump1.flowM3PerS, pump1.velocityMPerS), CalculatePressure(pump1.headM));
    var gateValveZ2 := ValveResult(CalculateDiameter(pump2.flowM3PerS, pump2.velocityMPerS), CalculatePressure(pump2.headM));
    var combinedFlowM3s := Div(Add(pump1.flowM3PerS, pump2.flowM3PerS), Fin(2.0));
    var maxHeadM := Max(pump1.headM, pump2.headM);
    var gateValveZ3 := ValveResult(CalculateDiameter(combinedFlowM3s, inputs.manifoldVelocityMPerS), CalculatePressure(maxHeadM));
    var gateValveZ4 := ValveResult(CalculateDiameter(combinedFlowM3s, inputs.manifoldVelocityMPerS), CalculatePressure(maxHeadM));
    var gateValveZ5 := ValveResult(CalculateDiameter(combinedFlowM3s, inputs.manifoldVelocityMPerS), CalculatePressure(maxHeadM));
    var length1 := Mul(checkValveK1.diameterMm, Fin(5.0));
    var length2 := Mul(checkValveK1.diameterMm, Fin(3.0));
    var length3 := Mul(gateValveZ3.diameterMm, Fin(3.0));
    CalculatorResults(pump1, pump2, checkValveK1, checkValveK2, gateValveZ1, gateValveZ2,
                      gateValveZ3, gateValveZ4, gateValveZ5, length1, length2, length3)
  }

  // ----- Flow conversion -----

  /** Multiplying back by 3600 recovers the hourly flow, for every input. */
  lemma M3hToM3sRoundTrip(flowM3PerH: Num)
    ensures Mul(M3hToM3s(flowM3PerH), Fin(3600.0)) == flowM3PerH
  {
  }

  lemma M3hToM3sExamples()
    ensures M3hToM3s(Fin(3600.0)) == Fin(1.0)
    ensures M3hToM3s(Fin(1800.0)) == Fin(0.5)
    ensures M3hToM3s(Fin(0.0)) == Fin(0.0)
  {
  }

  /** 100 and 250.5 m³/h lie within 0.005 of 0.02778 and 0.06958 m³/s. */
  lemma ApproximateFlowExamples()
    ensures M3hToM3s(Fin(100.0)).Fin? && -0.005 < M3hToM3s(Fin(100.0)).value - 0.02778 < 0.005
    ensures M3hToM3s(Fin(250.5)).Fin? && -0.005 < M3hToM3s(Fin(250.5)).value - 0.06958 < 0.005
  {
  }

  // ----- Diameter -----

  /** x², kept as a named function so the proofs can treat it as one term. */
  function Square(x: real): real {
    x * x
  }

  /** The cross-section in m² of a pipe whose bore is `d` millimetres: π (d / 2000)². */
  function CrossSection(d: real): real {
    Pi * Square(d / 2000.0)
  }

  /**
   * The bore is the one whose cross-section carries the flow at the given
   * velocity, granted an exact square root.
   */
  lemma DiameterCarriesFlow(q: Num, v: Num)
    requires IsExactRoot(HostSqrt)
    requires SameSignFinite(q, v)
    ensures CalculateDiameter(q, v).Fin?
    ensures CrossSection(CalculateDiameter(q, v).value) * v.value == q.value
  {
    DiameterValue(q, v);
    RootCarriesFlow(q.value, v.value);
  }

  /** With an exact root, the bore 1000 · sqrt(4q / (π v)) carries q at v. */
  lemma RootCarriesFlow(q: real, v: real)
    requires IsExactRoot(HostSqrt)
    requires (q > 0.0 && v > 0.0) || (q < 0.0 && v < 0.0)
    ensures CrossSection(Bore(q, v)) * v == q
  {
    RadicandSign(q, v);
    CrossSectionOfRoot(q, v, HostSqrt((4.0 * q) / (Pi * v)));
  }

  /** Past the guard, the diameter is 1000 times the host square root of 4q / (π v). */
  lemma DiameterValue(q: Num, v: Num)
    requires SameSignFinite(q, v)
    ensures CalculateDiameter(q, v) == Fin(Bore(q.value, v.value))
    ensures Bore(q.value, v.value) > 0.0
  {
    FormulaOutcome(q, v);
  }

  /** s² = 4q / (π v) makes 1000 s the bore whose cross-section carries q at v. */
  lemma CrossSectionOfRoot(q: real, v: real, s: real)
    requires Pi * v != 0.0
    requires s * s == (4.0 * q) / (Pi * v)
    ensures CrossSection(s * 1000.0) * v == q
  {
    var x := (4.0 * q) / (Pi * v);
    assert x * (Pi * v) == 4.0 * q;
    assert s * 1000.0 / 2000.0 == s / 2.0;
    calc {
      CrossSection(s * 1000.0) * v;
      Pi * Square(s / 2.0) * v;
      (Pi * v) * (s * s) / 4.0;
      (Pi * v) * x / 4.0;
      q;
    }
  }

  /**
   * Conversely, the computed bore is the only positive bore whose
   * cross-section carries the flow at the given velocity.
   */
  lemma DiameterIsOnlyBore(q: Num, v: Num, b: real)
    requires IsExactRoot(HostSqrt)
    requires SameSignFinite(q, v)
    requires b > 0.0
    ensures CrossSection(b) * v.value == q.value <==> CalculateDiameter(q, v) == Fin(b)
  {
    DiameterValue(q, v);
    OnlyBoreCarries(q.value, v.value, b);
  }

  /** With an exact root, `Bore(q, v)` is the one positive bore that carries q at v. */
  lemma OnlyBoreCarries(q: real, v: real, b: real)
    requires IsExactRoot(HostSqrt)
    requires (q > 0.0 && v > 0.0) || (q < 0.0 && v < 0.0)
    requires b > 0.0
    ensures CrossSection(b) * v == q <==> b == Bore(q, v)
  {
    RootCarriesFlow(q, v);
    if CrossSection(b) * v == q {
      RadicandSign(q, v);
      SameCrossSectionSameBore(q, v, b, Bore(q, v));
    }
  }

  /** Two positive bores that carry the same flow at the same non-zero velocity are equal. */
  lemma SameCrossSectionSameBore(q: real, v: real, b: real, d: real)
    requires v != 0.0 && b > 0.0 && d > 0.0
    requires CrossSection(b) * v == q && CrossSection(d) * v == q
    ensures b == d
  {
    Cancel(CrossSection(b), CrossSection(d), v);
    Cancel(Square(b / 2000.0), Square(d / 2000.0), Pi);
    SquareInjective(b / 2000.0, d / 2000.0);
  }

  /** A non-zero factor cancels. */
  lemma Cancel(x: real, y: real, k: real)
    requires k != 0.0
    requires x * k == y * k || k * x == k * y
    ensures x == y
  {
    assert x == (x * k) / k && y == (y * k) / k;
  }

  /** Squaring is injective on positive reals. */
  lemma SquareInjective(u: real, w: real)
    requires u > 0.0 && w > 0.0
    requires Square(u) == Square(w)
    ensures u == w
  {
    assert (u - w) * (u + w) == 0.0;
    ProductSign(u - w, u + w);
    ProductSign(w - u, u + w);
    assert (w - u) * (u + w) == -((u - w) * (u + w));
  }

  /** A positive bore has a positive cross-section. */
  lemma CrossSectionPositive(d: real)
    requires d > 0.0
    ensures CrossSection(d) > 0.0
  {
    ProductSign(Pi, d / 2000.0);
    ProductSign(Pi * (d / 2000.0), d / 2000.0);
  }

  /**
   * Every positive bore is the computed diameter of some flow at a given
   * non-zero finite velocity: the flow that bore carries.
   */
  lemma DiameterReachesEveryBore(v: Num, b: real)
    requires IsExactRoot(HostSqrt)
    requires IsFinite(v) && v.value != 0.0
    requires b > 0.0
    ensures exists q :: SameSignFinite(q, v) && CalculateDiameter(q, v) == Fin(b)
  {
    CarriedFlowSign(b, v.value);
    var q := Fin(CrossSection(b) * v.value);
    DiameterIsOnlyBore(q, v, b);
  }

  /** The flow a positive bore carries has the sign of the velocity. */
  lemma CarriedFlowSign(b: real, v: real)
    requires b > 0.0
    ensures v > 0.0 ==> CrossSection(b) * v > 0.0
    ensures v < 0.0 ==> CrossSection(b) * v < 0.0
  {
    CrossSectionPositive(b);
    ProductSign(CrossSection(b), v);
    ProductSign(CrossSection(b), -v);
  }

  /** The degenerate inputs exercised by the module's tests all give NaN. */
  lemma DiameterDegenerateExamples()
    ensures CalculateDiameter(Fin(0.027778), Fin(0.0)).NaN?
    ensures CalculateDiameter(Fin(0.0), Fin(2.0)).NaN?
    ensures CalculateDiameter(NaN, Fin(2.0)).NaN?
    ensures CalculateDiameter(Fin(0.027778), NaN).NaN?
    ensures CalculateDiameter(PosInf, Fin(2.0)).NaN?
  {
  }

  // ----- Pressure -----

  lemma PressureExamples()
    ensures CalculatePressure(Fin(0.0)) == Fin(0.0)
    ensures CalculatePressure(Fin(10.0)) == Fin(1.1)
    ensures CalculatePressure(Fin(20.0)) == Fin(2.2)
    ensures CalculatePressure(Fin(50.0)) == Fin(5.5)
    ensures CalculatePressure(NaN).NaN?
    ensures CalculatePressure(PosInf).NaN?
  {
  }

  /** A higher finite head gives a strictly higher design pressure. */
  lemma PressureStrictlyIncreasing(h1: Num, h2: Num)
    requires IsFinite(h1) && IsFinite(h2) && h1.value < h2.value
    ensures CalculatePressure(h1).Fin? && CalculatePressure(h2).Fin?
    ensures CalculatePressure(h1).value < CalculatePressure(h2).value
  {
  }

  // ----- The station -----

  /**
   * The manifold valves Z3 to Z5 are sized on the average of the two pump
   * flows at the manifold velocity, and rated for the larger of the two heads.
   */
  lemma ManifoldSizing(inputs: CalculatorInputs)
    ensures var r := Calculate(inputs);
      var f1 := inputs.pump1.flowM3PerH;
      var f2 := inputs.pump2.flowM3PerH;
      && (IsFinite(f1) && IsFinite(f2) ==>
            r.gateValveZ3.diameterMm == CalculateDiameter(Fin((f1.value + f2.value) / 7200.0), inputs.manifoldVelocityMPerS))
      && (!IsFinite(f1) || !IsFinite(f2) ==> r.gateValveZ3.diameterMm.NaN?)
      && r.gateValveZ3.pressureM == CalculatePressure(Max(inputs.pump1.headM, inputs.pump2.headM))
      && (inputs.pump1.headM.NaN? || inputs.pump2.headM.NaN? ==> r.gateValveZ3.pressureM.NaN?)
  {
    var r := Calculate(inputs);
    var f1 := inputs.pump1.flowM3PerH;
    var f2 := inputs.pump2.flowM3PerH;
    var average := Div(Add(M3hToM3s(f1), M3hToM3s(f2)), Fin(2.0));
    assert r.gateValveZ3.diameterMm == CalculateDiameter(average, inputs.manifoldVelocityMPerS);
    assert r.gateValveZ3.pressureM == CalculatePressure(Max(inputs.pump1.headM, inputs.pump2.headM));
    if IsFinite(f1) && IsFinite(f2) {
      assert (f1.value / 3600.0 + f2.value / 3600.0) / 2.0 == (f1.value + f2.value) / 7200.0;
      assert average == Fin((f1.value + f2.value) / 7200.0);
    } else {
      assert !IsFinite(average);
    }
  }

  /**
   * Max-head rule: with finite heads the manifold pressure is the pressure of
   * the higher-head pump, so it is at least that of either check valve.
   */
  lemma MaxHeadRule(inputs: CalculatorInputs)
    requires IsFinite(inputs.pump1.headM) && IsFinite(inputs.pump2.headM)
    ensures var r := Calculate(inputs);
      && r.gateValveZ3.pressureM.Fin?
      && r.checkValveK1.pressureM.Fin? && r.checkValveK2.pressureM.Fin?
      && r.gateValveZ3.pressureM.value >= r.checkValveK1.pressureM.value
      && r.gateValveZ3.pressureM.value >= r.checkValveK2.pressureM.value
      && (r.gateValveZ3.pressureM == r.checkValveK1.pressureM || r.gateValveZ3.pressureM == r.checkValveK2.pressureM)
  {
    var h1, h2 := inputs.pump1.headM, inputs.pump2.headM;
    ManifoldSizing(inputs);
    if h1.value >= h2.value {
      assert Max(h1, h2) == h1;
    } else {
      assert Max(h1, h2) == h2;
    }
  }

  /** Exchanging the pumps exchanges the pump-line valves and leaves the manifold unchanged. */
  lemma PumpSwap(inputs: CalculatorInputs)
    ensures var r := Calculate(inputs);
      var s := Calculate(CalculatorInputs(inputs.pump2, inputs.pump1, inputs.manifoldVelocityMPerS));
      && s.checkValveK1 == r.checkValveK2 && s.checkValveK2 == r.checkValveK1
      && s.gateValveZ1 == r.gateValveZ2 && s.gateValveZ2 == r.gateValveZ1
      && s.gateValveZ3 == r.gateValveZ3
      && s.length3 == r.length3
  {
    AddCommutes(M3hToM3s(inputs.pump1.flowM3PerH), M3hToM3s(inputs.pump2.flowM3PerH));
    MaxCommutes(inputs.pump1.headM, inputs.pump2.headM);
  }

  /**
   * Two identical pumps: all four pump-line valves coincide, and the manifold
   * valves are sized on one pump's own flow, since the average of two equal
   * flows is that flow.
   */
  lemma IdenticalPumps(inputs: CalculatorInputs)
    requires inputs.pump1 == inputs.pump2
    ensures var r := Calculate(inputs);
      && r.checkValveK1 == r.checkValveK2 == r.gateValveZ1 == r.gateValveZ2
      && r.gateValveZ3.diameterMm == CalculateDiameter(r.pump1.flowM3PerS, inputs.manifoldVelocityMPerS)
      && r.gateValveZ3.pressureM == r.checkValveK1.pressureM
  {
    var r := Calculate(inputs);
    var p := inputs.pump1;
    var f := M3hToM3s(p.flowM3PerH);
    assert r.gateValveZ3 == ValveResult(CalculateDiameter(Div(Add(f, f), Fin(2.0)), inputs.manifoldVelocityMPerS),
                                        CalculatePressure(Max(p.headM, p.headM)));
    assert Div(Add(f, f), Fin(2.0)) == f;
    assert Max(p.headM, p.headM) == p.headM;
  }

  /** Both pumps at 100 m³/h, 20 m, 2 m/s with a 1.5 m/s manifold. */
  lemma BaseStationExample()
    ensures var p := PumpInput(Fin(100.0), Fin(20.0), Fin(2.0));
      var r := Calculate(CalculatorInputs(p, p, Fin(1.5)));
      && r.pump1.flowM3PerS == r.pump2.flowM3PerS == Fin(100.0 / 3600.0)
      && -0.000005 < r.pump1.flowM3PerS.value - 0.027778 < 0.000005
      && r.checkValveK1 == r.checkValveK2 == r.gateValveZ1 == r.gateValveZ2
      && r.checkValveK1.pressureM == Fin(2.2)
      && r.gateValveZ3.diameterMm == CalculateDiameter(Fin(100.0 / 3600.0), Fin(1.5))
      && r.gateValveZ3.pressureM == Fin(2.2)
  {
    var p := PumpInput(Fin(100.0), Fin(20.0), Fin(2.0));
    IdenticalPumps(CalculatorInputs(p, p, Fin(1.5)));
  }

  /** Heads of 20 m and 30 m: every manifold valve is rated 30 · 0.1 · 1.1 = 3.3. */
  lemma AsymmetricHeadsExample()
    ensures var r := Calculate(CalculatorInputs(PumpInput(Fin(100.0), Fin(20.0), Fin(2.0)),
                                                PumpInput(Fin(100.0), Fin(30.0), Fin(2.0)), Fin(1.5)));
      r.gateValveZ3.pressureM == r.gateValveZ4.pressureM == r.gateValveZ5.pressureM == Fin(3.3)
  {
  }

  /**
   * Pump 1 with the higher head (25 m against 18 m) gets the higher check-valve
   * pressure, and the gate valves Z1 and Z2 differ in pressure.
   */
  lemma DifferentPumpsExample()
    ensures var r := Calculate(CalculatorInputs(PumpInput(Fin(150.0), Fin(25.0), Fin(2.2)),
                                                PumpInput(Fin(120.0), Fin(18.0), Fin(1.8)), Fin(1.6)));
      r.checkValveK1.pressureM.Fin? && r.checkValveK2.pressureM.Fin?
      && r.checkValveK1.pressureM.value > r.checkValveK2.pressureM.value
      && r.gateValveZ1.pressureM != r.gateValveZ2.pressureM
  {
    PressureStrictlyIncreasing(Fin(18.0), Fin(25.0));
  }

  /**
   * With an exact root, the same two pumps also get different check-valve
   * bores: 150 m³/h at 2.2 m/s and 120 m³/h at 1.8 m/s need different
   * cross-sections, whatever the value of π.
   */
  lemma DifferentPumpsBoresExample()
    requires IsExactRoot(HostSqrt)
    ensures var r := Calculate(CalculatorInputs(PumpInput(Fin(150.0), Fin(25.0), Fin(2.2)),
                                                PumpInput(Fin(120.0), Fin(18.0), Fin(1.8)), Fin(1.6)));
      r.checkValveK1.diameterMm != r.checkValveK2.diameterMm
  {
    DiameterValue(Fin(150.0 / 3600.0), Fin(2.2));
    DiameterValue(Fin(120.0 / 3600.0), Fin(1.8));
    RootCarriesFlow(150.0 / 3600.0, 2.2);
    RootCarriesFlow(120.0 / 3600.0, 1.8);
    SameBoreSameRatio(Bore(150.0 / 3600.0, 2.2), Bore(120.0 / 3600.0, 1.8), 150.0 / 3600.0, 2.2, 120.0 / 3600.0, 1.8);
  }

  /** Equal bores carrying q1 at v1 and q2 at v2 force q1 / v1 = q2 / v2. */
  lemma SameBoreSameRatio(b1: real, b2: real, q1: real, v1: real, q2: real, v2: real)
    requires CrossSection(b1) * v1 == q1 && CrossSection(b2) * v2 == q2
    ensures b1 == b2 ==> q1 * v2 == q2 * v1
  {
    if b1 == b2 {
      calc {
        q1 * v2;
        CrossSection(b1) * v1 * v2;
        CrossSection(b2) * v2 * v1;
        q2 * v1;
      }
    }
  }

  /**
   * The sewage station: both pumps at 200 m³/h, 15 m, 2 m/s. With an exact
   * root, the check-valve bore lies between 100 and 300 mm and length1 exceeds
   * 500 mm; the check-valve pressure is exactly 1.65, between 1 and 5.
   */
  lemma SewageStationExample()
    requires IsExactRoot(HostSqrt)
    ensures var p := PumpInput(Fin(200.0), Fin(15.0), Fin(2.0));
      var r := Calculate(CalculatorInputs(p, p, Fin(1.5)));
      && r.checkValveK1.pressureM == Fin(1.65)
      && r.checkValveK1.diameterMm.Fin? && 100.0 < r.checkValveK1.diameterMm.value < 300.0
      && r.length1.Fin? && r.length1.value > 500.0
  {
    DiameterBetween(200.0 / 3600.0, 2.0, 0.1, 0.3, 0.01, 0.09);
  }

  /**
   * The diameters of the formula tests: 0.027778 m³/s at 2 m/s and 100 m³/h
   * at 1.5 m/s come within 0.05 mm of 132.98 and 153.56.
   */
  lemma DiameterExamples()
    requires IsExactRoot(HostSqrt)
    ensures CalculateDiameter(Fin(0.027778), Fin(2.0)).Fin?
    ensures 132.93 < CalculateDiameter(Fin(0.027778), Fin(2.0)).value < 133.03
    ensures CalculateDiameter(M3hToM3s(Fin(100.0)), Fin(1.5)).Fin?
    ensures 153.51 < CalculateDiameter(M3hToM3s(Fin(100.0)), Fin(1.5)).value < 153.61
  {
    DiameterBetween(0.027778, 2.0, 0.13293, 0.13303, 0.13293 * 0.13293, 0.13303 * 0.13303);
    DiameterBetween(100.0 / 3600.0, 1.5, 0.15351, 0.15361, 0.15351 * 0.15351, 0.15361 * 0.15361);
  }

  /** In the base station, the four pump-line valves come within 0.05 mm of 132.98. */
  lemma BaseStationBoresExample()
    requires IsExactRoot(HostSqrt)
    ensures var p := PumpInput(Fin(100.0), Fin(20.0), Fin(2.0));
      var r := Calculate(CalculatorInputs(p, p, Fin(1.5)));
      && r.checkValveK1.diameterMm == r.checkValveK2.diameterMm == r.gateValveZ1.diameterMm == r.gateValveZ2.diameterMm
      && r.checkValveK1.diameterMm.Fin? && 132.93 < r.checkValveK1.diameterMm.value < 133.03
  {
    DiameterBetween(100.0 / 3600.0, 2.0, 0.13293, 0.13303, 0.13293 * 0.13293, 0.13303 * 0.13303);
  }

  /**
   * With an exact root, the computed bore for positive q and v lies strictly
   * between 1000·lo and 1000·hi whenever the radicand 4q / (π v) lies between
   * lo² and hi² for every π in the enclosure.
   */
  lemma DiameterBetween(q: real, v: real, lo: real, hi: real, lo2: real, hi2: real)
    requires IsExactRoot(HostSqrt)
    requires q > 0.0 && v > 0.0 && lo > 0.0 && hi > 0.0
    requires lo * lo == lo2 && hi * hi == hi2 && lo2 > 0.0 && hi2 > 0.0
    requires 4.0 * q > lo2 * 3.1416 * v && 4.0 * q < hi2 * 3.14159 * v
    ensures CalculateDiameter(Fin(q), Fin(v)).Fin?
    ensures 1000.0 * lo < CalculateDiameter(Fin(q), Fin(v)).value < 1000.0 * hi
  {
    DiameterValue(Fin(q), Fin(v));
    RadicandBounds(q, v, lo2, hi2);
    ExactRootBetween((4.0 * q) / (Pi * v), lo, hi, lo2, hi2);
  }

  /** An exact root of a value strictly between lo² and hi² lies strictly between lo and hi. */
  lemma ExactRootBetween(x: real, lo: real, hi: real, lo2: real, hi2: real)
    requires IsExactRoot(HostSqrt)
    requires 0.0 < lo && 0.0 < hi && lo * lo == lo2 && hi * hi == hi2
    requires lo2 < x < hi2
    ensures lo < HostSqrt(x) < hi
  {
    RootBetween(x, HostSqrt(x), lo, hi);
  }

  /** Bounds on π turn into bounds on the radicand 4q / (π v). */
  lemma RadicandBounds(q: real, v: real, lo: real, hi: real)
    requires v > 0.0 && lo > 0.0 && hi > 0.0
    requires 4.0 * q > lo * 3.1416 * v && 4.0 * q < hi * 3.14159 * v
    ensures lo < (4.0 * q) / (Pi * v) < hi
  {
    ProductSign(Pi, v);
    PiProductBounds(lo, v, 4.0 * q);
    PiProductBounds(hi, v, 4.0 * q);
    QuotientBounds(4.0 * q, Pi, v, lo, hi);
  }

  /**
   * For positive c and v, c·π·v lies strictly between c·3.14159·v and
   * c·3.1416·v, so whatever lies outside that range is on the same side of c·π·v.
   */
  lemma PiProductBounds(c: real, v: real, n: real)
    requires c > 0.0 && v > 0.0
    ensures c * 3.14159 * v < c * (Pi * v) < c * 3.1416 * v
    ensures n <= c * 3.14159 * v ==> n < c * (Pi * v)
    ensures n >= c * 3.1416 * v ==> n > c * (Pi * v)
  {
    ProductSign(c, v);
    ProductSign(c * v, Pi - 3.14159);
    ProductSign(c * v, 3.1416 - Pi);
    assert c * (Pi * v) == (c * v) * Pi;
  }

  /** A non-negative factor preserves `<=`. */
  lemma MulAtMost(a: real, b: real, c: real)
    requires 0.0 <= a && b <= c
    ensures a * b <= a * c
  {
    ProductSign(a, c - b);
  }

  /** lo·(p·w) < n < hi·(p·w) with p·w positive places n / (p·w) strictly between lo and hi. */
  lemma QuotientBounds(n: real, p: real, w: real, lo: real, hi: real)
    requires p * w > 0.0 && lo * (p * w) < n < hi * (p * w)
    ensures lo < n / (p * w) < hi
  {
    DivisionSign(n - lo * (p * w), p * w);
    DivisionSign(hi * (p * w) - n, p * w);
    assert (n - lo * (p * w)) / (p * w) == n / (p * w) - lo;
    assert (hi * (p * w) - n) / (p * w) == hi - n / (p * w);
  }

  /** A non-negative square root of a value between lo² and hi² lies between lo and hi. */
  lemma RootBetween(x: real, s: real, lo: real, hi: real)
    requires 0.0 < lo && 0.0 < hi && 0.0 <= s
    requires s * s == x
    requires lo * lo < x < hi * hi
    ensures lo < s < hi
  {
    SquareMonotone(s, lo);
    SquareMonotone(hi, s);
  }

  /** For non-negative a, a <= b gives a² <= b². */
  lemma SquareMonotone(a: real, b: real)
    requires 0.0 <= a
    ensures a <= b ==> a * a <= b * b
  {
    if a <= b {
      MulAtMost(a, a, b);
      MulAtMost(b, a, b);
    }
  }

  /** All-zero inputs: every diameter and length is NaN, every pressure is 0. */
  lemma AllZeroInputs()
    ensures var p := PumpInput(Fin(0.0), Fin(0.0), Fin(0.0));
      var r := Calculate(CalculatorInputs(p, p, Fin(0.0)));
      && r.checkValveK1.diameterMm.NaN? && r.checkValveK2.diameterMm.NaN?
      && r.gateValveZ1.diameterMm.NaN? && r.gateValveZ2.diameterMm.NaN?
      && r.gateValveZ3.diameterMm.NaN? && r.gateValveZ4.diameterMm.NaN? && r.gateValveZ5.diameterMm.NaN?
      && r.checkValveK1.pressureM == r.checkValveK2.pressureM == Fin(0.0)
      && r.gateValveZ1.pressureM == r.gateValveZ2.pressureM == Fin(0.0)
      && r.gateValveZ3.pressureM == r.gateValveZ4.pressureM == r.gateValveZ5.pressureM == Fin(0.0)
      && r.length1.NaN? && r.length2.NaN? && r.length3.NaN?
  {
  }
}

/**
 * The JavaScript `number` values and operations the calculator relies on,
 * over exact reals: a finite value, the not-a-number sentinel and the two
 * signed infinities. Only positive zero exists here; rounding is not modelled.
 */
module JsNumber {

  datatype Num = Fin(value: real) | NaN | PosInf | NegInf

  /** `Number.isFinite`. */
  predicate IsFinite(x: Num) {
    x.Fin?
  }

  /** Strictly positive, the positive infinity included. */
  predicate IsPositive(x: Num) {
    x.PosInf? || (x.Fin? && x.value > 0.0)
  }

  predicate IsZero(x: Num) {
    x == Fin(0.0)
  }

  /** The infinity whose sign is positive exactly when `positive` holds. */
  function Infinity(positive: bool): Num {
    if positive then PosInf else NegInf
  }

  /** `a + b`: infinities of opposite sign cancel to NaN. */
  function Add(a: Num, b: Num): Num {
    if a.NaN? || b.NaN? then NaN
    else if a.Fin? && b.Fin? then Fin(a.value + b.value)
    else if a.Fin? then b
    else if b.Fin? then a
    else if a == b then a
    else NaN
  }

  /** `a * b`: zero times an infinity is NaN. */
  function Mul(a: Num, b: Num): Num {
    if a.NaN? || b.NaN? then NaN
    else if a.Fin? && b.Fin? then Fin(a.value * b.value)
    else if IsZero(a) || IsZero(b) then NaN
    else Infinity(IsPositive(a) == IsPositive(b))
  }

  /** `a / b`: 0/0 and ∞/∞ are NaN, a non-zero value over zero is an infinity, a finite value over an infinity is zero. */
  function Div(a: Num, b: Num): Num {
    if a.NaN? || b.NaN? then NaN
    else if b.Fin? && b.value != 0.0 then
      if a.Fin? then Fin(a.value / b.value) else Infinity(IsPositive(a) == IsPositive(b))
    else if b.Fin? then
      if IsZero(a) then NaN else Infinity(IsPositive(a))
    else if a.Fin? then Fin(0.0)
    else NaN
  }

  /** `Math.max(a, b)`: NaN if either argument is NaN, otherwise the larger one. */
  function Max(a: Num, b: Num): Num {
    if a.NaN? || b.NaN? then NaN
    else if a.PosInf? || b.NegInf? then a
    else if b.PosInf? || a.NegInf? then b
    else if a.value >= b.value then a
    else b
  }

  /**
   * The host's square root on non-negative reals. Nothing is known of it
   * beyond what this type promises: a non-negative result, positive for a
   * positive argument.
   */
  type RootFunction = f: real -> real
    | forall v :: 0.0 <= v ==> 0.0 <= f(v) && (0.0 < v ==> 0.0 < f(v))
    witness (v: real) => if v < 0.0 then 0.0 else v

  /** `Math.sqrt` on finite arguments, left uninterpreted. */
  const HostSqrt: RootFunction

  /** The host square root is the exact one (used only as a hypothesis). */
  ghost predicate IsExactRoot(f: RootFunction) {
    forall v :: 0.0 <= v ==> f(v) * f(v) == v
  }

  /** `Math.sqrt`: NaN for NaN and for anything negative, +∞ for +∞. */
  function Sqrt(x: Num): Num {
    match x
    case NaN => NaN
    case NegInf => NaN
    case PosInf => PosInf
    case Fin(v) => if v < 0.0 then NaN else Fin(HostSqrt(v))
  }

  /** The reals strictly between 3.14159 and 3.1416, where π lies. */
  type PiEnclosure = x: real | 3.14159 < x < 3.1416 witness 3.141592653589793

  /** `Math.PI`, known here only to lie strictly between 3.14159 and 3.1416. */
  const Pi: PiEnclosure

  /** NaN in any operand makes every operation NaN. */
  lemma NaNAbsorbs(x: Num)
    ensures Add(NaN, x).NaN? && Add(x, NaN).NaN?
    ensures Mul(NaN, x).NaN? && Mul(x, NaN).NaN?
    ensures Div(NaN, x).NaN? && Div(x, NaN).NaN?
    ensures Max(NaN, x).NaN? && Max(x, NaN).NaN?
    ensures Sqrt(NaN).NaN?
  {
  }

  /** The IEEE 754 rules for zeros and infinities that the calculator meets. */
  lemma SpecialValueRules(x: Num)
    ensures Add(PosInf, NegInf).NaN? && Add(NegInf, PosInf).NaN?
    ensures Mul(Fin(0.0), PosInf).NaN? && Mul(NegInf, Fin(0.0)).NaN?
    ensures Div(Fin(0.0), Fin(0.0)).NaN? && Div(PosInf, NegInf).NaN?
    ensures IsFinite(x) && x.value > 0.0 ==> Div(x, Fin(0.0)) == PosInf
    ensures IsFinite(x) && x.value < 0.0 ==> Div(x, Fin(0.0)) == NegInf
    ensures IsFinite(x) ==> Div(x, PosInf) == Fin(0.0)
    ensures IsFinite(x) && x.value < 0.0 ==> Sqrt(x).NaN?
    ensures Sqrt(PosInf) == PosInf && Sqrt(NegInf).NaN?
    ensures !x.NaN? ==> Max(x, PosInf) == PosInf && Max(x, NegInf) == x
  {
  }

  lemma AddCommutes(a: Num, b: Num)
    ensures Add(a, b) == Add(b, a)
  {
  }

  lemma MaxCommutes(a: Num, b: Num)
    ensures Max(a, b) == Max(b, a)
  {
  }
}

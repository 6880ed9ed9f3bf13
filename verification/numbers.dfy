/** The two input checks of script.js, over JavaScript numbers.

    A form value reaches the checks as a JavaScript number, which is either a finite
    value or one of NaN, +Infinity and -Infinity. Finite values are modelled as exact
    reals; IEEE-754 rounding is not modelled. */
module Numbers {

  datatype Num = Finite(value: real) | NaN | PosInfinity | NegInfinity

  /** `Number.isFinite(x)` */
  predicate IsFinite(x: Num) {
    x.Finite?
  }

  /** `x > 0` under JavaScript's comparison: NaN compares false, +Infinity is
      greater than every finite number, -Infinity is not. */
  predicate GreaterThanZero(x: Num) {
    match x
    case Finite(v) => v > 0.0
    case PosInfinity => true
    case NaN => false
    case NegInfinity => false
  }

  /** `validInputs(...inputs)`: `inputs.every(Number.isFinite)`, scanning left to right. */
  function ValidInputs(inputs: seq<Num>): (r: bool)
    ensures r <==> forall i | 0 <= i < |inputs| :: inputs[i].Finite?
  {
    if |inputs| == 0 then true
    else IsFinite(inputs[0]) && ValidInputs(inputs[1..])
  }

  /** `allPositive(...inputs)`: `inputs.every(inp => inp > 0)`, scanning left to right. */
  function AllPositive(inputs: seq<Num>): (r: bool)
    ensures r <==> forall i | 0 <= i < |inputs| ::
                     inputs[i] == PosInfinity || (inputs[i].Finite? && inputs[i].value > 0.0)
  {
    if |inputs| == 0 then true
    else GreaterThanZero(inputs[0]) && AllPositive(inputs[1..])
  }

  /** A number the combined gate lets through. */
  predicate PositiveFinite(x: Num) {
    x.Finite? && x.value > 0.0
  }

  /** The combined gate `validInputs(...) && allPositive(...)` accepts exactly the
      inputs that are all finite and strictly positive: +Infinity passes the
      positivity check alone and is caught only by the finiteness check, and a zero
      passes the finiteness check alone and is caught only by the positivity check. */
  lemma GateIsFinitePositive(inputs: seq<Num>)
    ensures ValidInputs(inputs) && AllPositive(inputs)
        <==> forall i | 0 <= i < |inputs| :: PositiveFinite(inputs[i])
    ensures AllPositive([PosInfinity]) && !ValidInputs([PosInfinity])
    ensures ValidInputs([Finite(0.0)]) && !AllPositive([Finite(0.0)])
  {
  }

  /** The gate as `_newWorkout` uses it, on three numbers. */
  lemma GateOfThree(a: Num, b: Num, c: Num)
    ensures ValidInputs([a, b, c]) && AllPositive([a, b, c])
        <==> PositiveFinite(a) && PositiveFinite(b) && PositiveFinite(c)
  {
    var inputs := [a, b, c];
    GateIsFinitePositive(inputs);
    assert inputs[0] == a && inputs[1] == b && inputs[2] == c;
  }
}

/** The calculator engine: three operand registers, a memory register, one
    pending operation, two entry flags and a sticky return code.

    Values are `real`. The transcendental functions of the C library are not
    modelled; they are fields of a `MathLib` value that the engine is given. */
module NixieCalc {

  /** The result bound of the 14-digit calculator, and its negation. */
  const MaxCalcValue: real := 99999999999999.0
  const MinCalcValue: real := -99999999999999.0
  /** Factorial operands above this report overflow. */
  const MaxFact: int := 20
  /** The Arduino core's EULER and PI. */
  const EulerValue: real := 2.718281828459045235360287471352
  const PiValue: real := 3.1415926535897932384626433832795

  datatype Operation =
    | None | Addition | Subtraction | Division | Multiplication | SquareRoot
    | Percent | Equals | MemClear | MemRead | MemStore | MemSubtraction
    | MemAddition | AllClear | Clear | SwitchSign | Inv | Pow | Sin | Cos
    | Tan | Log | Ln | Factorial | Euler | Pi
  {
    /** The enumerator's uint8 value. */
    function Code(): nat
    {
      match this
      case None => 0 case Addition => 1 case Subtraction => 2 case Division => 3
      case Multiplication => 4 case SquareRoot => 5 case Percent => 6 case Equals => 7
      case MemClear => 8 case MemRead => 9 case MemStore => 10 case MemSubtraction => 11
      case MemAddition => 12 case AllClear => 13 case Clear => 14 case SwitchSign => 15
      case Inv => 16 case Pow => 17 case Sin => 18 case Cos => 19 case Tan => 20
      case Log => 21 case Ln => 22 case Factorial => 23 case Euler => 24 case Pi => 25
    }

    /** Operations taking a left and a right operand. */
    predicate IsDual() { Addition? || Subtraction? || Multiplication? || Division? || Pow? }

    /** Operations evaluated at once against the display value. */
    predicate IsSingle()
    {
      SquareRoot? || Inv? || Sin? || Cos? || Tan? || Log? || Ln? || SwitchSign? || Factorial?
    }

    predicate IsMemory() { MemClear? || MemRead? || MemStore? || MemSubtraction? || MemAddition? }

    predicate IsConstant() { Euler? || Pi? }

    predicate IsClear() { AllClear? || Clear? }
  }

  /** The enumerator with a given uint8 value. */
  function OperationOfCode(c: nat): (op: Operation)
    requires c < 26
    ensures op.Code() == c
  {
    [None, Addition, Subtraction, Division, Multiplication, SquareRoot, Percent, Equals,
     MemClear, MemRead, MemStore, MemSubtraction, MemAddition, AllClear, Clear, SwitchSign,
     Inv, Pow, Sin, Cos, Tan, Log, Ln, Factorial, Euler, Pi][c]
  }

  /** `operation` is a closed enumeration of 26 values numbered 0..25, and
      `none` (value 0) is the only "no pending operation" value. */
  lemma OperationIsClosedEnum(op: Operation)
    ensures op.Code() < 26 && OperationOfCode(op.Code()) == op
    ensures op.Code() == 0 <==> op == None
  {
  }

  datatype ReturnCode = Success | Overflow | DivideByZero | Domain | UnknownOperation
  {
    predicate IsError() { !Success? }
  }

  datatype AngleMode = Deg | Rad

  /** The C library's transcendental functions, left uninterpreted. */
  datatype MathLib = MathLib(
    sqrt: real -> real,
    pow: (real, real) -> real,
    sin: real -> real,
    cos: real -> real,
    tan: real -> real,
    log10: real -> real,
    ln: real -> real)

  /** What `calculateValue` returns: its return code and the value stored in `*result`. */
  datatype Outcome = Outcome(code: ReturnCode, value: real)

  function Ok(v: real): Outcome { Outcome(Success, v) }

  function Fail(c: ReturnCode): Outcome { Outcome(c, 0.0) }

  function Fact(n: nat): (r: real)
    ensures r >= 1.0
  {
    if n == 0 then 1.0 else Fact(n - 1) * (n as real)
  }

  predicate IsNatural(x: real) { x >= 0.0 && x.Floor as real == x }

  function ToRadians(x: real): real { x * PiValue / 180.0 }

  function Angle(x: real, mode: AngleMode): real
  {
    match mode
    case Deg => ToRadians(x)
    case Rad => x
  }

  /** The integer nearest to q, ties to even (the quotient rounding of IEEE `remainder`). */
  function RoundHalfEven(q: real): int
  {
    var f := q.Floor;
    var frac := q - f as real;
    if frac < 0.5 then f
    else if frac > 0.5 then f + 1
    else if f % 2 == 0 then f else f + 1
  }

  /** IEEE `remainder(x, y)`. */
  function Remainder(x: real, y: real): real
    requires y != 0.0
  {
    x - y * (RoundHalfEven(x / y) as real)
  }

  /** The degree-mode tangent asymptote test: |remainder(x, 360)| == 90. */
  predicate IsRightAngle(x: real)
  {
    var r := Remainder(x, 360.0);
    r == 90.0 || r == -90.0
  }

  /** `calculateValue` before its final overflow gate. Only the dual and
      single-value operations are known to it; division by zero is reported
      for a zero divisor and for the reciprocal of zero, and overflow only
      for a factorial beyond `MaxFact`. */
  function Compute(op: Operation, left: real, right: real, mode: AngleMode, m: MathLib): (r: Outcome)
    ensures r.code.IsError() ==> r.value == 0.0
    ensures r.code == UnknownOperation <==> !(op.IsDual() || op.IsSingle())
    ensures r.code == DivideByZero <==> (op == Division && right == 0.0) || (op == Inv && left == 0.0)
    ensures r.code == Overflow <==> op == Factorial && left > MaxFact as real
    ensures r.code == Domain <==>
      (op == SquareRoot && left < 0.0) ||
      ((op == Log || op == Ln) && left <= 0.0) ||
      (op == Tan && (if mode == Deg then IsRightAngle(left) else m.cos(left) == 0.0)) ||
      (op == Factorial && left <= MaxFact as real && !IsNatural(left))
  {
    match op
    case Addition => Ok(left + right)
    case Subtraction => Ok(left - right)
    case Multiplication => Ok(left * right)
    case Division => if right != 0.0 then Ok(left / right) else Fail(DivideByZero)
    case SquareRoot => if left >= 0.0 then Ok(m.sqrt(left)) else Fail(Domain)
    case Pow => Ok(m.pow(left, right))
    case Inv => if left != 0.0 then Ok(1.0 / left) else Fail(DivideByZero)
    case Sin => Ok(m.sin(Angle(left, mode)))
    case Cos => Ok(m.cos(Angle(left, mode)))
    case Tan =>
      (match mode
       case Deg => if IsRightAngle(left) then Fail(Domain) else Ok(m.tan(ToRadians(left)))
       case Rad => if m.cos(left) != 0.0 then Ok(m.tan(left)) else Fail(Domain))
    case Log => if left > 0.0 then Ok(m.log10(left)) else Fail(Domain)
    case Ln => if left > 0.0 then Ok(m.ln(left)) else Fail(Domain)
    case SwitchSign => Ok(left * -1.0)
    case Factorial =>
      if left > MaxFact as real then Fail(Overflow)
      else if IsNatural(left) then Ok(Fact(left.Floor))
      else Fail(Domain)
    case _ => Fail(UnknownOperation)
  }

  /** `calculateValue`: any error yields 0, and a successful result lies within
      the symmetric bound (a result outside it is reported as overflow). */
  function Evaluate(op: Operation, left: real, right: real, mode: AngleMode, m: MathLib): (r: Outcome)
    ensures r.code.IsError() ==> r.value == 0.0
    ensures r.code == Success ==> MinCalcValue <= r.value <= MaxCalcValue
    ensures r.code == Success <==>
      Compute(op, left, right, mode, m).code == Success &&
      MinCalcValue <= Compute(op, left, right, mode, m).value <= MaxCalcValue
  {
    var c := Compute(op, left, right, mode, m);
    if c.code == Success && (c.value > MaxCalcValue || c.value < MinCalcValue) then Fail(Overflow)
    else c
  }

  /** The engine's registers, flags and modes. */
  datatype EngineState = EngineState(
    display: real,
    left: real,
    right: real,
    memory: real,
    code: ReturnCode,
    angleMode: AngleMode,
    numberEntered: bool,
    equalsEntered: bool,
    op: Operation)

  /** `onAllClear`: everything but memory and angle mode back to its initial value. */
  function AllClearState(s: EngineState): EngineState
  {
    s.(display := 0.0, left := 0.0, right := 0.0, code := Success, op := None,
       numberEntered := false, equalsEntered := false)
  }

  /** `onNumericInput`: without an error, the value is displayed as a
      number being entered; a number typed after `=` starts a new
      calculation. Memory, angle mode and return code are untouched. */
  function NumericInput(s: EngineState, value: real): (r: EngineState)
    ensures s.code.IsError() ==> r == s
    ensures !s.code.IsError() ==> r.display == value && r.numberEntered && !r.equalsEntered
    ensures !s.code.IsError() && s.equalsEntered ==> r.op == None && r.left == 0.0 && r.right == 0.0
    ensures !s.code.IsError() && !s.equalsEntered ==> r.op == s.op && r.left == s.left && r.right == s.right
    ensures r.code == s.code && r.memory == s.memory && r.angleMode == s.angleMode
  {
    if s.code.IsError() then s
    else
      var t := if s.equalsEntered
                   then s.(equalsEntered := false, op := None, left := 0.0, right := 0.0)
                   else s;
      t.(display := value, numberEntered := true)
  }

  /** `onDualValueOperation`: the new operation becomes the pending one and
      both entry flags are cleared. Only a number entered against a pending
      operation computes, and then the result is displayed and becomes the
      left operand. */
  function DualValue(s: EngineState, op: Operation, m: MathLib): (r: EngineState)
    ensures r.op == op && !r.numberEntered && !r.equalsEntered
    ensures r.memory == s.memory && r.angleMode == s.angleMode && r.right == s.right
    ensures !(s.op != None && s.numberEntered) ==> r.code == s.code && r.display == s.display
    ensures s.op != None && s.numberEntered ==>
              r.code == Evaluate(s.op, s.left, s.display, s.angleMode, m).code && r.left == r.display
  {
    var t :=
      if s.op == None then s.(left := s.display, op := op)
      else if !s.numberEntered then s.(left := if s.equalsEntered then s.display else s.left, op := op)
      else
        var r := Evaluate(s.op, s.left, s.display, s.angleMode, m);
        s.(code := r.code, display := r.value, left := r.value, op := op);
    t.(numberEntered := false, equalsEntered := false)
  }

  /** `onSingleValueOperation`: the right operand defaults to 0. */
  function SingleValue(s: EngineState, op: Operation, m: MathLib): EngineState
  {
    var r := Evaluate(op, s.display, 0.0, s.angleMode, m);
    if s.op == None then s.(code := r.code, left := r.value, display := r.value)
    else s.(code := r.code, display := r.value)
  }

  /** `onEqualsOperation`. */
  function EqualsOp(s: EngineState, m: MathLib): EngineState
  {
    if s.op == None then s
    else if !s.equalsEntered then
      var r := Evaluate(s.op, s.left, s.display, s.angleMode, m);
      s.(code := r.code, equalsEntered := true, right := s.display, display := r.value,
         numberEntered := false)
    else
      var r := Evaluate(s.op, s.display, s.right, s.angleMode, m);
      s.(code := r.code, left := s.display, display := r.value, numberEntered := false)
  }

  /** `onMemoryOperation`. */
  function MemoryOp(s: EngineState, op: Operation): EngineState
  {
    match op
    case MemClear => s.(memory := 0.0)
    case MemRead => NumericInput(s, s.memory)
    case MemStore => s.(memory := s.display)
    case MemAddition => s.(memory := s.memory + s.display)
    case MemSubtraction => s.(memory := s.memory - s.display)
    case _ => s
  }

  /** `onConstantOperation`. */
  function ConstantOp(s: EngineState, op: Operation): EngineState
  {
    match op
    case Euler => NumericInput(s, EulerValue)
    case Pi => NumericInput(s, PiValue)
    case _ => s
  }

  /** `onClearOperation`. */
  function ClearOp(s: EngineState, op: Operation): EngineState
  {
    match op
    case AllClear => AllClearState(s)
    case Clear => s.(display := 0.0)
    case _ => s
  }

  /** `onPercentOperation`. */
  function PercentOp(s: EngineState): EngineState
  {
    if s.op == None || s.equalsEntered then
      var d := s.display / 100.0;
      s.(display := d, left := d, numberEntered := false)
    else
      match s.op
      case Addition => s.(display := s.left * s.display / 100.0)
      case Subtraction => s.(display := s.left * s.display / 100.0)
      case Multiplication => s.(display := s.display / 100.0)
      case Division => s.(display := s.display / 100.0)
      case _ => s
  }

  /** `onOperation`: an operation is accepted only without a previous error,
      except all-clear, which is always accepted. */
  function Operate(s: EngineState, op: Operation, m: MathLib): (r: EngineState)
    ensures r.angleMode == s.angleMode
    ensures r.memory != s.memory ==> s.code == Success && op.IsMemory()
    ensures op == AllClear ==> r.code == Success && r.op == None && r.display == 0.0 && r.memory == s.memory
    ensures s.code.IsError() && op != AllClear ==> r == s
  {
    if s.code == Success then
      if op.IsDual() then DualValue(s, op, m)
      else if op.IsSingle() then SingleValue(s, op, m)
      else if op.IsMemory() then MemoryOp(s, op)
      else if op.IsConstant() then ConstantOp(s, op)
      else if op.IsClear() then ClearOp(s, op)
      else if op == Percent then PercentOp(s)
      else if op == Equals then EqualsOp(s, m)
      else s
    else if op == AllClear then ClearOp(s, op)
    else s
  }

  /** One input to the engine: a numeric value or an operation. */
  datatype Event = Number(value: real) | Press(op: Operation)

  function Apply(s: EngineState, e: Event, m: MathLib): EngineState
  {
    match e
    case Number(v) => NumericInput(s, v)
    case Press(op) => Operate(s, op, m)
  }

  function Run(s: EngineState, es: seq<Event>, m: MathLib): EngineState
    decreases |es|
  {
    if es == [] then s else Run(Apply(s, es[0], m), es[1..], m)
  }

  // ---------------------------------------------------------------------------
  // Properties of the engine's transitions

  /** Sticky error: while the return code is an error, numeric input and every
      operation but all-clear change nothing. */
  lemma ErrorIgnoresInput(s: EngineState, op: Operation, v: real, m: MathLib)
    requires s.code.IsError()
    ensures NumericInput(s, v) == s
    ensures op != AllClear ==> Operate(s, op, m) == s
  {
  }

  /** The same, for any sequence of inputs that holds no all-clear. */
  lemma {:induction false} ErrorIsSticky(s: EngineState, es: seq<Event>, m: MathLib)
    requires s.code.IsError()
    requires forall i :: 0 <= i < |es| ==> es[i] != Press(AllClear)
    ensures Run(s, es, m) == s
  {
    if es != [] {
      assert Apply(s, es[0], m) == s;
      ErrorIsSticky(s, es[1..], m);
    }
  }

  /** All-clear, in any state, zeroes display, left and right, clears the error,
      the pending operation and both flags, and keeps memory and angle mode. */
  lemma AllClearRecovers(s: EngineState, m: MathLib)
    ensures var t := Operate(s, AllClear, m);
      t.display == 0.0 && t.left == 0.0 && t.right == 0.0 && t.code == Success &&
      t.op == None && !t.numberEntered && !t.equalsEntered &&
      t.memory == s.memory && t.angleMode == s.angleMode
  {
  }

  /** Memory is a register of its own: only the memory operations write it, and
      no error, clear or all-clear touches it. */
  lemma MemoryOnlyChangedByMemoryOps(s: EngineState, op: Operation, m: MathLib)
    requires op != MemClear && op != MemStore && op != MemAddition && op != MemSubtraction
    ensures Operate(s, op, m).memory == s.memory
  {
  }

  /** Memory read behaves exactly like entering the memory value. */
  lemma MemReadIsNumericInput(s: EngineState, m: MathLib)
    requires s.code == Success
    ensures Operate(s, MemRead, m) == NumericInput(s, s.memory)
  {
  }

  /** A binary operation straight after a typed number, with one pending,
      evaluates (left, display) into both display and left. */
  lemma DualEvaluatesPending(s: EngineState, op: Operation, m: MathLib)
    requires s.code == Success && s.op != None && s.numberEntered && op.IsDual()
    ensures var t := Operate(s, op, m);
      var r := Evaluate(s.op, s.left, s.display, s.angleMode, m);
      t.display == r.value && t.left == r.value && t.code == r.code &&
      t.op == op && !t.numberEntered && !t.equalsEntered
  {
  }

  /** Without a new number, a binary operation only replaces the pending one. */
  lemma DualReplacesOperator(s: EngineState, op: Operation, m: MathLib)
    requires s.code == Success && s.op != None && !s.numberEntered && op.IsDual()
    ensures var t := Operate(s, op, m);
      t.op == op && t.display == s.display && t.code == Success &&
      t.left == (if s.equalsEntered then s.display else s.left)
  {
  }

  /** Typing x, a binary operation, y and then equals twice: the first equals
      evaluates (x, y), the second replays y against the running result. */
  lemma {:induction false} RepeatedEquals(s: EngineState, x: real, op: Operation, y: real, m: MathLib)
    requires s.code == Success && s.op == None && op.IsDual()
    ensures var s1 := Run(s, [Number(x), Press(op), Number(y), Press(Equals)], m);
      var r1 := Evaluate(op, x, y, s.angleMode, m);
      s1.display == r1.value && s1.code == r1.code && s1.right == y &&
      (r1.code == Success ==>
        var s2 := Operate(s1, Equals, m);
        var r2 := Evaluate(op, r1.value, y, s.angleMode, m);
        s2.display == r2.value && s2.left == r1.value && s2.right == y && s2.code == r2.code)
  {
    var a := Apply(s, Number(x), m);
    var b := Apply(a, Press(op), m);
    var c := Apply(b, Number(y), m);
    var d := Apply(c, Press(Equals), m);
    assert b.op == op && b.left == x && !b.equalsEntered;
    assert c.display == y && c.numberEntered;
    assert Run(d, [], m) == d;
    assert Run(c, [Press(Equals)], m) == d;
    assert Run(b, [Number(y), Press(Equals)], m) == d;
    assert Run(a, [Press(op), Number(y), Press(Equals)], m) == d;
  }

  /** `5 + 3 = = =` shows 8, 11 and 14. */
  lemma FivePlusThreeEqualsEqualsEquals(m: MathLib, mode: AngleMode)
    ensures var s0 := AllClearState(EngineState(0.0, 0.0, 0.0, 0.0, Success, mode, false, false, None));
      var s1 := Operate(NumericInput(Operate(NumericInput(s0, 5.0), Addition, m), 3.0), Equals, m);
      var s2 := Operate(s1, Equals, m);
      var s3 := Operate(s2, Equals, m);
      s1.display == 8.0 && s2.display == 11.0 && s3.display == 14.0 && s3.code == Success
  {
  }

  /** `7 / 0 =` reports division by zero and forces the display to 0. */
  lemma DivideByZeroExample(s: EngineState, m: MathLib)
    requires s.code == Success && s.op == None
    ensures var t := Operate(NumericInput(Operate(NumericInput(s, 7.0), Division, m), 0.0), Equals, m);
      t.code == DivideByZero && t.display == 0.0
  {
  }

  /** Percent with no pending operation, or just after equals, divides the
      display by 100 and makes it the new left operand. */
  lemma PercentWithoutPending(s: EngineState, m: MathLib)
    requires s.code == Success && (s.op == None || s.equalsEntered)
    ensures var t := Operate(s, Percent, m);
      t.display == s.display / 100.0 && t.left == t.display && !t.numberEntered && t.op == s.op
  {
  }

  /** Percent after + or - takes the percentage of the left operand; after * or /
      it is a plain division by 100; after pow it changes nothing. */
  lemma PercentAfterOperator(s: EngineState, m: MathLib)
    requires s.code == Success && s.op != None && !s.equalsEntered
    ensures var t := Operate(s, Percent, m);
      (s.op == Addition || s.op == Subtraction ==> t == s.(display := s.left * s.display / 100.0)) &&
      (s.op == Multiplication || s.op == Division ==> t == s.(display := s.display / 100.0)) &&
      (s.op == Pow ==> t == s)
  {
  }

  /** `100 + 10 %` shows 10; `100 * 10 %` shows 0.1 and the following equals 10;
      a bare `50 %` shows 0.5. */
  lemma PercentExamples(s: EngineState, m: MathLib)
    requires s.code == Success && s.op == None
    ensures Operate(NumericInput(Operate(NumericInput(s, 100.0), Addition, m), 10.0), Percent, m).display == 10.0
    ensures var t := Operate(NumericInput(Operate(NumericInput(s, 100.0), Multiplication, m), 10.0), Percent, m);
      t.display == 0.1 && Operate(t, Equals, m).display == 10.0
    ensures Operate(NumericInput(s, 50.0), Percent, m).display == 0.5
  {
  }

  lemma {:induction false} FactMonotone(a: nat, b: nat)
    requires a <= b
    ensures Fact(a) <= Fact(b)
    decreases b
  {
    if a < b {
      FactMonotone(a, b - 1);
      assert Fact(b) == Fact(b - 1) * (b as real);
      assert Fact(b - 1) * (b as real) >= Fact(b - 1) * 1.0;
    }
  }

  /** Factorial succeeds exactly for the naturals 0..16: 17! already exceeds the
      result bound, although the operand ceiling is 20. */
  lemma FactorialSucceedsExactly(x: real, mode: AngleMode, m: MathLib)
    ensures Evaluate(Factorial, x, 0.0, mode, m).code == Success <==> IsNatural(x) && x <= 16.0
    ensures x > 20.0 ==> Evaluate(Factorial, x, 0.0, mode, m).code == Overflow
    ensures x <= 20.0 && !IsNatural(x) ==> Evaluate(Factorial, x, 0.0, mode, m).code == Domain
  {
    FactAtBound();
    var c := Compute(Factorial, x, 0.0, mode, m);
    if x > MaxFact as real {
      assert c.code == Overflow;
    } else if IsNatural(x) {
      var n := x.Floor;
      assert c == Ok(Fact(n));
      if n <= 16 { FactMonotone(n, 16); } else { FactMonotone(17, n); }
    } else {
      assert c.code == Domain;
    }
  }

  /** 16! lies within the result bound and 17! beyond it. */
  lemma FactAtBound()
    ensures Fact(16) == 20922789888000.0 <= MaxCalcValue
    ensures Fact(17) == 355687428096000.0 > MaxCalcValue
  {
    assert Fact(2) == 2.0;
    assert Fact(4) == 24.0;
    assert Fact(6) == 720.0;
    assert Fact(8) == 40320.0;
    assert Fact(10) == 3628800.0;
    assert Fact(12) == 479001600.0;
    assert Fact(14) == 87178291200.0;
    assert Fact(16) == 20922789888000.0;
  }

  /** The engine object. */
  class NixieCalc {
    var displayValue: real
    var leftValue: real
    var rightValue: real
    var memoryValue: real
    var operationReturnCode: ReturnCode
    var angleMode: AngleMode
    var numberEntered: bool
    var equalsEntered: bool
    var operation: Operation
    const math: MathLib

    function State(): EngineState
      reads this
    {
      EngineState(displayValue, leftValue, rightValue, memoryValue, operationReturnCode,
                  angleMode, numberEntered, equalsEntered, operation)
    }

    /** The memory register is left as the platform initialises it. */
    constructor (math: MathLib)
      ensures this.math == math && angleMode == Deg
      ensures State() == AllClearState(State())
    {
      this.math := math;
      angleMode := Deg;
      leftValue, rightValue, displayValue := 0.0, 0.0, 0.0;
      operationReturnCode := Success;
      operation := None;
      numberEntered, equalsEntered := false, false;
    }

    method SetAngleMode(mode: AngleMode)
      modifies this
      ensures State() == old(State()).(angleMode := mode)
    {
      angleMode := mode;
    }

    method OnNumericInput(value: real)
      modifies this
      ensures State() == NumericInput(old(State()), value)
    {
      if operationReturnCode == Success {
        if equalsEntered {
          equalsEntered := false;
          operation := None;
          leftValue := 0.0;
          rightValue := 0.0;
        }
        displayValue := value;
        numberEntered := true;
      }
    }

    /** `onOperation`: the switch's case groups are the operation groups of
        `Operation`, each handed to its own handler. */
    method OnOperation(op: Operation)
      modifies this
      ensures State() == Operate(old(State()), op, math)
    {
      if operationReturnCode == Success {
        if op.IsDual() {
          OnDualValueOperation(op);
        } else if op.IsSingle() {
          OnSingleValueOperation(op);
        } else if op.IsMemory() {
          OnMemoryOperation(op);
        } else if op.IsConstant() {
          OnConstantOperation(op);
        } else if op.IsClear() {
          OnClearOperation(op);
        } else if op == Percent {
          OnPercentOperation();
        } else if op == Equals {
          OnEqualsOperation();
        }
      } else if op == AllClear {
        OnClearOperation(op);
      }
    }

    method OnDualValueOperation(op: Operation)
      modifies this
      ensures State() == DualValue(old(State()), op, math)
    {
      ghost var s := State();
      if operation == None {
        leftValue := displayValue;
        operation := op;
      } else if !numberEntered {
        if equalsEntered {
          leftValue := displayValue;
        }
        operation := op;
      } else {
        var code, result := CalculateValue(operation, leftValue, displayValue);
        ghost var r := Evaluate(s.op, s.left, s.display, s.angleMode, math);
        assert code == r.code && result == r.value;
        operationReturnCode := code;
        displayValue := result;
        leftValue := result;
        operation := op;
      }
      numberEntered := false;
      equalsEntered := false;
    }

    method OnSingleValueOperation(op: Operation)
      modifies this
      ensures State() == SingleValue(old(State()), op, math)
    {
      var code, result := CalculateValue(op, displayValue, 0.0);
      operationReturnCode := code;
      if operation == None {
        leftValue := result;
      }
      displayValue := result;
    }

    method OnEqualsOperation()
      modifies this
      ensures State() == EqualsOp(old(State()), math)
    {
      ghost var s := State();
      if operation != None {
        if !equalsEntered {
          var code, result := CalculateValue(operation, leftValue, displayValue);
          ghost var r := Evaluate(s.op, s.left, s.display, s.angleMode, math);
          assert code == r.code && result == r.value;
          operationReturnCode := code;
          equalsEntered := true;
          rightValue := displayValue;
          displayValue := result;
        } else {
          var code, result := CalculateValue(operation, displayValue, rightValue);
          ghost var r := Evaluate(s.op, s.display, s.right, s.angleMode, math);
          assert code == r.code && result == r.value;
          operationReturnCode := code;
          leftValue := displayValue;
          displayValue := result;
        }
        numberEntered := false;
      }
    }

    method OnMemoryOperation(op: Operation)
      modifies this
      ensures State() == MemoryOp(old(State()), op)
    {
      match op {
        case MemClear => memoryValue := 0.0;
        case MemRead => OnNumericInput(memoryValue);
        case MemStore => memoryValue := displayValue;
        case MemAddition => memoryValue := memoryValue + displayValue;
        case MemSubtraction => memoryValue := memoryValue - displayValue;
        case _ =>
      }
    }

    method OnConstantOperation(op: Operation)
      modifies this
      ensures State() == ConstantOp(old(State()), op)
    {
      match op {
        case Euler => OnNumericInput(EulerValue);
        case Pi => OnNumericInput(PiValue);
        case _ =>
      }
    }

    method OnClearOperation(op: Operation)
      modifies this
      ensures State() == ClearOp(old(State()), op)
    {
      match op {
        case AllClear => OnAllClear();
        case Clear => displayValue := 0.0;
        case _ =>
      }
    }

    method OnPercentOperation()
      modifies this
      ensures State() == PercentOp(old(State()))
    {
      if operation == None || equalsEntered {
        displayValue := displayValue / 100.0;
        leftValue := displayValue;
        numberEntered := false;
      } else {
        match operation {
          case Addition => displayValue := leftValue * displayValue / 100.0;
          case Subtraction => displayValue := leftValue * displayValue / 100.0;
          case Multiplication => displayValue := displayValue / 100.0;
          case Division => displayValue := displayValue / 100.0;
          case _ =>
        }
      }
    }

    method OnAllClear()
      modifies this
      ensures State() == AllClearState(old(State()))
    {
      leftValue := 0.0;
      rightValue := 0.0;
      displayValue := 0.0;
      operationReturnCode := Success;
      operation := None;
      numberEntered := false;
      equalsEntered := false;
    }

    /** The factorial loop of `calculateValue`: the product 1 * 2 * .. * n. */
    static method FactorialLoop(n: real) returns (result: real)
      requires n >= 0.0
      ensures result == Fact(n.Floor)
    {
      result := 1.0;
      var i := 1;
      while i as real <= n
        invariant 1 <= i <= n.Floor + 1
        invariant result == Fact(i - 1)
      {
        result := result * (i as real);
        i := i + 1;
      }
    }

    /** The tangent case of `calculateValue`: in degrees the asymptotes are
        found by the remainder test, in radians by a zero cosine. */
    method TanValue(left: real, right: real) returns (code: ReturnCode, result: real)
      ensures Outcome(code, if code == Success then result else 0.0) == Compute(Tan, left, right, angleMode, math)
    {
      code := Success;
      result := 0.0;
      match angleMode {
        case Deg =>
          if IsRightAngle(left) { code := Domain; } else { result := math.tan(ToRadians(left)); }
        case Rad =>
          if math.cos(left) != 0.0 { result := math.tan(left); } else { code := Domain; }
      }
    }

    /** The factorial case of `calculateValue`. */
    method FactorialValue(left: real, right: real) returns (code: ReturnCode, result: real)
      ensures Outcome(code, if code == Success then result else 0.0) == Compute(Factorial, left, right, angleMode, math)
    {
      code := Success;
      result := 0.0;
      if left > MaxFact as real {
        code := Overflow;
      } else {
        var absolute := if left < 0.0 then -left else left;
        if absolute.Floor as real == absolute && left >= 0.0 {
          result := FactorialLoop(absolute);
        } else {
          code := Domain;
        }
      }
    }

    /** `calculateValue`; it reads only the angle mode. */
    method CalculateValue(op: Operation, left: real, right: real) returns (code: ReturnCode, result: real)
      ensures Outcome(code, result) == Evaluate(op, left, right, angleMode, math)
    {
      code, result := OperationValue(op, left, right);
      if code == Success {
        if result > MaxCalcValue || result < MinCalcValue {
          code := Overflow;
        }
      }
      if code != Success {
        result := 0.0;
      }
    }

    /** The `switch` of `calculateValue`, before the overflow gate. */
    method OperationValue(op: Operation, left: real, right: real) returns (code: ReturnCode, result: real)
      ensures Outcome(code, if code == Success then result else 0.0) == Compute(op, left, right, angleMode, math)
    {
      code := Success;
      result := 0.0;
      match op {
        case Addition => result := left + right;
        case Subtraction => result := left - right;
        case Multiplication => result := left * right;
        case Division =>
          if right != 0.0 { result := left / right; } else { code := DivideByZero; }
        case SquareRoot =>
          if left >= 0.0 { result := math.sqrt(left); } else { code := Domain; }
        case Pow => result := math.pow(left, right);
        case Inv =>
          if left != 0.0 { result := 1.0 / left; } else { code := DivideByZero; }
        case Sin => result := math.sin(Angle(left, angleMode));
        case Cos => result := math.cos(Angle(left, angleMode));
        case Tan =>
          code, result := TanValue(left, right);
        case Log =>
          if left > 0.0 { result := math.log10(left); } else { code := Domain; }
        case Ln =>
          if left > 0.0 { result := math.ln(left); } else { code := Domain; }
        case SwitchSign => result := left * -1.0;
        case Factorial =>
          code, result := FactorialValue(left, right);
        case _ => code := UnknownOperation;
      }
    }
  }
}

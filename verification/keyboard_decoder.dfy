/** The stateless key decoder: a key code and the function-key latch become a
    kind of key, an engine operation and a digit. */
module KeyboardDecoder {
  import opened ArduinoTypes
  import opened KeyboardHandler
  import NC = NixieCalc

  datatype KeyFunctionType = Unknown | Numeric | NumericX2 | Dp | Operation | Function

  /** The three out-parameters of `decode`. */
  datatype Decoded = Decoded(kind: KeyFunctionType, op: NC.Operation, digit: uint8)

  /** `-1` stored in a `uint8_t`. */
  const NoDigit: uint8 := 255

  /** What every call starts from, and what an unmapped key returns. */
  const Undecoded: Decoded := Decoded(Unknown, NC.None, NoDigit)

  function Digit(d: uint8): Decoded { Decoded(Numeric, NC.None, d) }

  function Op(op: NC.Operation): Decoded { Decoded(Operation, op, NoDigit) }

  /** `decode`: the function key selects one of two key maps; the result is never
      `function`, and an unmapped code leaves the three defaults in place. */
  function Decode(keyCode: uint8, functionKeyPressed: bool): (r: Decoded)
    ensures r.kind != Function
    ensures r.kind == Unknown ==> r == Undecoded
    ensures r.kind == Operation ==> r.op != NC.None && r.digit == NoDigit
  {
    if !functionKeyPressed then DecodePlain(keyCode) else DecodeShifted(keyCode)
  }

  /** The key map without the function key. */
  function DecodePlain(keyCode: uint8): (r: Decoded)
    ensures r.kind != Function
    ensures r.kind == Unknown ==> r == Undecoded
    ensures r.kind == Numeric ==> r.op == NC.None && r.digit < 10 && DigitKeys[r.digit] == keyCode
    ensures r.kind == Operation ==> r.op != NC.None && r.digit == NoDigit
  {
    if keyCode == Key0 then Digit(0)
    else if keyCode == Key1 then Digit(1)
    else if keyCode == Key2 then Digit(2)
    else if keyCode == Key3 then Digit(3)
    else if keyCode == Key4 then Digit(4)
    else if keyCode == Key5 then Digit(5)
    else if keyCode == Key6 then Digit(6)
    else if keyCode == Key7 then Digit(7)
    else if keyCode == Key8 then Digit(8)
    else if keyCode == Key9 then Digit(9)
    else if keyCode == Key00 then Decoded(NumericX2, NC.None, 0)
    else if keyCode == KeyDot then Undecoded.(kind := Dp)
    else if keyCode == KeyAC then Op(NC.AllClear)
    else if keyCode == KeyC then Op(NC.Clear)
    else if keyCode == KeyPlusMinus then Op(NC.SwitchSign)
    else if keyCode == KeyPlus then Op(NC.Addition)
    else if keyCode == KeyMinus then Op(NC.Subtraction)
    else if keyCode == KeyEquals then Op(NC.Equals)
    else if keyCode == KeyDiv then Op(NC.Division)
    else if keyCode == KeyMul then Op(NC.Multiplication)
    else if keyCode == KeyPercent then Op(NC.Percent)
    else if keyCode == KeySquareRoot then Op(NC.SquareRoot)
    else if keyCode == KeyMC then Op(NC.MemClear)
    else if keyCode == KeyMR then Op(NC.MemRead)
    else if keyCode == KeyMS then Op(NC.MemStore)
    else if keyCode == KeyMMinus then Op(NC.MemSubtraction)
    else if keyCode == KeyMPlus then Op(NC.MemAddition)
    else if keyCode == KeyInv then Op(NC.Inv)
    else if keyCode == KeyPow then Op(NC.Pow)
    else if keyCode == KeySin then Op(NC.Sin)
    else if keyCode == KeyCos then Op(NC.Cos)
    else if keyCode == KeyTan then Op(NC.Tan)
    else if keyCode == KeyLog then Op(NC.Log)
    else if keyCode == KeyLn then Op(NC.Ln)
    else Undecoded
  }

  /** The key map with the function key held. */
  function DecodeShifted(keyCode: uint8): (r: Decoded)
    ensures r.kind == Operation || r == Undecoded
    ensures r.kind == Operation <==> keyCode == KeyInv || keyCode == KeyLn || keyCode == KeySin
  {
    if keyCode == KeyInv then Op(NC.Factorial)
    else if keyCode == KeyLn then Op(NC.Euler)
    else if keyCode == KeySin then Op(NC.Pi)
    else Undecoded
  }

  /** Without the function key the digit keys, and only they, decode to their
      digit. */
  lemma PlainDigits(keyCode: uint8)
    ensures Decode(keyCode, false).kind == Numeric <==> keyCode in DigitKeys
    ensures forall d :: 0 <= d < 10 ==> Decode(DigitKeys[d], false) == Digit(d as uint8)
  {
    forall d | 0 <= d < 10
      ensures Decode(DigitKeys[d], false) == Digit(d as uint8)
    {
      DigitKeysAreDistinct();
    }
    if keyCode in DigitKeys {
      var d :| 0 <= d < 10 && DigitKeys[d] == keyCode;
      assert Decode(DigitKeys[d], false).kind == Numeric;
    }
  }

  /** Without the function key KEY_00, and only it, is a double zero, and
      KEY_DOT, and only it, the decimal point. */
  lemma PlainLayer(keyCode: uint8)
    ensures var r := Decode(keyCode, false);
      (r.kind == NumericX2 <==> keyCode == Key00) &&
      (r.kind == Dp <==> keyCode == KeyDot)
    ensures Decode(Key00, false) == Decoded(NumericX2, NC.None, 0)
    ensures Decode(KeyDot, false) == Decoded(Dp, NC.None, NoDigit)
  {
  }

  /** Without the function key every key of the keyboard but the function
      key itself is mapped; all other codes are unknown. */
  lemma PlainUnknown(keyCode: uint8)
    ensures Decode(keyCode, false).kind == Unknown <==> !(keyCode in KeyCodes) || keyCode == KeyFunction
  {
    KeyCodesAreTheMatrix();
    assert keyCode in KeyCodes <==> 1 <= keyCode <= 35;
  }

  /** With the function key, exactly INV, LN and SIN are mapped, to factorial,
      euler and pi; the digit keys decode to unknown. */
  lemma FunctionLayer(keyCode: uint8)
    ensures Decode(KeyInv, true).op == NC.Factorial
    ensures Decode(KeyLn, true).op == NC.Euler
    ensures Decode(KeySin, true).op == NC.Pi
    ensures keyCode in DigitKeys ==> Decode(keyCode, true) == Undecoded
  {
  }

  /** The operations reached only through the function key are never produced
      without it. */
  lemma FunctionOnlyOperations(keyCode: uint8)
    ensures Decode(keyCode, false).op != NC.Factorial
    ensures Decode(keyCode, false).op != NC.Euler
    ensures Decode(keyCode, false).op != NC.Pi
  {
  }
}

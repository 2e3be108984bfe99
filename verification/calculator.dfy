/** Calculator mode: the string buffer in which a number is typed, the routing
    of keys and operations into the engine, and the rendering of the engine's
    value back into a string of at most `digitCount` digits.

    `sprintf("%-.*f")` and `String::toDouble` are C library routines; they are
    the fields of a `NumberFormat` value the calculator is given. */
module Calculator {
  import opened ArduinoTypes
  import opened KeyboardHandler
  import NC = NixieCalc
  import KD = KeyboardDecoder

  datatype NumberFormat = NumberFormat(
    /** `sprintf(buffer, "%-.*f", decimals, value)` */
    format: (int, real) -> string,
    /** `String::toDouble` */
    parse: string -> real)

  /** `String::indexOf(c)`: the first position of c, or -1. */
  function IndexOf(s: string, c: char): (i: int)
    ensures -1 <= i < |s|
    ensures i == -1 <==> c !in s
    ensures i >= 0 ==> s[i] == c && c !in s[..i]
  {
    if s == [] then -1
    else if s[0] == c then 0
    else
      var j := IndexOf(s[1..], c);
      assert s[1..][..j + 1] == s[1..j + 2] by { }
      if j == -1 then -1 else j + 1
  }

  /** `getUsedDigits`: the length less one for a '-' and one for a '.', in
      `uint8_t`; the count is exact for strings shorter than 256. */
  function UsedDigits(s: string): (r: uint8)
    ensures |s| < Two8 ==> r == |s| - (if '-' in s then 1 else 0) - (if '.' in s then 1 else 0)
  {
    var result := ToUint8(|s|);
    var result := if '-' in s then ToUint8(result - 1) else result;
    if '.' in s then ToUint8(result - 1) else result
  }

  /** `(char)(digit + 48)` */
  function DigitChar(digit: uint8): char
    requires digit < 10
  {
    (digit + 48) as char
  }

  predicate IsDigitChar(c: char) { '0' <= c <= '9' }

  /** `digitCount` dots: what the display shows while the engine is in error. */
  function Dots(n: nat): (s: string)
    ensures |s| == n && forall i :: 0 <= i < n ==> s[i] == '.'
  {
    seq(n, _ => '.')
  }

  // ---------------------------------------------------------------------------
  // Stripping and rendering

  /** The formatted string without its trailing zeros; the '.' stops the removal. */
  function TrimZeros(s: string): (t: string)
    requires '.' in s
    ensures '.' in t && |t| <= |s|
    decreases |s|
  {
    if s[|s| - 1] == '0' then
      assert '.' in s[..|s| - 1] by {
        var k :| 0 <= k < |s| && s[k] == '.';
        assert s[..|s| - 1][k] == '.';
      }
      TrimZeros(s[..|s| - 1])
    else s
  }

  /** The string `doubleToString` returns for a formatted string that holds a '.'. */
  function Stripped(s: string): string
    requires '.' in s
  {
    var t := TrimZeros(s);
    if t[|t| - 1] == '.' then t[..|t| - 1] else t
  }

  /** TrimZeros removes a run of '0' and nothing else, and stops at a character
      that is not '0'. */
  lemma {:induction false} TrimZerosShape(s: string)
    requires '.' in s
    ensures var t := TrimZeros(s);
      |t| >= 1 && t == s[..|t|] && t[|t| - 1] != '0' &&
      forall i :: |t| <= i < |s| ==> s[i] == '0'
    decreases |s|
  {
    if s[|s| - 1] == '0' {
      var u := s[..|s| - 1];
      assert '.' in u by {
        var k :| 0 <= k < |s| && s[k] == '.';
        assert u[k] == '.';
      }
      TrimZerosShape(u);
      var t := TrimZeros(u);
      assert t == s[..|t|];
    }
  }

  /** No character after a '.' is another '.'. */
  predicate AtMostOneDot(s: string)
  {
    forall i, j :: 0 <= i < j < |s| && s[i] == '.' ==> s[j] != '.'
  }

  /** Stripping removes only trailing zeros and at most the '.' before them: the
      result is a prefix of the formatted string, never ends in '.', and, while it
      still holds a '.', never ends in '0'. */
  lemma StrippedShape(s: string)
    requires '.' in s && AtMostOneDot(s)
    ensures var r := Stripped(s);
      r == s[..|r|] &&
      (forall i :: |r| <= i < |s| ==> s[i] == '0' || (s[i] == '.' && i == |r|)) &&
      RenderedShape(r)
  {
    TrimZerosShape(s);
    var t := TrimZeros(s);
    var r := Stripped(s);
    if t[|t| - 1] == '.' {
      assert r == t[..|t| - 1];
      assert s[|t| - 1] == '.';
      assert forall k :: 0 <= k < |r| ==> r[k] == s[k] && r[k] != '.';
    }
  }

  /** What a rendered number looks like at its right end. */
  predicate RenderedShape(r: string)
  {
    (r != [] ==> r[|r| - 1] != '.') &&
    ('.' in r ==> r[|r| - 1] != '0')
  }

  /** A formatter whose output never holds two decimal points, as `sprintf("%f")`. */
  ghost predicate FormatsOneDot(nf: NumberFormat)
  {
    forall decimals, x :: AtMostOneDot(nf.format(decimals, x))
  }

  /** The two-pass `doubleToString`: format with digitCount decimals, count the
      integer digits, format again with the remaining decimals, then strip.
      With a formatter that writes at most one '.', a rendered number never
      ends in '.', nor in '0' after a '.'. */
  function Render(number: real, digitCount: uint8, nf: NumberFormat): (r: string)
    ensures FormatsOneDot(nf) ==> RenderedShape(r)
  {
    var first := nf.format(digitCount, number);
    var index := IndexOf(first, '.');
    var index := if number < 0.0 then index - 1 else index;
    var decimals := digitCount - index;
    var s := nf.format(decimals, number);
    if IndexOf(s, '.') != -1 then
      assert AtMostOneDot(s) ==> RenderedShape(Stripped(s)) by {
        if AtMostOneDot(s) {
          StrippedShape(s);
        }
      }
      Stripped(s)
    else s
  }

  // ---------------------------------------------------------------------------
  // The entry buffer

  /** The display string and whether a number is being typed into it. */
  datatype Entry = Entry(display: string, inputPending: bool)

  /** `numericInput`, given whether the engine is free of error. With the
      engine in error nothing changes; otherwise an entry is open afterwards,
      and its text is the digit alone, or the open entry with the digit
      appended, or the open entry unchanged. */
  function DigitInput(e: Entry, digit: uint8, digitCount: uint8, engineOk: bool): (r: Entry)
    requires digit < 10
    ensures !engineOk ==> r == e
    ensures engineOk ==>
              var d := if e.inputPending then e.display else "";
              r.inputPending && (r.display == [DigitChar(digit)] || r.display == d + [DigitChar(digit)] || r.display == d)
  {
    if !engineOk then e
    else
      var d := if e.inputPending then e.display else "";
      if d == "0" then Entry([DigitChar(digit)], true)
      else if UsedDigits(d) < digitCount then Entry(d + [DigitChar(digit)], true)
      else Entry(d, true)
  }

  /** `decimalPointInput`: with the engine in error nothing changes;
      otherwise an entry is open afterwards and holds a '.', an open entry
      keeping its text with at most a '.' appended. */
  function PointInput(e: Entry, engineOk: bool): (r: Entry)
    ensures !engineOk ==> r == e
    ensures engineOk ==> r.inputPending && '.' in r.display
    ensures engineOk && e.inputPending ==>
              |e.display| <= |r.display| <= |e.display| + 1 && r.display[..|e.display|] == e.display
  {
    if !engineOk then e
    else if e.inputPending then
      Entry(if '.' in e.display then e.display else e.display + ['.'], true)
    else Entry("0.", true)
  }

  /** A buffer being typed: digits and at most one '.', with at most digitCount
      digits. */
  predicate WellTyped(s: string, digitCount: nat)
  {
    (forall i :: 0 <= i < |s| ==> IsDigitChar(s[i]) || s[i] == '.') &&
    AtMostOneDot(s) &&
    |s| - (if '.' in s then 1 else 0) <= digitCount
  }

  /** `getUsedDigits` counts in `uint8_t`: with fewer than 255 tubes a typed
      buffer (its digits and one '.') is at most 255 characters long, so the
      count does not wrap. */
  lemma UsedDigitsOfTyped(s: string, digitCount: uint8)
    requires WellTyped(s, digitCount) && digitCount < 255
    ensures UsedDigits(s) == |s| - (if '.' in s then 1 else 0)
  {
  }

  /** Digit and decimal-point input keep the buffer well typed: never more than
      digitCount digits and never a second '.'. */
  lemma EntryStaysWellTyped(e: Entry, digit: uint8, digitCount: uint8, engineOk: bool)
    requires 1 <= digitCount < 255 && digit < 10
    requires e.inputPending ==> WellTyped(e.display, digitCount)
    ensures var f := DigitInput(e, digit, digitCount, engineOk);
      f.inputPending ==> WellTyped(f.display, digitCount)
    ensures var f := PointInput(e, engineOk);
      f.inputPending ==> WellTyped(f.display, digitCount)
  {
    if engineOk {
      var d := if e.inputPending then e.display else "";
      assert WellTyped(d, digitCount);
      DigitStaysWellTyped(d, digit, digitCount);
      if e.inputPending && '.' !in e.display {
        var s := e.display + ['.'];
        assert '.' in s by { assert s[|s| - 1] == '.'; }
        assert forall i :: 0 <= i < |e.display| ==> s[i] == e.display[i] && s[i] != '.';
      }
    }
  }

  /** A digit typed onto a well-typed text, within the budget, keeps it well typed. */
  lemma DigitStaysWellTyped(d: string, digit: uint8, digitCount: uint8)
    requires 1 <= digitCount < 255 && digit < 10 && WellTyped(d, digitCount)
    ensures d != "0" && UsedDigits(d) < digitCount ==> WellTyped(d + [DigitChar(digit)], digitCount)
    ensures WellTyped([DigitChar(digit)], digitCount)
  {
    UsedDigitsOfTyped(d, digitCount);
    var c := DigitChar(digit);
    if d != "0" && UsedDigits(d) < digitCount {
      var s := d + [c];
      assert ('.' in s) == ('.' in d) by {
        if '.' in s { var k :| 0 <= k < |s| && s[k] == '.'; assert k < |d|; assert d[k] == '.'; }
        if '.' in d { var k :| 0 <= k < |d| && d[k] == '.'; assert s[k] == '.'; }
      }
    }
  }

  /** The first digit of an entry replaces the buffer, a lone "0" is replaced
      by the digit, and a digit beyond the budget is dropped. */
  lemma DigitEntryCases(e: Entry, digit: uint8, digitCount: uint8)
    requires 1 <= digitCount < 255 && digit < 10
    requires e.inputPending ==> WellTyped(e.display, digitCount)
    ensures !e.inputPending ==> DigitInput(e, digit, digitCount, true) == Entry([DigitChar(digit)], true)
    ensures e.inputPending && e.display == "0" ==>
      DigitInput(e, digit, digitCount, true) == Entry([DigitChar(digit)], true)
    ensures e.inputPending && e.display != "0" ==>
      var n := |e.display| - (if '.' in e.display then 1 else 0);
      DigitInput(e, digit, digitCount, true).display ==
        if n < digitCount then e.display + [DigitChar(digit)] else e.display
  {
    if e.inputPending {
      UsedDigitsOfTyped(e.display, digitCount);
    }
  }

  /** A repeated decimal point changes nothing, and outside an entry the buffer
      restarts as "0.". */
  lemma DecimalPointIdempotent(e: Entry, engineOk: bool)
    ensures PointInput(PointInput(e, engineOk), engineOk) == PointInput(e, engineOk)
    ensures engineOk && !e.inputPending ==> PointInput(e, engineOk) == Entry("0.", true)
  {
    if engineOk && e.inputPending && '.' !in e.display {
      var s := e.display + ['.'];
      assert s[|s| - 1] == '.';
    }
  }

  // ---------------------------------------------------------------------------
  // Operations

  /** The memory operations after which the display text stays as typed. */
  predicate KeepsText(op: NC.Operation)
  {
    op == NC.MemStore || op == NC.MemSubtraction || op == NC.MemAddition
  }

  /** `operationInput`, on the buffer and the engine together. In error only
      all-clear reaches the engine, and its result is shown. Otherwise
      memclear runs on the engine as it is; the other memory operations
      first push the buffer into the engine and keep the text; every other
      operation pushes an open entry, then shows the result or the error
      text. */
  function OperationStep(e: Entry, s: NC.EngineState, op: NC.Operation, m: NC.MathLib,
                          nf: NumberFormat, digitCount: uint8): (r: (Entry, NC.EngineState))
    ensures !r.0.inputPending
    ensures r.1.angleMode == s.angleMode
    ensures r.1.memory != s.memory ==> s.code == NC.Success && op.IsMemory()
  {
    if s.code != NC.Success && op != NC.AllClear then (e.(inputPending := false), s)
    else
      var ok := s.code == NC.Success;
      var push := ok && op != NC.MemClear && (KeepsText(op) || e.inputPending);
      var s1 := if push then NC.NumericInput(s, nf.parse(e.display)) else s;
      var s2 := NC.Operate(s1, op, m);
      var shown :=
        if ok && (op == NC.MemClear || KeepsText(op)) then e.display
        else if !ok || s2.code == NC.Success then Render(s2.display, digitCount, nf)
        else Dots(digitCount);
      (Entry(shown, false), s2)
  }

  /** In error only all-clear is accepted; the entry is closed after every call;
      the memory operations other than memclear push the buffer into the engine
      and leave the display text as it is; memclear touches nothing but memory. */
  lemma OperationInputCases(e: Entry, s: NC.EngineState, op: NC.Operation, m: NC.MathLib,
                            nf: NumberFormat, digitCount: uint8)
    ensures !OperationStep(e, s, op, m, nf, digitCount).0.inputPending
    ensures s.code.IsError() && op != NC.AllClear ==>
      OperationStep(e, s, op, m, nf, digitCount) == (e.(inputPending := false), s)
    ensures s.code.IsError() && op == NC.AllClear ==>
      var (f, t) := OperationStep(e, s, op, m, nf, digitCount);
      t.code == NC.Success && f.display == Render(0.0, digitCount, nf)
    ensures s.code == NC.Success && (op == NC.MemStore || op == NC.MemSubtraction || op == NC.MemAddition) ==>
      OperationStep(e, s, op, m, nf, digitCount).0.display == e.display
    ensures s.code == NC.Success && op == NC.MemClear ==>
      OperationStep(e, s, op, m, nf, digitCount) == (e.(inputPending := false), s.(memory := 0.0))
  {
  }

  /** After any other operation the display is the rendered engine value, or
      digitCount dots when the engine reports an error; a rendered value never
      ends in '.', nor in '0' after a '.'. */
  lemma OperationInputRenders(e: Entry, s: NC.EngineState, op: NC.Operation, m: NC.MathLib,
                              nf: NumberFormat, digitCount: uint8)
    requires s.code == NC.Success && FormatsOneDot(nf)
    requires op != NC.MemClear && op != NC.MemStore && op != NC.MemSubtraction && op != NC.MemAddition
    ensures var (f, t) := OperationStep(e, s, op, m, nf, digitCount);
      (t.code.IsError() ==> f.display == Dots(digitCount)) &&
      (t.code == NC.Success ==>
        f.display == Render(t.display, digitCount, nf) && RenderedShape(f.display))
  {
  }

  // ---------------------------------------------------------------------------
  // Keys

  /** What a pressed key does in calculator mode. */
  datatype KeyAction = TypeDigit(digit: uint8) | TypeDoubleZero | TypeDecimalPoint
                     | Operate(op: NC.Operation) | Ignore

  /** The switch of `onKeyboardEvent`. */
  function ActionOfKey(keyCode: uint8): KeyAction
  {
    if keyCode == Key0 then TypeDigit(0)
    else if keyCode == Key1 then TypeDigit(1)
    else if keyCode == Key2 then TypeDigit(2)
    else if keyCode == Key3 then TypeDigit(3)
    else if keyCode == Key4 then TypeDigit(4)
    else if keyCode == Key5 then TypeDigit(5)
    else if keyCode == Key6 then TypeDigit(6)
    else if keyCode == Key7 then TypeDigit(7)
    else if keyCode == Key8 then TypeDigit(8)
    else if keyCode == Key9 then TypeDigit(9)
    else if keyCode == Key00 then TypeDoubleZero
    else if keyCode == KeyDot then TypeDecimalPoint
    else if keyCode == KeyAC then Operate(NC.AllClear)
    else if keyCode == KeyC then Operate(NC.Clear)
    else if keyCode == KeyPlusMinus then Operate(NC.SwitchSign)
    else if keyCode == KeyPlus then Operate(NC.Addition)
    else if keyCode == KeyMinus then Operate(NC.Subtraction)
    else if keyCode == KeyEquals then Operate(NC.Equals)
    else if keyCode == KeyDiv then Operate(NC.Division)
    else if keyCode == KeyMul then Operate(NC.Multiplication)
    else if keyCode == KeyPercent then Operate(NC.Percent)
    else if keyCode == KeySquareRoot then Operate(NC.SquareRoot)
    else if keyCode == KeyMC then Operate(NC.MemClear)
    else if keyCode == KeyMR then Operate(NC.MemRead)
    else if keyCode == KeyMS then Operate(NC.MemStore)
    else if keyCode == KeyMMinus then Operate(NC.MemSubtraction)
    else if keyCode == KeyMPlus then Operate(NC.MemAddition)
    else if keyCode == KeyInv then Operate(NC.Inv)
    else if keyCode == KeyPow then Operate(NC.Pow)
    else if keyCode == KeySin then Operate(NC.Sin)
    else if keyCode == KeyCos then Operate(NC.Cos)
    else if keyCode == KeyTan then Operate(NC.Tan)
    else if keyCode == KeyLog then Operate(NC.Log)
    else if keyCode == KeyLn then Operate(NC.Ln)
    else Ignore
  }

  /** The calculator's key switch and the decoder's plain key map are the same map. */
  lemma KeyMapMatchesDecoder(keyCode: uint8)
    ensures var a := ActionOfKey(keyCode);
      var d := KD.Decode(keyCode, false);
      (a.TypeDigit? <==> d.kind == KD.Numeric) &&
      (a.TypeDigit? ==> a.digit == d.digit) &&
      (a.TypeDoubleZero? <==> d.kind == KD.NumericX2) &&
      (a.TypeDecimalPoint? <==> d.kind == KD.Dp) &&
      (a.Operate? <==> d.kind == KD.Operation) &&
      (a.Operate? ==> a.op == d.op) &&
      (a.Ignore? <==> d.kind == KD.Unknown)
  {
  }

  /** The function key plays no part here: factorial, euler and pi are not
      reachable from any key. */
  lemma NoFunctionLayer(keyCode: uint8)
    ensures ActionOfKey(keyCode) != Operate(NC.Factorial)
    ensures ActionOfKey(keyCode) != Operate(NC.Euler)
    ensures ActionOfKey(keyCode) != Operate(NC.Pi)
  {
  }

  /** The calculator object. */
  class Calculator {
    var display: string
    const error: string
    const calcEngine: NC.NixieCalc
    const digitCount: uint8
    var inputPending: bool
    const numberFormat: NumberFormat

    function Buffer(): Entry
      reads this
    {
      Entry(display, inputPending)
    }

    /** The error text is digitCount dots. */
    predicate Valid()
      reads this
    {
      error == Dots(digitCount)
    }

    function EngineOk(): bool
      reads calcEngine
    {
      calcEngine.operationReturnCode == NC.Success
    }

    constructor (digitCount: uint8, math: NC.MathLib, numberFormat: NumberFormat)
      ensures this.digitCount == digitCount && this.numberFormat == numberFormat
      ensures Valid() && Buffer() == Entry("0", false)
      ensures fresh(calcEngine) && calcEngine.math == math
      ensures calcEngine.angleMode == NC.Deg
      ensures calcEngine.State() == NC.AllClearState(calcEngine.State())
    {
      this.digitCount := digitCount;
      this.numberFormat := numberFormat;
      display := "0";
      var dots := "";
      var i := 0;
      while i < digitCount
        invariant 0 <= i <= digitCount
        invariant dots == Dots(i)
      {
        dots := dots + ['.'];
        i := i + 1;
      }
      error := dots;
      var engine := new NC.NixieCalc(math);
      engine.SetAngleMode(NC.Deg);
      calcEngine := engine;
      inputPending := false;
    }

    method NumericInput(digit: uint8)
      requires digit < 10
      modifies this
      ensures Buffer() == DigitInput(old(Buffer()), digit, digitCount, EngineOk())
    {
      if calcEngine.operationReturnCode == NC.Success {
        if !inputPending {
          display := "";
          inputPending := true;
        }
        if display == "0" {
          display := [DigitChar(digit)];
        } else {
          if UsedDigits(display) < digitCount {
            display := display + [DigitChar(digit)];
          }
        }
      }
    }

    method DecimalPointInput()
      modifies this
      ensures Buffer() == PointInput(old(Buffer()), EngineOk())
    {
      if calcEngine.operationReturnCode == NC.Success {
        if inputPending {
          if IndexOf(display, '.') == -1 {
            display := display + ['.'];
          }
        } else {
          display := "0.";
        }
        inputPending := true;
      }
    }

    /** The three cases of the source under a good return code (memclear;
        memstore, memsub and memadd; anything else) end in the same call to
        the engine, which is made once here; only the last case shows the
        result. */
    method OperationInput(op: NC.Operation)
      requires Valid()
      modifies this, calcEngine
      ensures (Buffer(), calcEngine.State()) ==
        OperationStep(old(Buffer()), old(calcEngine.State()), op, calcEngine.math, numberFormat, digitCount)
    {
      if calcEngine.operationReturnCode == NC.Success {
        if op == NC.MemClear {
        } else if KeepsText(op) {
          calcEngine.OnNumericInput(numberFormat.parse(display));
        } else if inputPending {
          calcEngine.OnNumericInput(numberFormat.parse(display));
        }
        OperateAndShow(op, !(op == NC.MemClear || KeepsText(op)));
      } else if op == NC.AllClear {
        calcEngine.OnOperation(op);
        display := DoubleToString(calcEngine.displayValue);
      }
      inputPending := false;
    }

    /** The engine runs the operation; when `show` is set the display shows
        its result, or the error text. */
    method OperateAndShow(op: NC.Operation, show: bool)
      requires Valid()
      modifies this, calcEngine
      ensures calcEngine.State() == NC.Operate(old(calcEngine.State()), op, calcEngine.math)
      ensures display == if !show then old(display)
        else if calcEngine.operationReturnCode == NC.Success
        then Render(calcEngine.displayValue, digitCount, numberFormat) else Dots(digitCount)
      ensures inputPending == old(inputPending)
    {
      calcEngine.OnOperation(op);
      if show {
        if calcEngine.operationReturnCode == NC.Success {
          display := DoubleToString(calcEngine.displayValue);
        } else {
          display := error;
        }
      }
    }

    /** `doubleToString`, with its stripping loop. */
    method DoubleToString(number: real) returns (s: string)
      ensures s == Render(number, digitCount, numberFormat)
    {
      s := numberFormat.format(digitCount, number);
      var index := IndexOf(s, '.');
      if number < 0.0 {
        index := index - 1;
      }
      var decimals := digitCount - index;
      s := numberFormat.format(decimals, number);
      index := IndexOf(s, '.');
      if index != -1 {
        s := StripTrailingZeros(s);
      }
    }

    /** Removes trailing zeros, then a trailing '.'. */
    static method StripTrailingZeros(s0: string) returns (s: string)
      requires '.' in s0
      ensures s == Stripped(s0)
    {
      s := s0;
      while s[|s| - 1] == '0'
        invariant '.' in s
        invariant TrimZeros(s) == TrimZeros(s0)
        decreases |s|
      {
        assert '.' in s[..|s| - 1] by {
          var k :| 0 <= k < |s| && s[k] == '.';
          assert s[..|s| - 1][k] == '.';
        }
        s := s[..|s| - 1];
      }
      if s[|s| - 1] == '.' {
        s := s[..|s| - 1];
      }
    }

    method OnKeyboardEvent(keyCode: uint8, keyState: KeyState, functionKeyPressed: bool)
      requires Valid()
      modifies this, calcEngine
      ensures keyState != Pressed ==> Buffer() == old(Buffer()) && calcEngine.State() == old(calcEngine.State())
      ensures keyState == Pressed ==>
        (Buffer(), calcEngine.State()) ==
          KeyPress(old(Buffer()), old(calcEngine.State()), keyCode, calcEngine.math, numberFormat, digitCount)
    {
      if keyState == Pressed {
        match ActionOfKey(keyCode) {
          case TypeDigit(d) => NumericInput(d);
          case TypeDoubleZero => NumericInput(0); NumericInput(0);
          case TypeDecimalPoint => DecimalPointInput();
          case Operate(op) => OperationInput(op);
          case Ignore =>
        }
      }
    }
  }

  /** A pressed key, on the buffer and the engine together. */
  function KeyPress(e: Entry, s: NC.EngineState, keyCode: uint8, m: NC.MathLib,
                    nf: NumberFormat, digitCount: uint8): (Entry, NC.EngineState)
  {
    var ok := s.code == NC.Success;
    match ActionOfKey(keyCode)
    case TypeDigit(d) => (DigitInput(e, d, digitCount, ok), s)
    case TypeDoubleZero => (DigitInput(DigitInput(e, 0, digitCount, ok), 0, digitCount, ok), s)
    case TypeDecimalPoint => (PointInput(e, ok), s)
    case Operate(op) => OperationStep(e, s, op, m, nf, digitCount)
    case Ignore => (e, s)
  }

  /** KEY_00 is two successive zero digits; and while the engine is in error,
      digit and decimal-point keys change nothing. */
  lemma DoubleZeroIsTwoZeros(e: Entry, s: NC.EngineState, m: NC.MathLib, nf: NumberFormat, digitCount: uint8)
    ensures KeyPress(e, s, Key00, m, nf, digitCount) ==
      KeyPress(KeyPress(e, s, Key0, m, nf, digitCount).0, s, Key0, m, nf, digitCount)
    ensures s.code.IsError() ==>
      KeyPress(e, s, Key00, m, nf, digitCount) == (e, s) &&
      KeyPress(e, s, KeyDot, m, nf, digitCount) == (e, s) &&
      forall d :: 0 <= d < 10 ==> KeyPress(e, s, DigitKeys[d], m, nf, digitCount) == (e, s)
  {
    var ok := s.code == NC.Success;
    KeyPressTypes(e, s, Key0, m, nf, digitCount);
    KeyPressTypes(e, s, Key00, m, nf, digitCount);
    KeyPressTypes(DigitInput(e, 0, digitCount, ok), s, Key0, m, nf, digitCount);
    if s.code.IsError() {
      KeyPressTypes(e, s, KeyDot, m, nf, digitCount);
      forall d | 0 <= d < 10
        ensures KeyPress(e, s, DigitKeys[d], m, nf, digitCount) == (e, s)
      {
        assert ActionOfKey(DigitKeys[d]) == TypeDigit(d as uint8);
        KeyPressTypes(e, s, DigitKeys[d], m, nf, digitCount);
      }
    }
  }

  /** The keys that type leave the engine alone and act on the entry only. */
  lemma KeyPressTypes(e: Entry, s: NC.EngineState, keyCode: uint8, m: NC.MathLib, nf: NumberFormat, digitCount: uint8)
    ensures var ok := s.code == NC.Success;
            match ActionOfKey(keyCode)
            case TypeDigit(d) => KeyPress(e, s, keyCode, m, nf, digitCount) == (DigitInput(e, d, digitCount, ok), s)
            case TypeDoubleZero =>
              KeyPress(e, s, keyCode, m, nf, digitCount) == (DigitInput(DigitInput(e, 0, digitCount, ok), 0, digitCount, ok), s)
            case TypeDecimalPoint => KeyPress(e, s, keyCode, m, nf, digitCount) == (PointInput(e, ok), s)
            case _ => true
  {
  }
}

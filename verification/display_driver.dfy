/** The display driver: a digit buffer, a decimal-point buffer and a sign,
    changed in place by bounded setters, and the register walk that shifts
    them out to the high-voltage shift registers, one bit per wired output. */
module DisplayDriver {
  import opened ArduinoTypes
  import opened DisplayHAL
  import IN17 = DisplayHALIN17

  /** The digit value that matches no cathode, so the tube stays dark. */
  const DigitOff: uint8 := 255

  /** A board's `getRegisterInfo`, as a function of the register number. */
  type HAL = uint8 -> RegisterInfo

  /** The register types the commit walk writes a bit for. */
  predicate Emits(rt: RegisterType)
  {
    rt == MinusSign || rt == DecimalPoint || rt == Number || rt == NotConnected
  }

  /** A register's tube or decimal point lies within the buffers. */
  predicate Fits(info: RegisterInfo, digitCount: int, pointCount: int)
  {
    (info.rt == Number ==> info.digit < digitCount) && (info.rt == DecimalPoint ==> info.digit < pointCount)
  }

  /** The HAL never names a tube or decimal point beyond the buffers. */
  predicate FitsBuffers(hal: HAL, digitCount: int, pointCount: int)
  {
    forall r: uint8 :: Fits(hal(r), digitCount, pointCount)
  }

  /** The bits one register contributes, by register type. The switch of
      this revision has no case for the unused, plus and menu outputs, so
      those, like unknown registers, contribute nothing. */
  function RegisterBits(info: RegisterInfo, digits: seq<uint8>, points: seq<bool>, negativeSign: bool): (bits: seq<bool>)
    requires Fits(info, |digits|, |points|)
    ensures |bits| == if Emits(info.rt) then 1 else 0
  {
    match info.rt
    case Unknown => []
    case MinusSign => [negativeSign]
    case DecimalPoint => [points[info.digit]]
    case Number => [digits[info.digit] == info.number]
    case NotConnected => [false]
    case NotUsed => []
    case PlusSign => []
    case MenuSign => []
  }

  /** The bits shifted out for registers `count` down to 1, in that order. */
  function CommitBits(hal: HAL, digits: seq<uint8>, points: seq<bool>, negativeSign: bool, count: nat): seq<bool>
    requires count <= RegisterCount as int
    requires FitsBuffers(hal, |digits|, |points|)
  {
    if count == 0 then []
    else RegisterBits(hal(count), digits, points, negativeSign) + CommitBits(hal, digits, points, negativeSign, count - 1)
  }

  /** One step of the walk: register `count` first, then the rest. */
  lemma CommitStep(hal: HAL, digits: seq<uint8>, points: seq<bool>, negativeSign: bool, count: nat)
    requires 0 < count <= RegisterCount as int
    requires FitsBuffers(hal, |digits|, |points|)
    ensures Fits(hal(count as uint8), |digits|, |points|)
    ensures CommitBits(hal, digits, points, negativeSign, count) ==
      RegisterBits(hal(count as uint8), digits, points, negativeSign) + CommitBits(hal, digits, points, negativeSign, count - 1)
  {
  }

  lemma AppendStep(done: seq<bool>, next: seq<bool>, rest: seq<bool>)
    ensures (done + next) + rest == done + (next + rest)
  {
  }

  /** The number of registers among 1..count that get a bit. */
  function Emitting(hal: HAL, count: nat): nat
    requires count <= RegisterCount as int
  {
    if count == 0 then 0 else (if Emits(hal(count).rt) then 1 else 0) + Emitting(hal, count - 1)
  }

  /** One bit per emitting register and none for the others; when every
      register 1..count emits, register r's bit is at position count - r:
      the last register is shifted out first. */
  lemma {:induction false} OneBitPerRegister(hal: HAL, digits: seq<uint8>, points: seq<bool>, negativeSign: bool, count: nat)
    requires count <= RegisterCount as int
    requires FitsBuffers(hal, |digits|, |points|)
    ensures |CommitBits(hal, digits, points, negativeSign, count)| == Emitting(hal, count)
    ensures Emitting(hal, count) == count ==>
      forall r: uint8 :: 1 <= r as int <= count ==>
        [CommitBits(hal, digits, points, negativeSign, count)[count - r as int]] ==
          RegisterBits(hal(r), digits, points, negativeSign)
  {
    if count > 0 {
      OneBitPerRegister(hal, digits, points, negativeSign, count - 1);
      assert Emitting(hal, count - 1) <= count - 1 by { EmittingBound(hal, count - 1); }
    }
  }

  lemma {:induction false} EmittingBound(hal: HAL, count: nat)
    requires count <= RegisterCount as int
    ensures Emitting(hal, count) <= count
    ensures Emitting(hal, count) == count <==> forall r: uint8 :: 1 <= r as int <= count ==> Emits(hal(r).rt)
  {
    if count > 0 {
      EmittingBound(hal, count - 1);
    }
  }

  /** On the IN-17 board every one of the 160 registers gets exactly one bit;
      a cathode bit is high exactly when its tube shows that number, a
      decimal-point or sign bit follows its state, and the unconnected
      outputs are low. */
  lemma IN17Commit(digits: seq<uint8>, points: seq<bool>, negativeSign: bool)
    requires |digits| >= IN17.DigitCount && |points| >= IN17.DigitCount
    ensures FitsBuffers(IN17.GetRegisterInfo, |digits|, |points|)
    ensures var bits := CommitBits(IN17.GetRegisterInfo, digits, points, negativeSign, RegisterCount as int);
      |bits| == RegisterCount as int &&
      forall r: uint8 :: InRange(r) ==>
        var info := IN17.GetRegisterInfo(r);
        bits[RegisterCount - r] ==
          match info.rt
          case Number => digits[info.digit] == info.number
          case DecimalPoint => points[info.digit]
          case MinusSign => negativeSign
          case _ => false
  {
    var hal := IN17.GetRegisterInfo;
    EmittingBound(hal, RegisterCount as int);
    OneBitPerRegister(hal, digits, points, negativeSign, RegisterCount as int);
  }

  /** With every tube dark, no cathode is driven. */
  lemma DarkTubesLightNothing(digits: seq<uint8>, points: seq<bool>, negativeSign: bool, r: uint8)
    requires |digits| >= IN17.DigitCount && |points| >= IN17.DigitCount
    requires forall i :: 0 <= i < |digits| ==> digits[i] == DigitOff
    requires InRange(r) && IN17.GetRegisterInfo(r).rt == Number
    ensures FitsBuffers(IN17.GetRegisterInfo, |digits|, |points|)
    ensures |CommitBits(IN17.GetRegisterInfo, digits, points, negativeSign, RegisterCount as int)| == RegisterCount as int
    ensures !CommitBits(IN17.GetRegisterInfo, digits, points, negativeSign, RegisterCount as int)[RegisterCount - r]
  {
    IN17Commit(digits, points, negativeSign);
  }

  class DisplayDriver {
    const digitCount: uint8
    const decimalPointCount: uint8
    /** Digit 0 is the leftmost tube. */
    const digits: array<uint8>
    /** Decimal points sit to the right of their digit. */
    const decimalPoints: array<bool>
    var negativeSign: bool
    /** The plus sign that the display handler switches on; this revision of
        the driver neither clears nor commits it. */
    var plusSign: bool

    ghost predicate Valid()
      reads this
    {
      digits.Length == digitCount as int && decimalPoints.Length == decimalPointCount as int
    }

    /** The whole buffer state. */
    function Digits(): seq<uint8>
      reads this, digits
    {
      digits[..]
    }

    function Points(): seq<bool>
      reads this, decimalPoints
    {
      decimalPoints[..]
    }

    /** The buffers start dark here; the firmware leaves them uninitialised
        until the first `clear`. */
    constructor (digitCount: uint8, decimalPointCount: uint8)
      ensures Valid() && fresh(digits) && fresh(decimalPoints)
      ensures this.digitCount == digitCount && this.decimalPointCount == decimalPointCount
      ensures Digits() == seq(digitCount as int, _ => DigitOff)
      ensures Points() == seq(decimalPointCount as int, _ => false)
      ensures !negativeSign && !plusSign
    {
      this.digitCount := digitCount;
      this.decimalPointCount := decimalPointCount;
      digits := new uint8[digitCount](_ => DigitOff);
      decimalPoints := new bool[decimalPointCount](_ => false);
      negativeSign := false;
      plusSign := false;
    }

    /** `setDigit`: writes slot `digit` only when it exists. */
    method SetDigit(digit: uint8, value: uint8)
      requires Valid()
      modifies digits
      ensures Digits() == if digit < digitCount then old(Digits())[digit := value] else old(Digits())
    {
      if digit < digitCount {
        digits[digit] := value;
      }
    }

    /** `setDecimalPoint`: bounded the same way. */
    method SetDecimalPoint(decimalPoint: uint8, on: bool)
      requires Valid()
      modifies decimalPoints
      ensures Points() == if decimalPoint < decimalPointCount then old(Points())[decimalPoint := on] else old(Points())
    {
      if decimalPoint < decimalPointCount {
        decimalPoints[decimalPoint] := on;
      }
    }

    method SetNegativeSign(on: bool)
      modifies this
      ensures negativeSign == on && plusSign == old(plusSign)
    {
      negativeSign := on;
    }

    method SetPlusSign(on: bool)
      modifies this
      ensures plusSign == on && negativeSign == old(negativeSign)
    {
      plusSign := on;
    }

    /** `clearDecimalPoints`: every decimal point off. */
    method ClearDecimalPoints()
      requires Valid()
      modifies decimalPoints
      ensures Points() == seq(decimalPointCount as int, _ => false)
    {
      var i := 0;
      while i < decimalPointCount
        invariant 0 <= i <= decimalPointCount
        invariant forall j :: 0 <= j < i ==> !decimalPoints[j]
      {
        decimalPoints[i] := false;
        i := i + 1;
      }
    }

    /** `clearDigits`: every tube dark. */
    method ClearDigits()
      requires Valid()
      modifies digits
      ensures Digits() == seq(digitCount as int, _ => DigitOff)
    {
      var i := 0;
      while i < digitCount
        invariant 0 <= i <= digitCount
        invariant forall j :: 0 <= j < i ==> digits[j] == DigitOff
      {
        digits[i] := DigitOff;
        i := i + 1;
      }
    }

    method ClearNegativeSign()
      modifies this
      ensures !negativeSign && plusSign == old(plusSign)
    {
      SetNegativeSign(false);
    }

    /** `clear`: decimal points, digits and the sign. */
    method Clear()
      requires Valid()
      modifies this, digits, decimalPoints
      ensures Digits() == seq(digitCount as int, _ => DigitOff)
      ensures Points() == seq(decimalPointCount as int, _ => false)
      ensures !negativeSign && plusSign == old(plusSign)
    {
      ClearDecimalPoints();
      ClearDigits();
      ClearNegativeSign();
    }

    /** `commitDigitNumber`: the cathode bit is high when the tube shows that number. */
    method CommitDigitNumber(digit: uint8, number: uint8) returns (bit: bool)
      requires Valid() && digit < digitCount
      ensures bit <==> Digits()[digit] == number
    {
      bit := digits[digit] == number;
    }

    /** `commitDecimalPoint`: the bit follows the decimal point's state. */
    method CommitDecimalPoint(decimalPoint: uint8) returns (bit: bool)
      requires Valid() && decimalPoint < decimalPointCount
      ensures bit == Points()[decimalPoint]
    {
      bit := decimalPoints[decimalPoint];
    }

    /** `commitNegativeSign`: the bit follows the sign. */
    method CommitNegativeSign() returns (bit: bool)
      ensures bit == negativeSign
    {
      bit := negativeSign;
    }

    /** One case of the switch in `commitToRegisters`: the bits written for
        one register, none for the types the switch does not list. */
    method CommitRegister(info: RegisterInfo) returns (bits: seq<bool>)
      requires Valid() && Fits(info, digitCount as int, decimalPointCount as int)
      ensures bits == RegisterBits(info, Digits(), Points(), negativeSign)
    {
      match info.rt {
        case Unknown =>
          bits := [];
        case MinusSign =>
          var bit := CommitNegativeSign();
          bits := [bit];
        case DecimalPoint =>
          var bit := CommitDecimalPoint(info.digit);
          bits := [bit];
        case Number =>
          var bit := CommitDigitNumber(info.digit, info.number);
          bits := [bit];
        case NotConnected =>
          bits := [false];
        case NotUsed =>
          bits := [];
        case PlusSign =>
          bits := [];
        case MenuSign =>
          bits := [];
      }
    }

    /** One step of the walk: the bits of register `i`, which come before
        those of registers `i - 1` down to 1. */
    method CommitNext(hal: HAL, i: uint8) returns (written: seq<bool>)
      requires Valid()
      requires FitsBuffers(hal, digitCount as int, decimalPointCount as int)
      requires 0 < i <= RegisterCount
      ensures written + CommitBits(hal, Digits(), Points(), negativeSign, i as int - 1) ==
        CommitBits(hal, Digits(), Points(), negativeSign, i as int)
    {
      CommitStep(hal, Digits(), Points(), negativeSign, i as int);
      written := CommitRegister(hal(i));
    }

    /** `commitToRegisters`: walks the registers from 160 down to 1 and
        returns the bits shifted out; the buffers are only read. */
    method CommitToRegisters(hal: HAL) returns (bits: seq<bool>)
      requires Valid()
      requires FitsBuffers(hal, digitCount as int, decimalPointCount as int)
      ensures bits == CommitBits(hal, Digits(), Points(), negativeSign, RegisterCount as int)
    {
      ghost var ds, ps := Digits(), Points();
      ghost var total := CommitBits(hal, ds, ps, negativeSign, RegisterCount as int);
      bits := [];
      var i: uint8 := RegisterCount;
      while i > 0
        invariant 0 <= i <= RegisterCount
        invariant ds == Digits() && ps == Points()
        invariant bits + CommitBits(hal, ds, ps, negativeSign, i as int) == total
      {
        var written := CommitNext(hal, i);
        AppendStep(bits, written, CommitBits(hal, ds, ps, negativeSign, i as int - 1));
        bits := bits + written;
        i := i - 1;
      }
    }
  }
}

/** The IN-17 board: eleven consecutive outputs per tube (ten cathodes, then
    the decimal point), fourteen tubes, then the minus sign. */
module DisplayHALIN17 {
  import opened ArduinoTypes
  import opened DisplayHAL

  const DigitCount: int := 14
  const OutputsPerDigit: int := 11
  const MinusSignRegister: int := 155

  /** `getRegisterInfo`, by division and remainder by 11. The sign enumerator
      this board reports is the minus sign of the shared register types. */
  function GetRegisterInfo(registerNumber: uint8): (r: RegisterInfo)
    ensures r.rt == Unknown <==> !InRange(registerNumber)
    ensures r.rt == Unknown ==> r == NoRegister
    ensures r.rt == Number ==>
      r.digit < DigitCount && r.number < 10 &&
      registerNumber == OutputsPerDigit * r.digit + r.number + 1
    ensures r.rt == DecimalPoint ==>
      r.digit < DigitCount && r.number == 0 && registerNumber == OutputsPerDigit * (r.digit + 1)
    ensures r.rt == MinusSign <==> registerNumber == MinusSignRegister
    ensures r.rt == NotConnected <==> MinusSignRegister < registerNumber <= RegisterCount
    ensures r.rt !in {NotUsed, PlusSign, MenuSign}
  {
    if registerNumber < 1 || registerNumber > RegisterCount then NoRegister
    else if registerNumber < 155 then
      var digit := registerNumber / 11;
      var value := registerNumber % 11;
      if value == 0 then RegisterInfo(DecimalPoint, digit - 1, 0)
      else RegisterInfo(Number, digit, value - 1)
    else if registerNumber == 155 then RegisterInfo(MinusSign, 0, 0)
    else RegisterInfo(NotConnected, 0, 0)
  }

  /** Every cathode (digit 0..13, number 0..9) has exactly one register. */
  lemma NumberRegisters(registerNumber: uint8, d: int, n: int)
    requires 0 <= d < DigitCount && 0 <= n < 10
    ensures GetRegisterInfo(registerNumber) == RegisterInfo(Number, d, n) <==>
      registerNumber == OutputsPerDigit * d + n + 1
  {
    if registerNumber == OutputsPerDigit * d + n + 1 {
      assert registerNumber / 11 == d && registerNumber % 11 == n + 1;
    }
  }

  /** Every tube has exactly one decimal-point register. */
  lemma DecimalPointRegisters(registerNumber: uint8, d: int)
    requires 0 <= d < DigitCount
    ensures GetRegisterInfo(registerNumber) == RegisterInfo(DecimalPoint, d, 0) <==>
      registerNumber == OutputsPerDigit * (d + 1)
  {
    if registerNumber == OutputsPerDigit * (d + 1) {
      assert registerNumber / 11 == d + 1 && registerNumber % 11 == 0;
    }
  }

  /** Register types of the whole chain: 140 cathodes, 14 decimal points, one
      sign, five unconnected outputs. */
  lemma RegisterLayout(registerNumber: uint8)
    ensures 1 <= registerNumber <= 154 <==>
      GetRegisterInfo(registerNumber).rt in {Number, DecimalPoint}
    ensures 1 <= registerNumber <= 154 && registerNumber % 11 == 0 <==>
      GetRegisterInfo(registerNumber).rt == DecimalPoint
  {
  }
}

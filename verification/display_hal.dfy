/** The hardware abstraction shared by the nixie display boards: what each of
    the 160 high-voltage shift-register outputs is wired to. */
module DisplayHAL {
  import opened ArduinoTypes

  /** Outputs of the chained shift registers, numbered 1..160. */
  const RegisterCount: uint8 := 160

  datatype RegisterType = Unknown | NotConnected | NotUsed | DecimalPoint | Number | MinusSign | PlusSign | MenuSign

  /** The register type and the two out-parameters of `getRegisterInfo`. */
  datatype RegisterInfo = RegisterInfo(rt: RegisterType, digit: uint8, number: uint8)

  /** The answer for a register number outside 1..160. */
  const NoRegister: RegisterInfo := RegisterInfo(Unknown, 0, 0)

  predicate InRange(registerNumber: uint8)
  {
    1 <= registerNumber <= RegisterCount
  }

  datatype LedType = Smd | Tht

  /** The geometry getters of a board. */
  datatype Geometry = Geometry(
    digitCount: uint8, decimalPointCount: uint8, ledCount: uint8,
    hasPlusSign: bool, hasMenuSign: bool, hasLedPerDigit: bool, ledType: LedType)
}

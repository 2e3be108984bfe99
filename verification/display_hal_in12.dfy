/** The IN-12 board: the register-to-cathode wiring is an explicit table of
    160 entries, filled once by the constructor. */
module DisplayHALIN12 {
  import opened ArduinoTypes
  import opened DisplayHAL

  const DigitCount: uint8 := 14
  const DecimalPointCount: uint8 := 14
  const LedCount: uint8 := 15

  /** The geometry getters: fourteen tubes each with a decimal point, one SMD
      LED per tube plus one, and both a plus and a menu sign. */
  const IN12Geometry: Geometry := Geometry(DigitCount, DecimalPointCount, LedCount, true, true, true, Smd)

  /** The digit that the sign and unused entries carry: one past the last tube. */
  const SignDigit: uint8 := 14

  /** A table entry written as one number: `10 * d + n` for cathode n of tube
      d, `140 + d` for the decimal point of tube d, and the four codes below
      for the minus sign, the plus sign, the menu sign and an unused output. */
  const MinusSignEntry: int := 200
  const PlusSignEntry: int := 201
  const MenuSignEntry: int := 202
  const UnusedEntry: int := 203

  function CathodeEntry(d: int, n: int): int { 10 * d + n }

  function DecimalPointEntry(d: int): int { 140 + d }

  /** The `{register_type, digit, number}` triple an encoded entry stands for. */
  function DecodeEntry(k: int): (r: RegisterInfo)
  {
    if 0 <= k < 140 then RegisterInfo(Number, k / 10, k % 10)
    else if 140 <= k < 154 then RegisterInfo(DecimalPoint, k - 140, 0)
    else if k == MinusSignEntry then RegisterInfo(MinusSign, SignDigit, 0)
    else if k == PlusSignEntry then RegisterInfo(PlusSign, SignDigit, 0)
    else if k == MenuSignEntry then RegisterInfo(MenuSign, SignDigit, 0)
    else if k == UnusedEntry then RegisterInfo(NotUsed, SignDigit, 0)
    else NoRegister
  }

  /** `initTranslationTable`, as the constructor writes it: the table index
      that tube d's cathode n (n < 10) and its decimal point (n == 10) are
      assigned to, one tube per line. */
  function TubeIndex(d: int, n: int): (r: int)
    ensures r != -1 <==> 0 <= d < DigitCount as int && 0 <= n <= 10
    ensures r != -1 ==> 0 <= r < RegisterCount as int
  {
    match d
    case 0 => (match n case 0 => 34 case 1 => 33 case 2 => 32 case 3 => 25 case 4 => 24 case 5 => 23 case 6 => 22 case 7 => 21 case 8 => 20 case 9 => 35 case 10 => 36 case _ => -1)
    case 1 => (match n case 0 => 39 case 1 => 38 case 2 => 37 case 3 => 19 case 4 => 18 case 5 => 17 case 6 => 16 case 7 => 15 case 8 => 14 case 9 => 40 case 10 => 41 case _ => -1)
    case 2 => (match n case 0 => 44 case 1 => 43 case 2 => 42 case 3 => 13 case 4 => 12 case 5 => 11 case 6 => 10 case 7 => 9 case 8 => 8 case 9 => 45 case 10 => 46 case _ => -1)
    case 3 => (match n case 0 => 49 case 1 => 48 case 2 => 47 case 3 => 7 case 4 => 6 case 5 => 5 case 6 => 4 case 7 => 3 case 8 => 2 case 9 => 50 case 10 => 51 case _ => -1)
    case 4 => (match n case 0 => 54 case 1 => 53 case 2 => 52 case 3 => 1 case 4 => 0 case 5 => 95 case 6 => 94 case 7 => 93 case 8 => 92 case 9 => 55 case 10 => 56 case _ => -1)
    case 5 => (match n case 0 => 59 case 1 => 58 case 2 => 57 case 3 => 91 case 4 => 90 case 5 => 89 case 6 => 88 case 7 => 87 case 8 => 86 case 9 => 60 case 10 => 61 case _ => -1)
    case 6 => (match n case 0 => 96 case 1 => 63 case 2 => 62 case 3 => 81 case 4 => 82 case 5 => 83 case 6 => 84 case 7 => 85 case 8 => 80 case 9 => 97 case 10 => 98 case _ => -1)
    case 7 => (match n case 0 => 101 case 1 => 100 case 2 => 99 case 3 => 79 case 4 => 78 case 5 => 77 case 6 => 76 case 7 => 75 case 8 => 74 case 9 => 102 case 10 => 103 case _ => -1)
    case 8 => (match n case 0 => 106 case 1 => 105 case 2 => 104 case 3 => 73 case 4 => 72 case 5 => 71 case 6 => 70 case 7 => 69 case 8 => 68 case 9 => 107 case 10 => 108 case _ => -1)
    case 9 => (match n case 0 => 111 case 1 => 110 case 2 => 109 case 3 => 67 case 4 => 66 case 5 => 65 case 6 => 64 case 7 => 159 case 8 => 158 case 9 => 112 case 10 => 113 case _ => -1)
    case 10 => (match n case 0 => 116 case 1 => 115 case 2 => 114 case 3 => 157 case 4 => 156 case 5 => 155 case 6 => 154 case 7 => 153 case 8 => 152 case 9 => 117 case 10 => 118 case _ => -1)
    case 11 => (match n case 0 => 121 case 1 => 120 case 2 => 119 case 3 => 151 case 4 => 150 case 5 => 149 case 6 => 148 case 7 => 147 case 8 => 146 case 9 => 122 case 10 => 123 case _ => -1)
    case 12 => (match n case 0 => 126 case 1 => 125 case 2 => 124 case 3 => 145 case 4 => 144 case 5 => 143 case 6 => 142 case 7 => 141 case 8 => 140 case 9 => 127 case 10 => 128 case _ => -1)
    case 13 => (match n case 0 => 131 case 1 => 130 case 2 => 129 case 3 => 139 case 4 => 138 case 5 => 137 case 6 => 136 case 7 => 135 case 8 => 134 case 9 => 132 case 10 => 133 case _ => -1)
    case _ => -1
  }

  /** The index of each sign output in the table. */
  const MinusSignIndex: int := 27
  const PlusSignIndex: int := 28
  const MenuSignIndex: int := 29
  const UnusedIndices: set<int> := {26, 30, 31}

  /** The resulting table, read by index: the encoded entry at index i, ten
      indices per line. */
  function TableEntry(i: int): (k: int)
    ensures k != -1 <==> 0 <= i < RegisterCount as int
    ensures k != -1 ==> 0 <= k <= UnusedEntry
  {
    match i / 10
    case 0 => (match i % 10 case 0 => 44 case 1 => 43 case 2 => 38 case 3 => 37 case 4 => 36 case 5 => 35 case 6 => 34 case 7 => 33 case 8 => 28 case 9 => 27 case _ => -1)
    case 1 => (match i % 10 case 0 => 26 case 1 => 25 case 2 => 24 case 3 => 23 case 4 => 18 case 5 => 17 case 6 => 16 case 7 => 15 case 8 => 14 case 9 => 13 case _ => -1)
    case 2 => (match i % 10 case 0 => 8 case 1 => 7 case 2 => 6 case 3 => 5 case 4 => 4 case 5 => 3 case 6 => 203 case 7 => 200 case 8 => 201 case 9 => 202 case _ => -1)
    case 3 => (match i % 10 case 0 => 203 case 1 => 203 case 2 => 2 case 3 => 1 case 4 => 0 case 5 => 9 case 6 => 140 case 7 => 12 case 8 => 11 case 9 => 10 case _ => -1)
    case 4 => (match i % 10 case 0 => 19 case 1 => 141 case 2 => 22 case 3 => 21 case 4 => 20 case 5 => 29 case 6 => 142 case 7 => 32 case 8 => 31 case 9 => 30 case _ => -1)
    case 5 => (match i % 10 case 0 => 39 case 1 => 143 case 2 => 42 case 3 => 41 case 4 => 40 case 5 => 49 case 6 => 144 case 7 => 52 case 8 => 51 case 9 => 50 case _ => -1)
    case 6 => (match i % 10 case 0 => 59 case 1 => 145 case 2 => 62 case 3 => 61 case 4 => 96 case 5 => 95 case 6 => 94 case 7 => 93 case 8 => 88 case 9 => 87 case _ => -1)
    case 7 => (match i % 10 case 0 => 86 case 1 => 85 case 2 => 84 case 3 => 83 case 4 => 78 case 5 => 77 case 6 => 76 case 7 => 75 case 8 => 74 case 9 => 73 case _ => -1)
    case 8 => (match i % 10 case 0 => 68 case 1 => 63 case 2 => 64 case 3 => 65 case 4 => 66 case 5 => 67 case 6 => 58 case 7 => 57 case 8 => 56 case 9 => 55 case _ => -1)
    case 9 => (match i % 10 case 0 => 54 case 1 => 53 case 2 => 48 case 3 => 47 case 4 => 46 case 5 => 45 case 6 => 60 case 7 => 69 case 8 => 146 case 9 => 72 case _ => -1)
    case 10 => (match i % 10 case 0 => 71 case 1 => 70 case 2 => 79 case 3 => 147 case 4 => 82 case 5 => 81 case 6 => 80 case 7 => 89 case 8 => 148 case 9 => 92 case _ => -1)
    case 11 => (match i % 10 case 0 => 91 case 1 => 90 case 2 => 99 case 3 => 149 case 4 => 102 case 5 => 101 case 6 => 100 case 7 => 109 case 8 => 150 case 9 => 112 case _ => -1)
    case 12 => (match i % 10 case 0 => 111 case 1 => 110 case 2 => 119 case 3 => 151 case 4 => 122 case 5 => 121 case 6 => 120 case 7 => 129 case 8 => 152 case 9 => 132 case _ => -1)
    case 13 => (match i % 10 case 0 => 131 case 1 => 130 case 2 => 139 case 3 => 153 case 4 => 138 case 5 => 137 case 6 => 136 case 7 => 135 case 8 => 134 case 9 => 133 case _ => -1)
    case 14 => (match i % 10 case 0 => 128 case 1 => 127 case 2 => 126 case 3 => 125 case 4 => 124 case 5 => 123 case 6 => 118 case 7 => 117 case 8 => 116 case 9 => 115 case _ => -1)
    case 15 => (match i % 10 case 0 => 114 case 1 => 113 case 2 => 108 case 3 => 107 case 4 => 106 case 5 => 105 case 6 => 104 case 7 => 103 case 8 => 98 case 9 => 97 case _ => -1)
    case _ => -1
  }

  /** Table index i, decoded. */
  function Entry(i: int): RegisterInfo
  {
    DecodeEntry(TableEntry(i))
  }

  /** `getRegisterInfo`: registers 1..160 read table entry r - 1; any other
      number is unknown with digit and number 0. */
  function GetRegisterInfo(registerNumber: uint8): (r: RegisterInfo)
    ensures !InRange(registerNumber) ==> r == NoRegister
    ensures InRange(registerNumber) ==> r == Entry(registerNumber - 1)
  {
    if registerNumber < 1 || registerNumber > RegisterCount then NoRegister
    else Entry(registerNumber - 1)
  }

  /** The inverse of the table, for encoded entries of tubes 0..13. */
  function IndexOfEntry(k: int): int
  {
    if 0 <= k < 140 then TubeIndex(k / 10, k % 10)
    else if 140 <= k < 154 then TubeIndex(k - 140, 10)
    else -1
  }

  /** Every index holds a valid entry, and the constructor's assignment for
      that entry names this very index. */
  lemma TableInverts(i: int)
    requires 0 <= i < 160
    ensures 0 <= TableEntry(i) < 154 || MinusSignEntry <= TableEntry(i) <= UnusedEntry
    ensures 0 <= TableEntry(i) < 154 ==> IndexOfEntry(TableEntry(i)) == i
  {
    if i < 40 { TableInverts0(i); }
    else if i < 80 { TableInverts40(i); }
    else if i < 120 { TableInverts80(i); }
    else { TableInverts120(i); }
  }

  /** The same, a quarter of the table at a time. */
  lemma TableInverts0(i: int)
    requires 0 <= i < 40
    ensures 0 <= TableEntry(i) < 154 || MinusSignEntry <= TableEntry(i) <= UnusedEntry
    ensures 0 <= TableEntry(i) < 154 ==> IndexOfEntry(TableEntry(i)) == i
  {
  }

  lemma TableInverts40(i: int)
    requires 40 <= i < 80
    ensures 0 <= TableEntry(i) < 154 || MinusSignEntry <= TableEntry(i) <= UnusedEntry
    ensures 0 <= TableEntry(i) < 154 ==> IndexOfEntry(TableEntry(i)) == i
  {
  }

  lemma TableInverts80(i: int)
    requires 80 <= i < 120
    ensures 0 <= TableEntry(i) < 154 || MinusSignEntry <= TableEntry(i) <= UnusedEntry
    ensures 0 <= TableEntry(i) < 154 ==> IndexOfEntry(TableEntry(i)) == i
  {
  }

  lemma TableInverts120(i: int)
    requires 120 <= i < 160
    ensures 0 <= TableEntry(i) < 154 || MinusSignEntry <= TableEntry(i) <= UnusedEntry
    ensures 0 <= TableEntry(i) < 154 ==> IndexOfEntry(TableEntry(i)) == i
  {
  }

  /** Every assignment of the constructor lands in the table (tubes 0..6). */
  lemma AssignmentsLandLow(k: int)
    requires 0 <= k < 70 || 140 <= k < 147
    ensures 0 <= IndexOfEntry(k) < 160 && TableEntry(IndexOfEntry(k)) == k
  {
  }

  lemma AssignmentsLandHigh(k: int)
    requires 70 <= k < 140 || 147 <= k < 154
    ensures 0 <= IndexOfEntry(k) < 160 && TableEntry(IndexOfEntry(k)) == k
  {
  }

  /** Every register 1..160 is described by the table: the lookup is total. */
  lemma LookupIsTotal(registerNumber: uint8)
    requires InRange(registerNumber)
    ensures GetRegisterInfo(registerNumber).rt != Unknown
  {
    var i := registerNumber as int - 1;
    TableInverts(i);
  }

  /** The table index of an encoded cathode or decimal-point entry. */
  lemma EntryAt(i: int, k: int)
    requires 0 <= i < 160 && 0 <= k < 154
    ensures TableEntry(i) == k <==> i == IndexOfEntry(k)
  {
    TableInverts(i);
    if k < 70 || 140 <= k < 147 { AssignmentsLandLow(k); } else { AssignmentsLandHigh(k); }
  }

  /** Cathode n of tube d is driven by exactly one register: the one the
      constructor assigned it to. */
  lemma CathodeRegister(registerNumber: uint8, d: int, n: int)
    requires 0 <= d < DigitCount as int && 0 <= n < 10
    ensures GetRegisterInfo(registerNumber) == RegisterInfo(Number, d, n) <==>
      registerNumber as int == TubeIndex(d, n) + 1
  {
    var k := CathodeEntry(d, n);
    assert k / 10 == d && k % 10 == n;
    assert IndexOfEntry(k) == TubeIndex(d, n);
    if InRange(registerNumber) {
      var i := registerNumber as int - 1;
      EntryAt(i, k);
      if GetRegisterInfo(registerNumber) == RegisterInfo(Number, d, n) {
        var e := TableEntry(i);
        assert 0 <= e < 140 && e / 10 == d && e % 10 == n;
        assert e == k;
      }
    } else {
      if 0 <= k < 70 { AssignmentsLandLow(k); } else { AssignmentsLandHigh(k); }
    }
  }

  /** The decimal point of tube d is driven by exactly one register. */
  lemma DecimalPointRegister(registerNumber: uint8, d: int)
    requires 0 <= d < DecimalPointCount as int
    ensures GetRegisterInfo(registerNumber) == RegisterInfo(DecimalPoint, d, 0) <==>
      registerNumber as int == TubeIndex(d, 10) + 1
  {
    var k := DecimalPointEntry(d);
    if InRange(registerNumber) {
      EntryAt(registerNumber as int - 1, k);
    } else {
      if k < 147 { AssignmentsLandLow(k); } else { AssignmentsLandHigh(k); }
    }
  }

  /** Registers 28, 29 and 30 drive the minus, plus and menu signs; 27, 31
      and 32 are wired to nothing in use. */
  lemma SignRegisters()
    ensures GetRegisterInfo(MinusSignIndex + 1) == RegisterInfo(MinusSign, SignDigit, 0)
    ensures GetRegisterInfo(PlusSignIndex + 1) == RegisterInfo(PlusSign, SignDigit, 0)
    ensures GetRegisterInfo(MenuSignIndex + 1) == RegisterInfo(MenuSign, SignDigit, 0)
    ensures forall i :: i in UnusedIndices ==> GetRegisterInfo(i + 1) == RegisterInfo(NotUsed, SignDigit, 0)
  {
  }
}

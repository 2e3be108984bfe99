/** The display handler: a string is written into the driver's buffers from
    its last character to its first, so that the text is right-aligned on
    the tubes. Digits take a position each, a decimal point lights the point
    of the digit to its left without taking a position, the signs take none,
    and any other character leaves its position blank. */
module DisplayHandler {
  import opened ArduinoTypes
  import opened DisplayHAL
  import opened DisplayDriver

  /** The driver state the handler writes: tubes, decimal points, signs. */
  datatype Buffers = Buffers(digits: seq<uint8>, points: seq<bool>, negativeSign: bool, plusSign: bool)

  /** The walk's state: the buffers, the position `digit` the next character
      goes to (it may run below zero), and whether the character just handled
      was a decimal point. */
  datatype Scanner = Scanner(buf: Buffers, cursor: int, prevDot: bool)

  predicate IsDigitChar(c: char) { '0' <= c <= '9' }

  function DigitValue(c: char): uint8
    requires IsDigitChar(c)
  {
    (c as int - '0' as int) as uint8
  }

  /** A bounded setter called with an `int` position: the position is
      converted to `uint8_t`, and the slot is written only if it exists. */
  function SetSlot<T>(slots: seq<T>, position: int, value: T): (r: seq<T>)
    ensures |r| == |slots|
  {
    if ToUint8(position) < |slots| then slots[ToUint8(position) := value] else slots
  }

  /** The value every tube holds before the walk: 0 with left zero padding,
      dark otherwise. */
  function PadValue(leftZeroPadding: bool): uint8
  {
    if leftZeroPadding then 0 else DigitOff
  }

  /** `clear`, then with left zero padding every digit set to 0; the plus sign
      is kept, as the driver's `clear` does not know it. */
  function Cleared(b: Buffers, leftZeroPadding: bool): Buffers
  {
    Buffers(seq(|b.digits|, _ => PadValue(leftZeroPadding)), seq(|b.points|, _ => false), false, b.plusSign)
  }

  /** One character of the walk. */
  function Step(sc: Scanner, c: char): (r: Scanner)
    ensures |r.buf.digits| == |sc.buf.digits| && |r.buf.points| == |sc.buf.points|
  {
    if c == '-' then
      sc.(buf := sc.buf.(negativeSign := true), prevDot := false)
    else if c == '+' then
      sc.(buf := sc.buf.(plusSign := true), prevDot := false)
    else if c == '.' then
      var position := if sc.prevDot then sc.cursor - 1 else sc.cursor;
      Scanner(sc.buf.(points := SetSlot(sc.buf.points, position, true)), position, true)
    else if IsDigitChar(c) then
      Scanner(sc.buf.(digits := SetSlot(sc.buf.digits, sc.cursor, DigitValue(c))), sc.cursor - 1, false)
    else
      Scanner(sc.buf, sc.cursor - 1, false)
  }

  /** The walk over `s`, last character first. */
  function ScanBack(sc: Scanner, s: string): (r: Scanner)
    ensures |r.buf.digits| == |sc.buf.digits| && |r.buf.points| == |sc.buf.points|
    decreases |s|
  {
    if s == [] then sc else ScanBack(Step(sc, s[|s| - 1]), s[..|s| - 1])
  }

  /** The buffers after `show(s, leftZeroPadding)`. */
  function Shown(b: Buffers, s: string, leftZeroPadding: bool): Buffers
  {
    ScanBack(Scanner(Cleared(b, leftZeroPadding), |b.digits| - 1, false), s).buf
  }

  /** The walk over a concatenation is the walk over the right part, then
      over the left part. */
  lemma {:induction false} ScanAppend(sc: Scanner, p: string, q: string)
    ensures ScanBack(sc, p + q) == ScanBack(ScanBack(sc, q), p)
    decreases |q|
  {
    if q == [] {
      assert p + q == p;
    } else {
      var last := q[|q| - 1];
      assert (p + q)[|p + q| - 1] == last;
      assert (p + q)[..|p + q| - 1] == p + q[..|q| - 1];
      ScanAppend(Step(sc, last), p, q[..|q| - 1]);
    }
  }

  /** The minus sign ends up lit exactly when the string has a '-'; the plus
      sign when it has a '+' or was already lit. No other character touches
      the signs. */
  lemma {:induction false} ScanSigns(sc: Scanner, s: string)
    ensures ScanBack(sc, s).buf.negativeSign <==> sc.buf.negativeSign || '-' in s
    ensures ScanBack(sc, s).buf.plusSign <==> sc.buf.plusSign || '+' in s
    decreases |s|
  {
    if s != [] {
      var init := s[..|s| - 1];
      ScanSigns(Step(sc, s[|s| - 1]), init);
      assert s == init + [s[|s| - 1]];
      assert forall c :: c in s <==> c in init || c == s[|s| - 1];
    }
  }

  lemma SignsOfShownString(b: Buffers, s: string, leftZeroPadding: bool)
    ensures Shown(b, s, leftZeroPadding).negativeSign <==> '-' in s
    ensures Shown(b, s, leftZeroPadding).plusSign <==> b.plusSign || '+' in s
  {
    ScanSigns(Scanner(Cleared(b, leftZeroPadding), |b.digits| - 1, false), s);
  }

  /** The walk never switches a decimal point off. */
  lemma {:induction false} PointsStayLit(sc: Scanner, s: string, j: int)
    requires 0 <= j < |sc.buf.points| && sc.buf.points[j]
    ensures ScanBack(sc, s).buf.points[j]
    decreases |s|
  {
    if s != [] {
      PointsStayLit(Step(sc, s[|s| - 1]), s[..|s| - 1], j);
    }
  }

  /** Nothing right of the cursor changes, as long as no position that runs
      below zero wraps around, as a `uint8_t`, into the buffers: positions
      only move left, by at most one per character. */
  lemma {:induction false} ScanFrame(sc: Scanner, s: string)
    requires sc.cursor - |s| + Two8 >= |sc.buf.digits|
    ensures sc.cursor - |s| <= ScanBack(sc, s).cursor <= sc.cursor
    ensures forall j :: 0 <= j < |sc.buf.digits| && sc.cursor < j ==> ScanBack(sc, s).buf.digits[j] == sc.buf.digits[j]
    decreases |s|
  {
    if s != [] {
      ScanFrame(Step(sc, s[|s| - 1]), s[..|s| - 1]);
    }
  }

  /** A run of digits, from cursor c, fills positions c, c-1, ... right to
      left, and leaves the walk just left of the run, after a non-dot. */
  lemma {:induction false} DigitRun(sc: Scanner, q: string)
    requires forall k :: 0 <= k < |q| ==> IsDigitChar(q[k])
    requires sc.cursor < |sc.buf.digits| < Two8 && sc.cursor - |q| >= -1
    ensures ScanBack(sc, q).cursor == sc.cursor - |q|
    ensures ScanBack(sc, q).prevDot == (sc.prevDot && q == [])
    ensures ScanBack(sc, q).buf.points == sc.buf.points
    ensures forall j :: 0 <= j < |sc.buf.digits| ==>
      ScanBack(sc, q).buf.digits[j] ==
        if sc.cursor - |q| < j <= sc.cursor then DigitValue(q[j - sc.cursor + |q| - 1]) else sc.buf.digits[j]
    decreases |q|
  {
    if q != [] {
      var last := q[|q| - 1];
      var init := q[..|q| - 1];
      var next := Step(sc, last);
      assert next.buf.digits == sc.buf.digits[sc.cursor := DigitValue(last)];
      DigitRun(next, init);
    }
  }

  /** A string of digits no longer than the display is right-aligned: the
      last character lands on the rightmost tube and every tube left of the
      text keeps its padding value. */
  lemma DigitStringRightAligned(b: Buffers, s: string, leftZeroPadding: bool)
    requires forall k :: 0 <= k < |s| ==> IsDigitChar(s[k])
    requires |s| <= |b.digits| < Two8
    ensures var shown := Shown(b, s, leftZeroPadding);
      forall j :: 0 <= j < |b.digits| ==>
        shown.digits[j] == if j < |b.digits| - |s| then PadValue(leftZeroPadding) else DigitValue(s[j - |b.digits| + |s|])
  {
    DigitRun(Scanner(Cleared(b, leftZeroPadding), |b.digits| - 1, false), s);
  }

  /** A character that is neither a sign nor a decimal point, followed by a
      run of digits shorter than the display, takes the position just left of
      that run: a digit sets it to its value, anything else leaves the
      padding value there. So the last character lands at digitCount - 1. */
  lemma CharacterPosition(b: Buffers, p: string, c: char, q: string, leftZeroPadding: bool)
    requires c != '-' && c != '+' && c != '.'
    requires forall k :: 0 <= k < |q| ==> IsDigitChar(q[k])
    requires |q| < |b.digits| < Two8
    requires |p| + 1 + |q| <= Two8 - 1
    ensures Shown(b, p + [c] + q, leftZeroPadding).digits[|b.digits| - 1 - |q|] ==
      if IsDigitChar(c) then DigitValue(c) else PadValue(leftZeroPadding)
  {
    var start := Scanner(Cleared(b, leftZeroPadding), |b.digits| - 1, false);
    var position := |b.digits| - 1 - |q|;
    ScanAppend(start, p + [c], q);
    var afterRun := ScanBack(start, q);
    DigitRun(start, q);
    ScanAppend(afterRun, p, [c]);
    var afterC := ScanBack(afterRun, [c]);
    assert afterC == Step(afterRun, c);
    assert afterC.buf.digits[position] == if IsDigitChar(c) then DigitValue(c) else PadValue(leftZeroPadding);
    ScanFrame(afterC, p);
  }

  /** A decimal point followed by a run of digits shorter than the display
      lights the point of the position just left of the run, the digit it
      follows in the string; nothing later switches it off. */
  lemma PointLightsDigitToItsLeft(b: Buffers, p: string, q: string, leftZeroPadding: bool)
    requires forall k :: 0 <= k < |q| ==> IsDigitChar(q[k])
    requires |q| < |b.digits| <= |b.points| < Two8
    ensures Shown(b, p + ['.'] + q, leftZeroPadding).points[|b.digits| - 1 - |q|]
  {
    var start := Scanner(Cleared(b, leftZeroPadding), |b.digits| - 1, false);
    ScanAppend(start, p + ['.'], q);
    var afterRun := ScanBack(start, q);
    DigitRun(start, q);
    ScanAppend(afterRun, p, ['.']);
    var afterDot := ScanBack(afterRun, ['.']);
    assert afterDot == Step(afterRun, '.');
    PointsStayLit(afterDot, p, |b.digits| - 1 - |q|);
  }

  /** Two decimal points in a row: the second one (the left one) steps one
      position left before lighting its point. */
  lemma DoubleDotStepsLeft(sc: Scanner)
    requires 0 < sc.cursor < |sc.buf.points| < Two8 && !sc.prevDot
    ensures ScanBack(sc, "..").buf.points[sc.cursor] && ScanBack(sc, "..").buf.points[sc.cursor - 1]
    ensures ScanBack(sc, "..").cursor == sc.cursor - 1
  {
    var one := Step(sc, '.');
    assert ScanBack(sc, "..") == ScanBack(one, ".");
    assert ScanBack(one, ".") == Step(one, '.');
  }

  /** `DisplayHandler` extends the driver; here it owns one. */
  class DisplayHandler {
    const driver: DisplayDriver

    constructor (digitCount: uint8, decimalPointCount: uint8)
      ensures fresh(driver) && fresh(driver.digits) && fresh(driver.decimalPoints)
      ensures driver.Valid() && driver.digitCount == digitCount && driver.decimalPointCount == decimalPointCount
    {
      driver := new DisplayDriver(digitCount, decimalPointCount);
    }

    /** The driver state as a value. */
    function Snapshot(): Buffers
      reads this, driver, driver.digits, driver.decimalPoints
    {
      Buffers(driver.Digits(), driver.Points(), driver.negativeSign, driver.plusSign)
    }

    /** The padding loop of `show`: every digit set to 0. */
    method ZeroPad()
      requires driver.Valid()
      modifies driver.digits
      ensures driver.Digits() == seq(driver.digitCount as int, _ => 0)
    {
      var i: uint8 := 0;
      while i < driver.digitCount
        invariant i <= driver.digitCount
        invariant forall j :: 0 <= j < i as int ==> driver.digits[j] == 0
      {
        driver.SetDigit(i, 0);
        i := i + 1;
      }
    }

    /** One case of the switch in `show`: the character's effect on the
        buffers, the position and the decimal-point flag. */
    method ShowCharacter(c: char, digit: int, prevDot: bool) returns (digit': int, prevDot': bool)
      requires driver.Valid()
      modifies driver, driver.digits, driver.decimalPoints
      ensures Scanner(Snapshot(), digit', prevDot') == Step(Scanner(old(Snapshot()), digit, prevDot), c)
    {
      digit' := digit;
      if c == '-' {
        driver.SetNegativeSign(true);
        prevDot' := false;
      } else if c == '+' {
        driver.SetPlusSign(true);
        prevDot' := false;
      } else if c == '.' {
        if prevDot {
          digit' := digit - 1;
        }
        driver.SetDecimalPoint(ToUint8(digit'), true);
        prevDot' := true;
      } else if '0' <= c <= '9' {
        driver.SetDigit(ToUint8(digit), (c as int - '0' as int) as uint8);
        digit' := digit - 1;
        prevDot' := false;
      } else {
        digit' := digit - 1;
        prevDot' := false;
      }
    }

    /** `show(s, leftZeroPadding)`: clears, optionally pads with zeros, walks
        the string from its end, then refreshes the tubes through `hal`. The
        walk's position is a C `int`, passed to the setters as `uint8_t`. */
    method Show(s: string, leftZeroPadding: bool, hal: HAL) returns (bits: seq<bool>)
      requires driver.Valid()
      requires FitsBuffers(hal, driver.digitCount as int, driver.decimalPointCount as int)
      modifies driver, driver.digits, driver.decimalPoints
      ensures Snapshot() == Shown(old(Snapshot()), s, leftZeroPadding)
      ensures bits == CommitBits(hal, driver.Digits(), driver.Points(), driver.negativeSign, RegisterCount as int)
    {
      ghost var initial := Snapshot();
      var prevDot := false;
      driver.Clear();
      if leftZeroPadding {
        ZeroPad();
      }
      assert Snapshot() == Cleared(initial, leftZeroPadding);
      var digit: int := driver.digitCount as int - 1;
      ghost var target := ScanBack(Scanner(Snapshot(), digit, false), s);
      var i: int := |s| - 1;
      assert s[..i + 1] == s;
      while i >= 0
        invariant -1 <= i < |s|
        invariant ScanBack(Scanner(Snapshot(), digit, prevDot), s[..i + 1]) == target
      {
        assert s[..i + 1][..i] == s[..i];
        digit, prevDot := ShowCharacter(s[i], digit, prevDot);
        i := i - 1;
      }
      bits := driver.CommitToRegisters(hal);
    }
  }
}

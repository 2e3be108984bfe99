/** The settings menu: a cursor over the settings in id order that stops at
    both ends, +/- editing of the current setting's temporary value (numbers
    by one within their range, times and colours one part at a time, each
    part clamped), and commit, revert and reset of the stored value. Colours
    are packed as 0xRRGGBB and times as minutes since midnight. */
module MenuHandler {
  import opened ArduinoTypes
  import opened KeyboardHandler
  import S = Setting

  datatype RgbPart = Red | Green | Blue
  datatype TimePart = Hours | Minutes

  datatype Rgb = Rgb(red: uint8, green: uint8, blue: uint8)
  datatype TimeOfDay = TimeOfDay(hours: uint8, minutes: uint8)

  /** `rgbToInt`. */
  function RgbToInt(red: uint8, green: uint8, blue: uint8): (v: int)
    ensures 0 <= v <= S.MaxRgbInt
  {
    red * 256 * 256 + green * 256 + blue
  }

  /** `intToRGB`: `& 255` after an arithmetic `>>` on a two's complement
      `int` is the Euclidean remainder of the floored quotient. Blue and
      green are the low 16 bits, red the byte above them. */
  function IntToRgb(value: int): (c: Rgb)
    ensures c.green * 256 + c.blue == value % 0x1_0000
    ensures 0 <= value <= S.MaxRgbInt ==> c.red == value / 0x1_0000
  {
    var q := value / 256;
    assert value == q * 256 + value % 256;
    assert q == (q / 256) * 256 + q % 256;
    assert value / 0x1_0000 == q / 256;
    assert value == (q / 256) * 0x1_0000 + (q % 256 * 256 + value % 256);
    Rgb((value / 0x1_0000) % 256, (value / 256) % 256, value % 256)
  }

  /** `timeToInt`: minutes since midnight; with a valid minute the hours
      are the quotient by 60 and the minutes the remainder. */
  function TimeToInt(hours: uint8, minutes: uint8): (v: int)
    ensures 0 <= v
    ensures minutes < 60 ==> v / 60 == hours && v % 60 == minutes
  {
    var v := hours * 60 + minutes;
    if minutes < 60 then DivOfMultiple(hours, minutes); v else v
  }

  /** `intToTime`: C division and remainder, stored into `uint8_t`s. A
      time of day comes out as hours and minutes; a small negative value
      gives hour 0 and a minute byte that has wrapped past 195. */
  function IntToTime(value: int): (t: TimeOfDay)
    ensures 0 <= value <= S.MaxTimeInt ==> t.hours as int == value / 60 <= 23 && t.minutes as int == value % 60
    ensures -60 < value < 0 ==> t.hours == 0 && t.minutes as int == value + 256
  {
    TimeOfDay(ToUint8(CDiv(value, 60)), ToUint8(CMod(value, 60)))
  }

  /** Unpacking a packed colour gives back its three bytes. */
  lemma RgbRoundTrip(red: uint8, green: uint8, blue: uint8)
    ensures IntToRgb(RgbToInt(red, green, blue)) == Rgb(red, green, blue)
  {
    var v := RgbToInt(red, green, blue);
    assert v == (red * 256 + green) * 256 + blue;
    assert v / 256 == red * 256 + green;
    assert v % 256 == blue;
    assert (red * 256 + green) % 256 == green;
    assert v / 0x1_0000 == (v / 256) / 256;
    assert (red * 256 + green) / 256 == red;
  }

  /** Every value 0..MAX_RGB_INT is the packing of its own unpacking. */
  lemma RgbUnpackRoundTrip(value: int)
    requires 0 <= value <= S.MaxRgbInt
    ensures var c := IntToRgb(value); RgbToInt(c.red, c.green, c.blue) == value
  {
    var q := value / 256;
    assert value == q * 256 + value % 256;
    assert q == (q / 256) * 256 + q % 256;
    assert value / 0x1_0000 == q / 256;
    assert q / 256 < 256;
  }

  /** Unpacking a packed time gives back its hours and minutes; 23:59 packs
      to MAX_TIME_INT. */
  lemma TimeRoundTrip(hours: uint8, minutes: uint8)
    requires minutes < 60
    ensures IntToTime(TimeToInt(hours, minutes)) == TimeOfDay(hours, minutes)
    ensures TimeToInt(23, 59) == S.MaxTimeInt
  {
    var v := TimeToInt(hours, minutes);
    assert v / 60 == hours by {
      DivOfMultiple(hours, minutes);
    }
    assert CDiv(v, 60) == hours;
    assert CMod(v, 60) == minutes;
  }

  /** Every value 0..MAX_TIME_INT is the packing of its own unpacking, with
      hours at most 23 and minutes at most 59. */
  lemma TimeUnpackRoundTrip(value: int)
    requires 0 <= value <= S.MaxTimeInt
    ensures var t := IntToTime(value);
      t.hours <= 23 && t.minutes <= 59 && TimeToInt(t.hours, t.minutes) == value
  {
    var q, r := value / 60, value % 60;
    assert value == q * 60 + r && 0 <= r < 60;
    assert 0 <= q <= 23;
    assert CDiv(value, 60) == q;
    assert CMod(value, 60) == r;
    assert IntToTime(value) == TimeOfDay(q, r);
  }

  lemma DivOfMultiple(q: nat, r: nat)
    requires r < 60
    ensures (q * 60 + r) / 60 == q
  {
  }

  /** One step up or down, stopping at the given end. */
  function Up(x: uint8, top: uint8): uint8 { if x < top then x + 1 else x }

  function Down(x: uint8): uint8 { if x > 0 then x - 1 else x }

  /** The new temporary value `setNextValue` (up) or `setPrevValue` (down)
      offers for a time: only the selected part moves. */
  function TimeCandidate(temp: int, part: TimePart, up: bool): int
  {
    var t := IntToTime(temp);
    match part
    case Hours => TimeToInt(if up then Up(t.hours, 23) else Down(t.hours), t.minutes)
    case Minutes => TimeToInt(t.hours, if up then Up(t.minutes, 59) else Down(t.minutes))
  }

  function RgbCandidate(temp: int, part: RgbPart, up: bool): int
  {
    var c := IntToRgb(temp);
    match part
    case Red => RgbToInt(if up then Up(c.red, 255) else Down(c.red), c.green, c.blue)
    case Green => RgbToInt(c.red, if up then Up(c.green, 255) else Down(c.green), c.blue)
    case Blue => RgbToInt(c.red, c.green, if up then Up(c.blue, 255) else Down(c.blue))
  }

  /** `setNextValue` (up) and `setPrevValue` (down) on a setting's values. */
  function Edited(kind: S.SettingType, lim: S.Limits, s: S.Values, rgbPart: RgbPart, timePart: TimePart, up: bool): S.Values
  {
    match kind
    case Numeric =>
      if up then (if s.tempValue < lim.maxValue then S.WithTemp(lim, s, s.tempValue + 1) else s)
      else (if s.tempValue > lim.minValue then S.WithTemp(lim, s, s.tempValue - 1) else s)
    case Time => S.WithTemp(lim, s, TimeCandidate(s.tempValue, timePart, up))
    case Rgb => S.WithTemp(lim, s, RgbCandidate(s.tempValue, rgbPart, up))
  }

  /** Editing touches only the temporary value, and keeps it in range. */
  lemma EditingKeepsStoredValue(kind: S.SettingType, lim: S.Limits, s: S.Values, rgbPart: RgbPart, timePart: TimePart, up: bool)
    requires S.InBounds(lim, s)
    ensures var e := Edited(kind, lim, s, rgbPart, timePart, up);
      e.value == s.value && e.modified == s.modified && S.InBounds(lim, e)
  {
  }

  /** A number steps by one only while strictly inside its range. */
  lemma NumericEditing(lim: S.Limits, s: S.Values, up: bool)
    requires S.InBounds(lim, s)
    ensures Edited(S.Numeric, lim, s, Red, Hours, up).tempValue ==
      if up && s.tempValue < lim.maxValue then s.tempValue + 1
      else if !up && s.tempValue > lim.minValue then s.tempValue - 1
      else s.tempValue
  {
  }

  /** For a time setting whose range is every time of day, the selected part
      moves by one and stops at 0 and at 23 or 59; the other part stays. */
  lemma TimeEditing(lim: S.Limits, s: S.Values, part: TimePart, up: bool)
    requires lim.minValue <= 0 && S.MaxTimeInt <= lim.maxValue
    requires 0 <= s.tempValue <= S.MaxTimeInt
    ensures var t := IntToTime(s.tempValue);
      var t' := IntToTime(Edited(S.Time, lim, s, Red, part, up).tempValue);
      t'.hours == (if part == Hours then (if up then Up(t.hours, 23) else Down(t.hours)) else t.hours) &&
      t'.minutes == (if part == Minutes then (if up then Up(t.minutes, 59) else Down(t.minutes)) else t.minutes)
    ensures 0 <= Edited(S.Time, lim, s, Red, part, up).tempValue <= S.MaxTimeInt
  {
    var t := IntToTime(s.tempValue);
    TimeUnpackRoundTrip(s.tempValue);
    var h := if part == Hours then (if up then Up(t.hours, 23) else Down(t.hours)) else t.hours;
    var m := if part == Minutes then (if up then Up(t.minutes, 59) else Down(t.minutes)) else t.minutes;
    assert TimeCandidate(s.tempValue, part, up) == TimeToInt(h, m);
    TimeRoundTrip(h, m);
  }

  /** For a colour setting whose range is every colour, the selected
      component moves by one and stops at 0 and 255; the others stay. */
  lemma RgbEditing(lim: S.Limits, s: S.Values, part: RgbPart, up: bool)
    requires lim.minValue <= 0 && S.MaxRgbInt <= lim.maxValue
    ensures var c := IntToRgb(s.tempValue);
      var c' := IntToRgb(Edited(S.Rgb, lim, s, part, Hours, up).tempValue);
      c'.red == (if part == Red then (if up then Up(c.red, 255) else Down(c.red)) else c.red) &&
      c'.green == (if part == Green then (if up then Up(c.green, 255) else Down(c.green)) else c.green) &&
      c'.blue == (if part == Blue then (if up then Up(c.blue, 255) else Down(c.blue)) else c.blue)
  {
    var c := IntToRgb(s.tempValue);
    var r := if part == Red then (if up then Up(c.red, 255) else Down(c.red)) else c.red;
    var g := if part == Green then (if up then Up(c.green, 255) else Down(c.green)) else c.green;
    var b := if part == Blue then (if up then Up(c.blue, 255) else Down(c.blue)) else c.blue;
    assert RgbCandidate(s.tempValue, part, up) == RgbToInt(r, g, b);
    RgbRoundTrip(r, g, b);
  }

  /** `setNextSetting`: step the map iterator, and step back from `end()`. */
  function NextIndex(i: nat, count: nat): nat
  {
    var j := if i != count then i + 1 else i;
    if j == count && j > 0 then j - 1 else j
  }

  /** `setPrevSetting`: step back unless at `begin()`. */
  function PrevIndex(i: nat): nat
  {
    if i != 0 then i - 1 else i
  }

  /** The cursor moves by one and saturates at the last and the first
      setting; it never leaves the settings. */
  lemma CursorSaturates(i: nat, count: nat)
    requires i < count
    ensures NextIndex(i, count) == if i + 1 < count then i + 1 else count - 1
    ensures PrevIndex(i) == if i > 0 then i - 1 else 0
    ensures NextIndex(i, count) < count && PrevIndex(i) < count
  {
  }

  /** `commitValue` moves the colour part on, red to green to blue to red. */
  function NextRgbPart(p: RgbPart): RgbPart
  {
    match p
    case Red => Green
    case Green => Blue
    case Blue => Red
  }

  function NextTimePart(p: TimePart): TimePart
  {
    if p == Hours then Minutes else Hours
  }

  /** Three commits bring the colour part back, two the time part, and each
      commit moves it. */
  lemma PartsCycle(p: RgbPart, t: TimePart)
    ensures NextRgbPart(NextRgbPart(NextRgbPart(p))) == p
    ensures NextRgbPart(p) != p && NextRgbPart(NextRgbPart(p)) != p
    ensures NextTimePart(NextTimePart(t)) == t && NextTimePart(t) != t
  {
  }

  /** Committing an in-range temporary value stores it; reverting makes the
      temporary value the stored one again; resetting stores the default and
      loads it for editing. */
  lemma CommitRevertReset(lim: S.Limits, s: S.Values)
    requires S.InBounds(lim, s) && lim.Admits(lim.defaultValue)
    ensures S.Assigned(lim, s, s.tempValue).value == s.tempValue
    ensures S.Assigned(lim, s, s.tempValue).modified == (s.modified || s.tempValue != s.value)
    ensures S.WithTemp(lim, s, s.value).tempValue == s.value
    ensures var r := S.ResetToDefault(lim, s);
      S.WithTemp(lim, r, r.value) == S.Values(lim.defaultValue, lim.defaultValue, true)
  {
  }

  /** What `formatDisplay` leaves in `_red`, `_green`, `_blue`. */
  function Colours(kind: S.SettingType, temp: int): Rgb
  {
    if kind == S.Rgb then IntToRgb(temp) else Rgb(0, 0, 0)
  }

  datatype MenuAction = NextSetting | PrevSetting | PrevValue | NextValue | Commit | Revert | ResetValue | NoAction

  /** The key routing of `onKeyboardEvent`. */
  function ActionOf(keyCode: uint8, keyState: KeyState): MenuAction
  {
    if keyState == Pressed || keyState == AutoRepeat then
      if keyCode == KeyMPlus then NextSetting
      else if keyCode == KeyMMinus then PrevSetting
      else if keyCode == KeyMinus then PrevValue
      else if keyCode == KeyPlus then NextValue
      else if keyCode == KeyEquals then Commit
      else if keyCode == KeyC then Revert
      else if keyCode == KeyAC then ResetValue
      else NoAction
    else NoAction
  }

  /** Only pressed and autorepeat events act, each of the seven menu keys
      has its own action, and no other key does anything. */
  lemma Routing(keyCode: uint8, keyState: KeyState)
    ensures ActionOf(keyCode, keyState) != NoAction ==> keyState == Pressed || keyState == AutoRepeat
    ensures keyState == Pressed || keyState == AutoRepeat ==>
      (ActionOf(keyCode, keyState) != NoAction <==>
        keyCode in [KeyMPlus, KeyMMinus, KeyMinus, KeyPlus, KeyEquals, KeyC, KeyAC])
    ensures ActionOf(KeyC, Pressed) == Revert && ActionOf(KeyAC, AutoRepeat) == ResetValue
  {
  }

  class MenuHandler {
    /** The settings in the order of the settings map, that is by id. */
    const settings: seq<S.Setting>
    /** The position of the map iterator. */
    var index: nat
    var digitCount: uint8
    var rgbPart: RgbPart
    var timePart: TimePart
    var red: uint8
    var green: uint8
    var blue: uint8

    ghost predicate Valid()
      reads this
    {
      0 < |settings| && index < |settings| &&
      forall i, j :: 0 <= i < j < |settings| ==> settings[i] != settings[j]
    }

    function Current(): S.Setting
      reads this
      requires Valid()
    {
      settings[index]
    }

    /** The firmware leaves the iterator and the parts unset until `begin`. */
    constructor (settings: seq<S.Setting>)
      requires 0 < |settings| && forall i, j :: 0 <= i < j < |settings| ==> settings[i] != settings[j]
      ensures Valid() && this.settings == settings && index == 0 && digitCount == 0
    {
      this.settings := settings;
      index := 0;
      digitCount := 0;
      rgbPart := Red;
      timePart := Hours;
      red, green, blue := 0, 0, 0;
    }

    /** The colour side of `formatDisplay`; the text layout is not modelled. */
    method FormatDisplay()
      requires Valid()
      modifies this
      ensures Valid() && index == old(index) && rgbPart == old(rgbPart) && timePart == old(timePart)
      ensures digitCount == old(digitCount)
      ensures Rgb(red, green, blue) == Colours(Current().settingType, Current().tempValue)
    {
      var r, g, b := 0, 0, 0;
      if Current().settingType == S.Rgb {
        var c := IntToRgb(Current().tempValue);
        r, g, b := c.red, c.green, c.blue;
      }
      red, green, blue := r, g, b;
    }

    /** Loads the stored value of the current setting for editing. */
    method Reload()
      requires Valid()
      modifies Current()
      ensures Current().State() == S.WithTemp(Current().limits, old(Current().State()), old(Current().value))
    {
      Current().SetTempValue(Current().value);
    }

    method Begin(digitCount: uint8)
      requires Valid()
      modifies this, settings[0]
      ensures Valid() && index == 0 && this.digitCount == digitCount
      ensures rgbPart == Red && timePart == Hours
      ensures var c := Current(); c.State() == S.WithTemp(c.limits, old(c.State()), old(c.value))
      ensures Rgb(red, green, blue) == Colours(Current().settingType, Current().tempValue)
    {
      index := 0;
      this.digitCount := digitCount;
      Reload();
      FormatDisplay();
      rgbPart := Red;
      timePart := Hours;
    }

    method SetNextSetting()
      requires Valid()
      modifies this, settings
      ensures Valid() && index == NextIndex(old(index), |settings|)
      ensures rgbPart == Red && timePart == Hours && digitCount == old(digitCount)
      ensures var c := Current(); c.State() == S.WithTemp(c.limits, old(c.State()), old(c.value))
      ensures forall j :: 0 <= j < |settings| && j != index ==> settings[j].State() == old(settings[j].State())
      ensures Rgb(red, green, blue) == Colours(Current().settingType, Current().tempValue)
    {
      if index != |settings| {
        index := index + 1;
      }
      if index == |settings| {
        index := index - 1;
      }
      Reload();
      rgbPart := Red;
      timePart := Hours;
      FormatDisplay();
    }

    method SetPrevSetting()
      requires Valid()
      modifies this, settings
      ensures Valid() && index == PrevIndex(old(index))
      ensures rgbPart == Red && timePart == Hours && digitCount == old(digitCount)
      ensures var c := Current(); c.State() == S.WithTemp(c.limits, old(c.State()), old(c.value))
      ensures forall j :: 0 <= j < |settings| && j != index ==> settings[j].State() == old(settings[j].State())
      ensures Rgb(red, green, blue) == Colours(Current().settingType, Current().tempValue)
    {
      if index != 0 {
        index := index - 1;
      }
      Reload();
      rgbPart := Red;
      timePart := Hours;
      FormatDisplay();
    }

    /** `setNextValue` (up) and `setPrevValue` (down). */
    method StepValue(up: bool)
      requires Valid()
      modifies this, Current()
      ensures Valid() && index == old(index) && rgbPart == old(rgbPart) && timePart == old(timePart)
      ensures Current().State() ==
        Edited(Current().settingType, Current().limits, old(Current().State()), rgbPart, timePart, up)
      ensures Rgb(red, green, blue) == Colours(Current().settingType, Current().tempValue)
    {
      var setting := Current();
      match setting.settingType {
        case Numeric =>
          if up && setting.tempValue < setting.limits.maxValue {
            setting.SetTempValue(setting.tempValue + 1);
          } else if !up && setting.tempValue > setting.limits.minValue {
            setting.SetTempValue(setting.tempValue - 1);
          }
        case Time =>
          var t := IntToTime(setting.tempValue);
          var hours, minutes := t.hours, t.minutes;
          if timePart == Hours {
            if up && hours < 23 {
              hours := hours + 1;
            } else if !up && hours > 0 {
              hours := hours - 1;
            }
          } else {
            if up && minutes < 59 {
              minutes := minutes + 1;
            } else if !up && minutes > 0 {
              minutes := minutes - 1;
            }
          }
          setting.SetTempValue(TimeToInt(hours, minutes));
        case Rgb =>
          var c := IntToRgb(setting.tempValue);
          var r, g, b := c.red, c.green, c.blue;
          match rgbPart {
            case Red => r := if up then Up(r, 255) else Down(r);
            case Green => g := if up then Up(g, 255) else Down(g);
            case Blue => b := if up then Up(b, 255) else Down(b);
          }
          setting.SetTempValue(RgbToInt(r, g, b));
      }
      FormatDisplay();
    }

    /** `commitValue`: stores the temporary value and moves to the next part. */
    method CommitValue()
      requires Valid()
      modifies this, Current()
      ensures Valid() && index == old(index)
      ensures Current().State() == S.Assigned(Current().limits, old(Current().State()), old(Current().tempValue))
      ensures timePart == if Current().settingType == S.Time then NextTimePart(old(timePart)) else old(timePart)
      ensures rgbPart == if Current().settingType == S.Rgb then NextRgbPart(old(rgbPart)) else old(rgbPart)
      ensures Rgb(red, green, blue) == Colours(Current().settingType, Current().tempValue)
    {
      var setting := Current();
      setting.Set(setting.tempValue);
      if setting.settingType == S.Time {
        if timePart == Hours {
          timePart := Minutes;
        } else {
          timePart := Hours;
        }
      } else if setting.settingType == S.Rgb {
        rgbPart := NextRgbPart(rgbPart);
      }
      FormatDisplay();
    }

    /** `revertValue`: the temporary value goes back to the stored one. */
    method RevertValue()
      requires Valid()
      modifies this, Current()
      ensures Valid() && index == old(index) && rgbPart == old(rgbPart) && timePart == old(timePart)
      ensures Current().State() == S.WithTemp(Current().limits, old(Current().State()), old(Current().value))
      ensures Rgb(red, green, blue) == Colours(Current().settingType, Current().tempValue)
    {
      Reload();
      FormatDisplay();
    }

    /** `resetValue`: the stored value goes back to the default, which is
        then loaded for editing. */
    method ResetValue()
      requires Valid()
      modifies this, Current()
      ensures Valid() && index == old(index) && rgbPart == old(rgbPart) && timePart == old(timePart)
      ensures var r := S.ResetToDefault(Current().limits, old(Current().State()));
        Current().State() == S.WithTemp(Current().limits, r, r.value)
      ensures Rgb(red, green, blue) == Colours(Current().settingType, Current().tempValue)
    {
      Current().Reset();
      Reload();
      FormatDisplay();
    }

    /** `onKeyboardEvent`: the function key plays no part. */
    method OnKeyboardEvent(keyCode: uint8, keyState: KeyState, functionKeyPressed: bool) returns (action: MenuAction)
      requires Valid()
      modifies this, settings
      ensures Valid() && action == ActionOf(keyCode, keyState)
      ensures action == NoAction ==> unchanged(this) && forall j :: 0 <= j < |settings| ==> settings[j].State() == old(settings[j].State())
      ensures action == NextSetting || action == PrevSetting ==>
        index == (if action == NextSetting then NextIndex(old(index), |settings|) else PrevIndex(old(index)))
        && rgbPart == Red && timePart == Hours
        && (var c := Current(); c.State() == S.WithTemp(c.limits, old(c.State()), old(c.value)))
      ensures action == PrevValue || action == NextValue ==>
        index == old(index) && rgbPart == old(rgbPart) && timePart == old(timePart)
        && Current().State() ==
             Edited(Current().settingType, Current().limits, old(Current().State()), rgbPart, timePart, action == NextValue)
      ensures action == Commit ==>
        index == old(index)
        && Current().State() == S.Assigned(Current().limits, old(Current().State()), old(Current().tempValue))
        && timePart == (if Current().settingType == S.Time then NextTimePart(old(timePart)) else old(timePart))
        && rgbPart == (if Current().settingType == S.Rgb then NextRgbPart(old(rgbPart)) else old(rgbPart))
      ensures action == Revert ==>
        index == old(index) && rgbPart == old(rgbPart) && timePart == old(timePart)
        && Current().State() == S.WithTemp(Current().limits, old(Current().State()), old(Current().value))
      ensures action == MenuAction.ResetValue ==>
        index == old(index) && rgbPart == old(rgbPart) && timePart == old(timePart)
        && (var r := S.ResetToDefault(Current().limits, old(Current().State()));
            Current().State() == S.WithTemp(Current().limits, r, r.value))
      ensures forall j :: 0 <= j < |settings| && j != index ==> settings[j].State() == old(settings[j].State())
      ensures action != NoAction ==> Rgb(red, green, blue) == Colours(Current().settingType, Current().tempValue)
    {
      action := ActionOf(keyCode, keyState);
      match action {
        case NextSetting => SetNextSetting();
        case PrevSetting => SetPrevSetting();
        case PrevValue => StepValue(false);
        case NextValue => StepValue(true);
        case Commit => CommitValue();
        case Revert => RevertValue();
        case ResetValue => ResetValue();
        case NoAction =>
      }
    }
  }
}

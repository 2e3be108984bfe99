/** One persistent setting of the settings menu: a stored value, a temporary
    value being edited, both gated by the setting's range, and a flag that
    records whether the stored value needs saving. */
module Setting {

  /** Largest packed 24-bit colour, `MAX_RGB_INT`. */
  const MaxRgbInt: int := 16777215
  /** Largest packed time of day in minutes (23:59), `MAX_TIME_INT`. */
  const MaxTimeInt: int := 1439

  datatype SettingType = Time | Rgb | Numeric

  /** The constant part of a setting. */
  datatype Limits = Limits(defaultValue: int, minValue: int, maxValue: int)
  {
    predicate Admits(v: int) { minValue <= v <= maxValue }
  }

  /** The part the setter methods change. */
  datatype Values = Values(value: int, tempValue: int, modified: bool)

  /** A freshly constructed setting: the default, marked modified. */
  function Initial(lim: Limits, tempValue: int): (s: Values)
    ensures s.value == lim.defaultValue && s.modified
  {
    Values(lim.defaultValue, tempValue, true)
  }

  /** `setTempValue`: takes a value exactly when it is in range, and
      changes nothing else. */
  function WithTemp(lim: Limits, s: Values, v: int): (r: Values)
    ensures r.value == s.value && r.modified == s.modified
    ensures lim.Admits(v) ==> r.tempValue == v
    ensures !lim.Admits(v) ==> r == s
  {
    if v <= lim.maxValue && v >= lim.minValue then s.(tempValue := v) else s
  }

  /** `set`: changes the setting exactly when the value is new and in
      range, and then stores it and raises the flag; the temporary value is
      never touched. */
  function Assigned(lim: Limits, s: Values, v: int): (r: Values)
    ensures r != s <==> v != s.value && lim.Admits(v)
    ensures r != s ==> r == Values(v, s.tempValue, true)
    ensures r.tempValue == s.tempValue
    ensures r.value == v <==> v == s.value || lim.Admits(v)
  {
    if v != s.value && v <= lim.maxValue && v >= lim.minValue then s.(value := v, modified := true) else s
  }

  /** `reset`. */
  function ResetToDefault(lim: Limits, s: Values): Values
  {
    s.(value := lim.defaultValue, modified := true)
  }

  /** `resetModified`. */
  function Saved(s: Values): Values
  {
    s.(modified := false)
  }

  /** Both values within the range. */
  predicate InBounds(lim: Limits, s: Values)
  {
    lim.Admits(s.value) && lim.Admits(s.tempValue)
  }

  /** Setting the same value twice is setting it once. */
  lemma AssignIdempotent(lim: Limits, s: Values, v: int)
    ensures Assigned(lim, Assigned(lim, s, v), v) == Assigned(lim, s, v)
    ensures WithTemp(lim, WithTemp(lim, s, v), v) == WithTemp(lim, s, v)
  {
  }

  /** With a default inside the range, every operation keeps both values
      inside it. */
  lemma OperationsKeepBounds(lim: Limits, s: Values, v: int)
    requires lim.Admits(lim.defaultValue) && InBounds(lim, s)
    ensures InBounds(lim, WithTemp(lim, s, v))
    ensures InBounds(lim, Assigned(lim, s, v))
    ensures InBounds(lim, ResetToDefault(lim, s))
    ensures InBounds(lim, Saved(s))
  {
  }

  /** `reset` restores the default and raises the flag even when the value
      was already the default; `resetModified` touches only the flag. */
  lemma ResetAndSave(lim: Limits, s: Values)
    ensures ResetToDefault(lim, s).value == lim.defaultValue && ResetToDefault(lim, s).modified
    ensures ResetToDefault(lim, s).tempValue == s.tempValue
    ensures !Saved(s).modified && Saved(s).value == s.value && Saved(s).tempValue == s.tempValue
  {
  }

  class Setting {
    /** The `setting_id`: the key the settings map is ordered by. */
    const id: nat
    const settingType: SettingType
    const limits: Limits
    var value: int
    var tempValue: int
    var modified: bool

    function State(): Values
      reads this
    {
      Values(value, tempValue, modified)
    }

    /** The firmware leaves the temporary value unset until the menu loads
        it; here it starts at the default. */
    constructor (id: nat, settingType: SettingType, defaultValue: int, minValue: int, maxValue: int)
      ensures this.id == id && this.settingType == settingType
      ensures limits == Limits(defaultValue, minValue, maxValue)
      ensures State() == Initial(limits, defaultValue)
    {
      this.id := id;
      this.settingType := settingType;
      limits := Limits(defaultValue, minValue, maxValue);
      value := defaultValue;
      tempValue := defaultValue;
      modified := true;
    }

    method SetTempValue(v: int)
      modifies this
      ensures State() == WithTemp(limits, old(State()), v)
    {
      if v <= limits.maxValue && v >= limits.minValue {
        tempValue := v;
      }
    }

    method Set(v: int)
      modifies this
      ensures State() == Assigned(limits, old(State()), v)
    {
      if v != value {
        if v <= limits.maxValue && v >= limits.minValue {
          value := v;
          modified := true;
        }
      }
    }

    method Reset()
      modifies this
      ensures State() == ResetToDefault(limits, old(State()))
    {
      value := limits.defaultValue;
      modified := true;
    }

    method ResetModified()
      modifies this
      ensures State() == Saved(old(State()))
    {
      modified := false;
    }
  }
}

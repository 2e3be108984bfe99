/** The device-mode supervisor: it switches between calculator, clock and
    settings menu, remembers the mode the menu was entered from, gates the
    high-voltage supply, toggles the backlight shortcut, routes each key
    event to the handler of the current mode, and applies the auto-off rule
    after a period without key presses. */
module Controller {
  import opened ArduinoTypes
  import KeyboardHandler
  import Gps

  const PinHvEnable: int := 4
  const PinHvLed: int := 5

  /** `key_state::pressed`. */
  const PressedCode: uint8 := KeyboardHandler.KeyState.Pressed.Code()

  /** `auto_off_mode`: off, on, clock. The setting is read through an
      `int *`, so other values can arrive as well. */
  const AutoOffDisabled: int := 0
  const AutoOffPowerDown: int := 1
  const AutoOffToClock: int := 2

  /** `startup_mode`: calculator, clock. */
  const StartupCalculator: int := 0
  const StartupClock: int := 1

  datatype DeviceMode = Calculator | Clock | Menu

  /** The special keyboard events the controller reacts to; `NoSpecialEvent`
      stands for every other value. */
  datatype SpecialEvent = NoSpecialEvent | ModeSwitch | MenuMode

  /** Keyboard timing as sent to the keyboard: auto-repeat interval, fast
      auto-repeat interval, hold time, fast auto-repeat delay. */
  datatype KeyboardTiming = KeyboardTiming(autoRepeat: int, fastAutoRepeat: int, holdTime: int, fastDelay: int)

  /** Timing outside the menu: no auto-repeat, 2 s hold time. */
  const NormalTiming := KeyboardTiming(0, 0, 2000, 0)
  /** Timing in the menu: repeats for scrolling through values. */
  const MenuTiming := KeyboardTiming(250, 25, 1000, 15)

  /** What the supervisor does outside its own fields, in order. */
  datatype Effect =
    | PinWrite(pin: int, high: bool)
    | SetKeyboardTiming(timing: KeyboardTiming)
    | ClearDisplay    // `clearDisplay`: the buffers are blanked and shown
    | ClearBuffers    // `clear`: the buffers are blanked, not yet shown
    | StoreSettings
    | ReloadSettings
    | ShowBackLight
    | ClearLeds
    | Routed(handler: DeviceMode)

  /** The fields the operations change. */
  datatype Supervisor = Supervisor(mode: DeviceMode, prev: DeviceMode, hvOn: bool, backLight: bool, autoOff: bool)

  /** A new state and the effects that produced it. */
  datatype Step = Step(s: Supervisor, out: seq<Effect>)

  /** The mode remembered for leaving the menu is never the menu itself. */
  predicate Inv(s: Supervisor)
  {
    s.prev != Menu
  }

  // ---------------------------------------------------------------- high voltage

  /** `hvON`: the flag is set; both pins are driven high exactly when the
      supply was off, and nothing else changes. */
  function HvOn(s: Supervisor): (r: Step)
    ensures r.s == s.(hvOn := true)
    ensures r.out != [] <==> !s.hvOn
    ensures forall e <- r.out :: e.PinWrite? && e.high
  {
    if !s.hvOn then Step(s.(hvOn := true), [PinWrite(PinHvEnable, true), PinWrite(PinHvLed, true)])
    else Step(s, [])
  }

  /** `hvOFF`: the flag is cleared; both pins are driven low exactly when
      the supply was on, and nothing else changes. */
  function HvOff(s: Supervisor): (r: Step)
    ensures r.s == s.(hvOn := false)
    ensures r.out != [] <==> s.hvOn
    ensures forall e <- r.out :: e.PinWrite? && !e.high
  {
    if s.hvOn then Step(s.(hvOn := false), [PinWrite(PinHvEnable, false), PinWrite(PinHvLed, false)])
    else Step(s, [])
  }

  /** Switching the supply on, or off, twice is switching it once. */
  lemma HvIdempotent(s: Supervisor)
    ensures HvOn(HvOn(s).s) == Step(HvOn(s).s, [])
    ensures HvOff(HvOff(s).s) == Step(HvOff(s).s, [])
  {
  }

  // ---------------------------------------------------------------- modes

  /** `switchDeviceMode`: calculator and clock swap; the menu stores the
      settings and returns to the mode it was entered from. */
  function SwitchMode(s: Supervisor): (r: Step)
    ensures |r.out| >= 2 && r.out[..2] == [SetKeyboardTiming(NormalTiming), ClearDisplay]
    ensures r.s.(mode := s.mode) == s
  {
    var pre := [SetKeyboardTiming(NormalTiming), ClearDisplay];
    match s.mode
    case Calculator => Step(s.(mode := Clock), pre)
    case Clock => Step(s.(mode := Calculator), pre)
    case Menu => Step(s.(mode := s.prev), pre + [StoreSettings, ReloadSettings])
  }

  /** `switchToMenuMode`: from calculator or clock, remember it and enter
      the menu; in the menu, nothing. */
  function EnterMenu(s: Supervisor): (r: Step)
    ensures r.s.mode == Menu
    ensures r.s.(mode := s.mode, prev := s.prev) == s
    ensures r.out != [] <==> s.mode != Menu
    ensures Inv(s) ==> Inv(r.s)
  {
    if s.mode != Menu then Step(s.(prev := s.mode, mode := Menu), [SetKeyboardTiming(MenuTiming)])
    else Step(s, [])
  }

  /** Outside the menu the switch toggles between calculator and clock and
      undoes itself; leaving the menu stores the settings once and lands in
      the remembered mode, which is never the menu. */
  lemma SwitchModeRules(s: Supervisor)
    ensures s.mode != Menu ==> SwitchMode(s).s.mode != s.mode && SwitchMode(s).s.mode != Menu
    ensures s.mode != Menu ==> SwitchMode(SwitchMode(s).s).s == s
    ensures s.mode != Menu ==> StoreSettings !in SwitchMode(s).out
    ensures s.mode == Menu ==> SwitchMode(s).s == s.(mode := s.prev) && StoreSettings in SwitchMode(s).out
    ensures Inv(s) && s.mode == Menu ==> SwitchMode(s).s.mode in {Calculator, Clock}
  {
  }

  /** Entering the menu and leaving it again returns to the starting mode;
      a second request to enter the menu changes nothing. */
  lemma MenuRoundTrip(s: Supervisor)
    requires s.mode != Menu
    ensures EnterMenu(s).s.mode == Menu && EnterMenu(s).s.prev == s.mode
    ensures SwitchMode(EnterMenu(s).s).s == s.(prev := s.mode)
    ensures EnterMenu(EnterMenu(s).s) == Step(EnterMenu(s).s, [])
  {
  }

  // ---------------------------------------------------------------- keyboard

  /** `handleShortcuts`: KEY_C toggles the backlight. */
  function Shortcut(s: Supervisor, keyCode: uint8): Step
  {
    if keyCode == KeyboardHandler.KeyC then
      if !s.backLight then Step(s.(backLight := true), [ShowBackLight])
      else Step(s.(backLight := false), [ClearLeds])
    else Step(s, [])
  }

  /** The special event's effect on the mode. */
  function Special(s: Supervisor, special: SpecialEvent): Step
  {
    match special
    case ModeSwitch => SwitchMode(s)
    case MenuMode => EnterMenu(s)
    case NoSpecialEvent => Step(s, [])
  }

  /** The shortcut, taken only for a pressed key with the function key down. */
  function Shortcuts(s: Supervisor, keyCode: uint8, keyState: uint8, functionKeyPressed: bool): Step
  {
    if functionKeyPressed && keyState == PressedCode then Shortcut(s, keyCode) else Step(s, [])
  }

  /** `onKeyboardEvent`: ignored while auto-off holds; otherwise the special
      event, then the shortcut, then the event goes to the handler of the
      mode now current. */
  function KeyEvent(s: Supervisor, keyCode: uint8, keyState: uint8, functionKeyPressed: bool, special: SpecialEvent): (r: Step)
    ensures r.s.hvOn == s.hvOn && r.s.autoOff == s.autoOff
    ensures s.autoOff ==> r == Step(s, [])
    ensures !s.autoOff ==> r.out != [] && r.out[|r.out| - 1] == Routed(r.s.mode)
    ensures Inv(s) ==> Inv(r.s)
  {
    if s.autoOff then Step(s, [])
    else
      var a := Special(s, special);
      var b := Shortcuts(a.s, keyCode, keyState, functionKeyPressed);
      Step(b.s, a.out + b.out + [Routed(b.s.mode)])
  }

  /** The number of `Routed` effects. */
  function Routes(out: seq<Effect>): nat
  {
    if out == [] then 0 else (if out[|out| - 1].Routed? then 1 else 0) + Routes(out[..|out| - 1])
  }

  lemma {:induction false} RoutesAppend(a: seq<Effect>, b: seq<Effect>)
    ensures Routes(a + b) == Routes(a) + Routes(b)
    decreases |b|
  {
    if b == [] {
      assert a + b == a;
    } else {
      assert (a + b)[..|a + b| - 1] == a + b[..|b| - 1];
      RoutesAppend(a, b[..|b| - 1]);
    }
  }

  /** Neither the special events nor the shortcut route anything. */
  lemma NoRouteBeforeHandler(s: Supervisor, keyCode: uint8, keyState: uint8, functionKeyPressed: bool, special: SpecialEvent)
    ensures Routes(Special(s, special).out) == 0
    ensures Routes(Shortcuts(s, keyCode, keyState, functionKeyPressed).out) == 0
  {
    var pre := [SetKeyboardTiming(NormalTiming), ClearDisplay];
    assert Routes(pre) == 0 by {
      assert pre[..1] == [SetKeyboardTiming(NormalTiming)];
      assert [SetKeyboardTiming(NormalTiming)][..0] == [];
    }
    var leave := [StoreSettings, ReloadSettings];
    assert Routes(leave) == 0 by {
      assert leave[..1] == [StoreSettings];
      assert [StoreSettings][..0] == [];
    }
    RoutesAppend(pre, leave);
    assert Routes([SetKeyboardTiming(MenuTiming)]) == 0 by {
      assert [SetKeyboardTiming(MenuTiming)][..0] == [];
    }
    assert Routes([ShowBackLight]) == 0 by {
      assert [ShowBackLight][..0] == [];
    }
    assert Routes([ClearLeds]) == 0 by {
      assert [ClearLeds][..0] == [];
    }
  }

  /** While auto-off holds, key events change nothing and do nothing.
      Otherwise each event reaches exactly one handler, the one of the mode
      in force after the special event and the shortcut, and it reaches it
      last. */
  lemma {:induction false} EventReachesOneHandler(s: Supervisor, keyCode: uint8, keyState: uint8,
                                                  functionKeyPressed: bool, special: SpecialEvent)
    ensures s.autoOff ==> KeyEvent(s, keyCode, keyState, functionKeyPressed, special) == Step(s, [])
    ensures !s.autoOff ==>
              var r := KeyEvent(s, keyCode, keyState, functionKeyPressed, special);
              Routes(r.out) == 1 && r.out[|r.out| - 1] == Routed(r.s.mode)
  {
    if !s.autoOff {
      var a := Special(s, special);
      var b := Shortcuts(a.s, keyCode, keyState, functionKeyPressed);
      NoRouteBeforeHandler(s, keyCode, keyState, functionKeyPressed, special);
      NoRouteBeforeHandler(a.s, keyCode, keyState, functionKeyPressed, special);
      RoutesAppend(a.out, b.out);
      RoutesAppend(a.out + b.out, [Routed(b.s.mode)]);
      assert [Routed(b.s.mode)][..0] == [];
    }
  }

  /** The backlight toggles on a pressed KEY_C with the function key down,
      and only then; two such presses restore it. */
  lemma BackLightToggle(s: Supervisor, keyCode: uint8, keyState: uint8, functionKeyPressed: bool)
    requires !s.autoOff
    ensures var r := KeyEvent(s, keyCode, keyState, functionKeyPressed, NoSpecialEvent).s;
            (r.backLight != s.backLight
             <==> functionKeyPressed && keyState == PressedCode && keyCode == KeyboardHandler.KeyC)
            && r.(backLight := s.backLight) == s
    ensures var once := KeyEvent(s, KeyboardHandler.KeyC, PressedCode, true, NoSpecialEvent).s;
            KeyEvent(once, KeyboardHandler.KeyC, PressedCode, true, NoSpecialEvent).s == s
  {
  }

  // ---------------------------------------------------------------- auto-off

  /** `checkAutoOff`, `elapsed` being `millis()` minus the time of the last
      key press, in `unsigned long` arithmetic. */
  function AutoOffCheck(s: Supervisor, autoOffMode: int, autoOffDelay: int, elapsed: uint32): (r: Step)
    ensures r.s.prev == s.prev && r.s.backLight == s.backLight
    ensures r.s.mode != s.mode ==> r.s.mode == Clock && autoOffMode == AutoOffToClock
    ensures r.s.hvOn != s.hvOn ==> autoOffMode != AutoOffDisabled && (r.s.hvOn <==> !r.s.autoOff)
  {
    if autoOffMode == AutoOffDisabled then Step(s, [])
    else if elapsed > Gps.MinutesToMillis(autoOffDelay) then
      if autoOffMode == AutoOffPowerDown then HvOff(s.(autoOff := true))
      else if autoOffMode == AutoOffToClock then Step(s.(mode := Clock), [ClearBuffers])
      else Step(s, [])
    else
      var on := HvOn(s);
      Step(on.s.(autoOff := false), on.out)
  }

  /** Mode `off` does nothing. After more than the delay without a key,
      mode `on` switches the supply off and holds key events off, and mode
      `clock` forces the clock; within the delay the supply is switched on
      and key events are accepted again. */
  lemma AutoOffRules(s: Supervisor, autoOffMode: int, autoOffDelay: int, elapsed: uint32)
    ensures autoOffMode == AutoOffDisabled ==> AutoOffCheck(s, autoOffMode, autoOffDelay, elapsed) == Step(s, [])
    ensures var r := AutoOffCheck(s, autoOffMode, autoOffDelay, elapsed).s;
            var late := elapsed > Gps.MinutesToMillis(autoOffDelay);
            (late && autoOffMode == AutoOffPowerDown ==> r == s.(autoOff := true, hvOn := false))
            && (late && autoOffMode == AutoOffToClock ==> r == s.(mode := Clock))
            && (!late && autoOffMode != AutoOffDisabled ==> r == s.(autoOff := false, hvOn := true))
    ensures 0 <= autoOffDelay <= 71582 ==>
              (elapsed > Gps.MinutesToMillis(autoOffDelay) <==> elapsed > autoOffDelay * Gps.MillisPerMinute)
  {
  }

  /** `begin`'s choice of the starting mode: both the mode and the
      remembered mode are set; another setting value keeps the defaults. */
  function Startup(s: Supervisor, startupMode: int): Supervisor
  {
    if startupMode == StartupCalculator then s.(mode := Calculator, prev := Calculator)
    else if startupMode == StartupClock then s.(mode := Clock, prev := Clock)
    else s
  }

  /** Every operation keeps the remembered mode out of the menu, so leaving
      the menu always lands in calculator or clock. */
  lemma InvariantPreserved(s: Supervisor, keyCode: uint8, keyState: uint8, functionKeyPressed: bool,
                           special: SpecialEvent, autoOffMode: int, autoOffDelay: int, elapsed: uint32,
                           startupMode: int)
    requires Inv(s)
    ensures Inv(SwitchMode(s).s) && Inv(EnterMenu(s).s) && Inv(HvOn(s).s) && Inv(HvOff(s).s)
    ensures Inv(Shortcut(s, keyCode).s)
    ensures Inv(KeyEvent(s, keyCode, keyState, functionKeyPressed, special).s)
    ensures Inv(AutoOffCheck(s, autoOffMode, autoOffDelay, elapsed).s)
    ensures Inv(Startup(s, startupMode))
  {
  }

  /** The `Controller` class. The source keeps the two modes in globals;
      here they are fields of the one controller. */
  class Supervision {
    var mode: DeviceMode
    var prev: DeviceMode
    var hvOn: bool
    var backLight: bool
    var autoOff: bool
    var autoOffMode: int
    var autoOffDelay: int
    /** Everything done outside the fields so far, in order. */
    var effects: seq<Effect>

    function State(): Supervisor
      reads this
    {
      Supervisor(mode, prev, hvOn, backLight, autoOff)
    }

    predicate Valid()
      reads this
    {
      Inv(State())
    }

    /** The globals start in calculator mode; the constructor assumes the
        supply on, so that `begin`'s `hvOFF` writes the pins. */
    constructor ()
      ensures Valid() && State() == Supervisor(Calculator, Calculator, true, false, false)
      ensures effects == [] && autoOffMode == AutoOffDisabled
    {
      mode := Calculator;
      prev := Calculator;
      hvOn := true;
      backLight := false;
      autoOff := false;
      autoOffMode := AutoOffDisabled;
      autoOffDelay := 0;
      effects := [];
    }

    /** The auto-off part of `setParameters`, given the settings read. */
    method SetParameters(offMode: int, offDelay: int)
      modifies this
      ensures autoOffMode == offMode && autoOffDelay == offDelay
      ensures State() == old(State()) && effects == old(effects)
    {
      autoOffMode := offMode;
      autoOffDelay := offDelay;
    }

    method HvOnCall()
      modifies this
      ensures State() == HvOn(old(State())).s && effects == old(effects) + HvOn(old(State())).out
      ensures autoOffMode == old(autoOffMode) && autoOffDelay == old(autoOffDelay)
    {
      if !hvOn {
        hvOn := true;
        effects := effects + [PinWrite(PinHvEnable, true), PinWrite(PinHvLed, true)];
      }
    }

    method HvOffCall()
      modifies this
      ensures State() == HvOff(old(State())).s && effects == old(effects) + HvOff(old(State())).out
      ensures autoOffMode == old(autoOffMode) && autoOffDelay == old(autoOffDelay)
    {
      if hvOn {
        hvOn := false;
        effects := effects + [PinWrite(PinHvEnable, false), PinWrite(PinHvLed, false)];
      }
    }

    method SwitchDeviceMode()
      requires Valid()
      modifies this
      ensures Valid()
      ensures State() == SwitchMode(old(State())).s && effects == old(effects) + SwitchMode(old(State())).out
      ensures autoOffMode == old(autoOffMode) && autoOffDelay == old(autoOffDelay)
    {
      effects := effects + [SetKeyboardTiming(NormalTiming), ClearDisplay];
      match mode
      case Calculator =>
        mode := Clock;
      case Clock =>
        mode := Calculator;
      case Menu =>
        effects := effects + [StoreSettings];
        mode := prev;
        effects := effects + [ReloadSettings];
    }

    method SwitchToMenuMode()
      requires Valid()
      modifies this
      ensures Valid()
      ensures State() == EnterMenu(old(State())).s && effects == old(effects) + EnterMenu(old(State())).out
      ensures autoOffMode == old(autoOffMode) && autoOffDelay == old(autoOffDelay)
    {
      if mode != Menu {
        effects := effects + [SetKeyboardTiming(MenuTiming)];
        prev := mode;
        mode := Menu;
      }
    }

    method HandleShortcuts(keyCode: uint8)
      requires Valid()
      modifies this
      ensures Valid()
      ensures State() == Shortcut(old(State()), keyCode).s && effects == old(effects) + Shortcut(old(State()), keyCode).out
      ensures autoOffMode == old(autoOffMode) && autoOffDelay == old(autoOffDelay)
    {
      if keyCode == KeyboardHandler.KeyC {
        if !backLight {
          effects := effects + [ShowBackLight];
          backLight := true;
        } else {
          effects := effects + [ClearLeds];
          backLight := false;
        }
      }
    }

    /** `onKeyboardEvent`; the handlers themselves are the calculator, clock
        and menu models, and `Routed` records which one is called. */
    method OnKeyboardEvent(keyCode: uint8, keyState: uint8, functionKeyPressed: bool, special: SpecialEvent)
      requires Valid()
      modifies this
      ensures Valid()
      ensures var r := KeyEvent(old(State()), keyCode, keyState, functionKeyPressed, special);
              State() == r.s && effects == old(effects) + r.out
      ensures autoOffMode == old(autoOffMode) && autoOffDelay == old(autoOffDelay)
    {
      if !autoOff {
        ghost var s0 := State();
        ghost var e0 := effects;
        match special {
          case ModeSwitch =>
            SwitchDeviceMode();
          case MenuMode =>
            SwitchToMenuMode();
          case NoSpecialEvent =>
        }
        ghost var s1 := State();
        ghost var e1 := effects;
        assert s1 == Special(s0, special).s && e1 == e0 + Special(s0, special).out;
        if functionKeyPressed && keyState == PressedCode {
          HandleShortcuts(keyCode);
        }
        assert State() == Shortcuts(s1, keyCode, keyState, functionKeyPressed).s;
        assert effects == e1 + Shortcuts(s1, keyCode, keyState, functionKeyPressed).out;
        effects := effects + [Routed(mode)];
      }
    }

    /** `checkAutoOff`, given `millis()` and the time of the last key. */
    method CheckAutoOff(nowMs: uint32, lastKeyMs: uint32)
      requires Valid()
      modifies this
      ensures Valid()
      ensures var r := AutoOffCheck(old(State()), autoOffMode, autoOffDelay, Sub32(nowMs, lastKeyMs));
              State() == r.s && effects == old(effects) + r.out
      ensures autoOffMode == old(autoOffMode) && autoOffDelay == old(autoOffDelay)
    {
      if autoOffMode != AutoOffDisabled {
        if Sub32(nowMs, lastKeyMs) > ToUint32(autoOffDelay * 60 * 1000) {
          if autoOffMode == AutoOffPowerDown {
            autoOff := true;
            HvOffCall();
          } else if autoOffMode == AutoOffToClock {
            mode := Clock;
            effects := effects + [ClearBuffers];
          }
        } else {
          HvOnCall();
          autoOff := false;
        }
      }
    }

    /** The starting-mode choice at the end of `begin`. */
    method ApplyStartupMode(startupMode: int)
      requires Valid()
      modifies this
      ensures Valid()
      ensures State() == Startup(old(State()), startupMode) && effects == old(effects)
      ensures autoOffMode == old(autoOffMode) && autoOffDelay == old(autoOffDelay)
    {
      if startupMode == StartupCalculator {
        mode := Calculator;
        prev := Calculator;
      } else if startupMode == StartupClock {
        mode := Clock;
        prev := Clock;
      }
    }
  }
}

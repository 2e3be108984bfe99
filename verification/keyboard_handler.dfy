/** The controller side of the keyboard link: the key codes, the key states,
    and the function-key latch maintained while two-byte frames are read. */
module KeyboardHandler {
  import opened ArduinoTypes
  import opened Wrappers

  const KeyDot: uint8 := 25
  const Key0: uint8 := 15
  const Key1: uint8 := 14
  const Key2: uint8 := 19
  const Key3: uint8 := 24
  const Key4: uint8 := 13
  const Key5: uint8 := 18
  const Key6: uint8 := 23
  const Key7: uint8 := 12
  const Key8: uint8 := 17
  const Key9: uint8 := 22
  const KeyPlus: uint8 := 29
  const KeyMinus: uint8 := 28
  const KeyEquals: uint8 := 30
  const KeyDiv: uint8 := 26
  const KeyMul: uint8 := 27
  const KeyPercent: uint8 := 16
  const KeySquareRoot: uint8 := 11
  const KeyPlusMinus: uint8 := 21
  const KeyC: uint8 := 3
  const KeyAC: uint8 := 4
  const KeyFunction: uint8 := 5
  const KeyMC: uint8 := 31
  const KeyMR: uint8 := 32
  const KeyMS: uint8 := 33
  const KeyMMinus: uint8 := 35
  const KeyMPlus: uint8 := 34
  const Key00: uint8 := 20
  const KeySin: uint8 := 6
  const KeyCos: uint8 := 7
  const KeyTan: uint8 := 8
  const KeyLog: uint8 := 9
  const KeyLn: uint8 := 10
  const KeyInv: uint8 := 2
  const KeyPow: uint8 := 1

  /** Every key code, in declaration order. */
  const KeyCodes: seq<uint8> :=
    [KeyDot, Key0, Key1, Key2, Key3, Key4, Key5, Key6, Key7, Key8, Key9,
     KeyPlus, KeyMinus, KeyEquals, KeyDiv, KeyMul, KeyPercent, KeySquareRoot,
     KeyPlusMinus, KeyC, KeyAC, KeyFunction, KeyMC, KeyMR, KeyMS, KeyMMinus,
     KeyMPlus, Key00, KeySin, KeyCos, KeyTan, KeyLog, KeyLn, KeyInv, KeyPow]

  /** The ten digit keys, indexed by the digit they enter. */
  const DigitKeys: seq<uint8> := [Key0, Key1, Key2, Key3, Key4, Key5, Key6, Key7, Key8, Key9]

  /** The position of a key code in `KeyCodes`, or -1 for any other byte. */
  function KeyCodeIndex(k: int): int
  {
    match k
    case 25 => 0 case 15 => 1 case 14 => 2 case 19 => 3 case 24 => 4 case 13 => 5 case 18 => 6
    case 23 => 7 case 12 => 8 case 17 => 9 case 22 => 10 case 29 => 11 case 28 => 12 case 30 => 13
    case 26 => 14 case 27 => 15 case 16 => 16 case 11 => 17 case 21 => 18 case 3 => 19 case 4 => 20
    case 5 => 21 case 31 => 22 case 32 => 23 case 33 => 24 case 35 => 25 case 34 => 26 case 20 => 27
    case 6 => 28 case 7 => 29 case 8 => 30 case 9 => 31 case 10 => 32 case 2 => 33 case 1 => 34
    case _ => -1
  }

  /** The 35 key codes are pairwise distinct and are exactly 1..35, the values
      of the keyboard's 7 x 5 key matrix. */
  lemma KeyCodesAreTheMatrix()
    ensures |KeyCodes| == 35
    ensures forall i :: 0 <= i < |KeyCodes| ==> KeyCodeIndex(KeyCodes[i]) == i
    ensures forall i, j :: 0 <= i < j < |KeyCodes| ==> KeyCodes[i] != KeyCodes[j]
    ensures forall k :: k in KeyCodes <==> 1 <= k <= 35
  {
  }

  /** Digit key d is the key that enters d, and no digit key is another key. */
  lemma DigitKeysAreDistinct()
    ensures forall i, j :: 0 <= i < j < 10 ==> DigitKeys[i] != DigitKeys[j]
    ensures forall i :: 0 <= i < 10 ==> DigitKeys[i] in KeyCodes && DigitKeys[i] != Key00 && DigitKeys[i] != KeyDot
  {
  }

  datatype KeyState = Idle | Pressed | Hold | Released | AutoRepeat
  {
    function Code(): uint8
    {
      match this
      case Idle => 0 case Pressed => 1 case Hold => 2 case Released => 3 case AutoRepeat => 4
    }
  }

  /** A state byte cast to `key_state`: only 0..4 name an enumerator. */
  function KeyStateOf(b: uint8): (k: Option<KeyState>)
    ensures k.Some? <==> b < 5
    ensures k.Some? ==> k.value.Code() == b
  {
    if b == 0 then Some(Idle)
    else if b == 1 then Some(Pressed)
    else if b == 2 then Some(Hold)
    else if b == 3 then Some(Released)
    else if b == 4 then Some(AutoRepeat)
    else None
  }

  /** The state codes of the keyboard library (idle, pressed, hold, released)
      followed by the firmware's own repeat state 4. */
  const KeyStateAutoRepeat: uint8 := 4

  lemma KeyStateCodesMatchFirmware(k: KeyState)
    ensures KeyStateOf(k.Code()) == Some(k)
    ensures k == AutoRepeat <==> k.Code() == KeyStateAutoRepeat
  {
  }

  /** One two-byte frame as read from the serial link: key code, state byte. */
  datatype Frame = Frame(key: uint8, state: uint8)

  /** One call of the attached callback. */
  datatype Notification = Notification(key: uint8, state: uint8, functionKeyPressed: bool)

  /** States that count as the function key being held down. */
  predicate IsDownState(state: uint8)
  {
    state == Pressed.Code() || state == Hold.Code() || state == AutoRepeat.Code()
  }

  /** The latch after one frame: only function-key frames touch it. */
  function Latch(latch: bool, f: Frame): bool
  {
    if f.key == KeyFunction then IsDownState(f.state) else latch
  }

  function LatchAfter(latch: bool, frames: seq<Frame>): (r: bool)
    ensures frames != [] && frames[|frames| - 1].key == KeyFunction ==> r == IsDownState(frames[|frames| - 1].state)
    ensures (forall i :: 0 <= i < |frames| ==> frames[i].key != KeyFunction) ==> r == latch
    decreases |frames|
  {
    if frames == [] then latch else LatchAfter(Latch(latch, frames[0]), frames[1..])
  }

  /** The callbacks made for a run of frames, each with the latch after its own frame. */
  function Notifications(latch: bool, frames: seq<Frame>): (r: seq<Notification>)
    ensures |r| == |frames|
    ensures (forall i :: 0 <= i < |frames| ==> frames[i].key != KeyFunction) ==>
              forall n <- r :: n.functionKeyPressed == latch
    decreases |frames|
  {
    if frames == [] then []
    else
      var l := Latch(latch, frames[0]);
      [Notification(frames[0].key, frames[0].state, l)] + Notifications(l, frames[1..])
  }

  /** One frame of the run: its callback comes first, then the rest's, made
      with the latch after that frame. */
  lemma NotifyStep(done: seq<Notification>, latch: bool, frames: seq<Frame>)
    requires frames != []
    ensures done + Notifications(latch, frames) ==
      (done + [Notification(frames[0].key, frames[0].state, Latch(latch, frames[0]))]) +
      Notifications(Latch(latch, frames[0]), frames[1..])
  {
    var head := [Notification(frames[0].key, frames[0].state, Latch(latch, frames[0]))];
    var tail := Notifications(Latch(latch, frames[0]), frames[1..]);
    assert Notifications(latch, frames) == head + tail;
    assert done + (head + tail) == (done + head) + tail;
  }

  /** Every frame is forwarded, in order, the function key's own frames
      included, carrying the latch value after that frame's update. */
  lemma {:induction false} EveryFrameForwarded(latch: bool, frames: seq<Frame>)
    ensures |Notifications(latch, frames)| == |frames|
    ensures forall i :: 0 <= i < |frames| ==>
      Notifications(latch, frames)[i] ==
        Notification(frames[i].key, frames[i].state, LatchAfter(latch, frames[..i + 1]))
    decreases |frames|
  {
    if frames != [] {
      var l := Latch(latch, frames[0]);
      EveryFrameForwarded(l, frames[1..]);
      forall i | 0 <= i < |frames|
        ensures Notifications(latch, frames)[i] ==
          Notification(frames[i].key, frames[i].state, LatchAfter(latch, frames[..i + 1]))
      {
        if i == 0 {
          assert LatchAfter(l, frames[1..1]) == l;
        } else {
          assert frames[..i + 1][1..] == frames[1..][..i];
        }
      }
    }
  }

  /** Frames of other keys never change the latch. */
  lemma {:induction false} OtherKeysKeepLatch(latch: bool, frames: seq<Frame>)
    requires forall i :: 0 <= i < |frames| ==> frames[i].key != KeyFunction
    ensures LatchAfter(latch, frames) == latch
    decreases |frames|
  {
    if frames != [] {
      OtherKeysKeepLatch(latch, frames[1..]);
    }
  }

  /** The latch is decided by the last function-key frame: true for pressed,
      hold or autorepeat, false for idle, released or any other byte. */
  lemma {:induction false} LastFunctionFrameDecides(latch: bool, frames: seq<Frame>, i: nat)
    requires i < |frames| && frames[i].key == KeyFunction
    requires forall j :: i < j < |frames| ==> frames[j].key != KeyFunction
    ensures LatchAfter(latch, frames) == IsDownState(frames[i].state)
    decreases |frames|
  {
    if i == 0 {
      OtherKeysKeepLatch(Latch(latch, frames[0]), frames[1..]);
    } else {
      LastFunctionFrameDecides(Latch(latch, frames[0]), frames[1..], i - 1);
    }
  }

  // ------------------------------------------------------------ keypad commands

  /** The command marker ('@') and the commands that carry a value. */
  const CmdIdentifier: uint8 := 64
  const CmdSetHoldTime: uint8 := 3
  const CmdSetDebounceTime: uint8 := 4
  const CmdSetAutoRepeatInterval: uint8 := 5

  /** The bytes `setHoldTime`, `setDebounceTime` and `setAutoRepeatInterval`
      write: the marker, the command, then the `unsigned int` value through
      `Wire.write`, whose integer overloads send the value cast to `uint8_t`. */
  function SetterBytes(cmd: uint8, value: uint32): (bs: seq<uint8>)
    ensures |bs| == 3 && bs[..2] == [CmdIdentifier, cmd]
    ensures bs[2] as int == value % 256
  {
    [CmdIdentifier, cmd, ToUint8(value)]
  }

  /** The value command the keyboard's `readUInt` expects: the marker, the
      command, then the 16-bit value in two bytes, high byte first. */
  function ValueBytes(cmd: uint8, value: uint16): (bs: seq<uint8>)
    ensures |bs| == 4 && bs[..2] == [CmdIdentifier, cmd]
    ensures bs[2] as int * 256 + bs[3] as int == value as int
  {
    [CmdIdentifier, cmd, value / 256, value % 256]
  }

  class KeyboardHandler {
    /** Whether `begin` has given the handler a serial port. */
    var hasSerialPort: bool
    /** Whether a callback is attached. */
    var hasCallback: bool
    var functionKeyPressed: bool

    constructor ()
      ensures !hasSerialPort && !hasCallback && !functionKeyPressed
    {
      hasSerialPort := false;
      hasCallback := false;
      functionKeyPressed := false;
    }

    method Begin()
      modifies this
      ensures hasSerialPort && hasCallback == old(hasCallback)
      ensures functionKeyPressed == old(functionKeyPressed)
    {
      hasSerialPort := true;
    }

    method Attach()
      modifies this
      ensures hasCallback && hasSerialPort == old(hasSerialPort)
      ensures functionKeyPressed == old(functionKeyPressed)
    {
      hasCallback := true;
    }

    method Detach()
      modifies this
      ensures !hasCallback && hasSerialPort == old(hasSerialPort)
      ensures functionKeyPressed == old(functionKeyPressed)
    {
      hasCallback := false;
    }

    /** Reads every available frame. With a callback attached, each frame updates
        the latch and is forwarded; without one, frames are consumed unseen. */
    method Process(available: seq<Frame>) returns (consumed: nat, calls: seq<Notification>)
      modifies this
      ensures hasSerialPort == old(hasSerialPort) && hasCallback == old(hasCallback)
      ensures consumed == if hasSerialPort then |available| else 0
      ensures hasSerialPort && hasCallback ==>
        calls == Notifications(old(functionKeyPressed), available) &&
        functionKeyPressed == LatchAfter(old(functionKeyPressed), available)
      ensures !(hasSerialPort && hasCallback) ==>
        calls == [] && functionKeyPressed == old(functionKeyPressed)
    {
      consumed := 0;
      calls := [];
      if hasSerialPort {
        while consumed < |available|
          invariant consumed <= |available|
          invariant hasSerialPort == old(hasSerialPort) && hasCallback == old(hasCallback)
          invariant hasCallback ==>
            Notifications(old(functionKeyPressed), available) ==
              calls + Notifications(functionKeyPressed, available[consumed..]) &&
            LatchAfter(old(functionKeyPressed), available) ==
              LatchAfter(functionKeyPressed, available[consumed..])
          invariant !hasCallback ==> calls == [] && functionKeyPressed == old(functionKeyPressed)
        {
          var frame := available[consumed];
          assert available[consumed..][1..] == available[consumed + 1..];
          if hasCallback {
            ghost var latch := functionKeyPressed;
            NotifyStep(calls, latch, available[consumed..]);
            assert LatchAfter(latch, available[consumed..]) ==
              LatchAfter(Latch(latch, frame), available[consumed + 1..]);
            if frame.key == KeyFunction {
              functionKeyPressed := IsDownState(frame.state);
            }
            calls := calls + [Notification(frame.key, frame.state, functionKeyPressed)];
            assert Notifications(old(functionKeyPressed), available) ==
              calls + Notifications(functionKeyPressed, available[consumed + 1..]);
            assert LatchAfter(old(functionKeyPressed), available) ==
              LatchAfter(functionKeyPressed, available[consumed + 1..]);
          }
          consumed := consumed + 1;
        }
      }
    }
  }
}

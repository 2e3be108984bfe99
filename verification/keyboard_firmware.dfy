/** The keyboard's own firmware: it forwards key state changes as two-byte
    frames and, for keys held down, generates auto-repeat frames from a table of
    hold slots. Time is the `millis()` value, passed in. */
module KeyboardFirmware {
  import opened ArduinoTypes
  import KH = KeyboardHandler

  /** The key list size of the keypad library: at most this many keys at once. */
  const ListMax: nat := 10

  /** The keypad library's key states, and the firmware's extra repeat state. */
  const Idle: uint8 := 0
  const Pressed: uint8 := 1
  const Hold: uint8 := 2
  const Released: uint8 := 3
  const KeyStateAutoRepeat: uint8 := 4

  /** One hold slot; key code 0 marks a free slot (key codes are 1..35). */
  datatype HoldInfo = HoldInfo(keyCode: uint8, holdTimestamp: uint32, autoRepeatCount: uint16)

  const FreeSlot: HoldInfo := HoldInfo(0, 0, 0)

  /** A frame sent to the controller. */
  datatype Frame = Frame(key: uint8, state: uint8)

  /** The first slot holding `code`, or |t| when there is none. */
  function FindSlot(t: seq<HoldInfo>, code: uint8): (i: nat)
    ensures i <= |t|
    ensures i < |t| ==> t[i].keyCode == code
    ensures forall j :: 0 <= j < i ==> t[j].keyCode != code
  {
    if t == [] then 0
    else if t[0].keyCode == code then 0
    else 1 + FindSlot(t[1..], code)
  }

  /** `setKeyHoldInfo`: the first free slot takes the key; a full table is unchanged. */
  function SetHold(t: seq<HoldInfo>, code: uint8, stamp: uint32): (r: seq<HoldInfo>)
    ensures |r| == |t|
    ensures forall j :: 0 <= j < |t| && t[j].keyCode != 0 ==> r[j] == t[j]
    ensures (exists j :: 0 <= j < |t| && t[j].keyCode == 0) ==> HoldInfo(code, stamp, 0) in r
    ensures (forall j :: 0 <= j < |t| ==> t[j].keyCode != 0) ==> r == t
  {
    var i := FindSlot(t, 0);
    if i < |t| then
      var r := t[i := HoldInfo(code, stamp, 0)];
      assert r[i] == HoldInfo(code, stamp, 0);
      r
    else t
  }

  /** `deleteKeyHoldInfo`: the first slot holding the key is freed. */
  function DeleteHold(t: seq<HoldInfo>, code: uint8): (r: seq<HoldInfo>)
    ensures |r| == |t|
    ensures forall j :: 0 <= j < |t| ==> r[j] == t[j] || (t[j].keyCode == code && r[j] == FreeSlot)
    ensures (exists j :: 0 <= j < |t| && t[j].keyCode == code) && code != 0 ==> r != t
    ensures (forall j :: 0 <= j < |t| ==> t[j].keyCode != code) ==> r == t
  {
    var i := FindSlot(t, code);
    if i < |t| then t[i := FreeSlot] else t
  }

  /** The auto-repeat timing configuration, as last received (16-bit values). */
  datatype RepeatConfig = RepeatConfig(interval: uint16, fastInterval: uint16, fastDelay: uint16)

  /** The repeat rule of the main loop: the normal interval while fewer than
      fastDelay repeats were made (or when fastDelay is 0), then the fast interval,
      if it is not 0. Elapsed time is `unsigned long` subtraction. */
  predicate Due(h: HoldInfo, now: uint32, c: RepeatConfig)
    ensures Due(h, now, c) ==>
              h.keyCode != 0 &&
              (Sub32(now, h.holdTimestamp) > c.interval || 0 < c.fastInterval < Sub32(now, h.holdTimestamp))
    ensures c.fastDelay == 0 ==> (Due(h, now, c) <==> h.keyCode != 0 && Sub32(now, h.holdTimestamp) > c.interval)
  {
    h.keyCode != 0 &&
    if h.autoRepeatCount < c.fastDelay || c.fastDelay == 0 then
      Sub32(now, h.holdTimestamp) > c.interval
    else
      c.fastInterval > 0 && Sub32(now, h.holdTimestamp) > c.fastInterval
  }

  /** A slot after it produced a repeat: stamped now, and counted when a fast
      interval is configured. */
  function Repeated(h: HoldInfo, now: uint32, c: RepeatConfig): (r: HoldInfo)
    ensures r.keyCode == h.keyCode && r.holdTimestamp == now && !Due(r, now, c)
    ensures c.fastInterval == 0 ==> r.autoRepeatCount == h.autoRepeatCount
  {
    h.(holdTimestamp := now,
       autoRepeatCount := if c.fastInterval > 0 then ToUint16(h.autoRepeatCount + 1) else h.autoRepeatCount)
  }

  /** One slot at one pass of the main loop: a due slot repeats, any other
      is left alone; either way it is not due again at the same instant. */
  function Poll(h: HoldInfo, now: uint32, c: RepeatConfig): (r: HoldInfo)
    ensures r.keyCode == h.keyCode && !Due(r, now, c)
    ensures r != h ==> Due(h, now, c) && r.holdTimestamp == now
  {
    if Due(h, now, c) then Repeated(h, now, c) else h
  }

  /** The repeat frames of one poll, in slot order. */
  function RepeatFrames(t: seq<HoldInfo>, now: uint32, c: RepeatConfig): seq<Frame>
  {
    if t == [] then []
    else
      var last := t[|t| - 1];
      RepeatFrames(t[..|t| - 1], now, c) +
        (if Due(last, now, c) then [Frame(last.keyCode, KeyStateAutoRepeat)] else [])
  }

  /** `readUInt`: the high byte arrives first. */
  function ReadUInt(hiByte: uint8, loByte: uint8): (r: uint16)
    ensures r / 256 == hiByte && r % 256 == loByte
  {
    hiByte * 256 + loByte
  }

  /** Sending a 16-bit value high byte first and reading it back gives the value. */
  lemma ReadUIntRoundTrip(v: uint16)
    ensures ReadUInt(v / 256, v % 256) == v
  {
  }
  /** `Wire.read()` of the byte at position i of what was received; once the
      bytes have run out it returns -1, which the `byte` holding it keeps as 255. */
  function WireRead(bs: seq<uint8>, i: nat): uint8
  {
    if i < |bs| then bs[i] else 255
  }

  /** The value `receiveEvent` takes from a value command: `readUInt` of the
      two bytes after the marker and the command. */
  function ReceivedValue(bs: seq<uint8>): uint16
  {
    ReadUInt(WireRead(bs, 2), WireRead(bs, 3))
  }

  /** As written, a setter of the main board sends one byte of its value,
      which the keyboard reads as the high byte, the missing low byte reading
      as 255: only 65535 arrives intact. `setHoldTime(2000)` arrives as 53503
      and `setAutoRepeatInterval(0)` as 255. */
  lemma SetterValueGarbled(cmd: uint8, value: uint32)
    ensures ReceivedValue(KH.SetterBytes(cmd, value)) == (value % 256) * 256 + 255
    ensures ReceivedValue(KH.SetterBytes(cmd, value)) == value <==> value == 65535
    ensures ReceivedValue(KH.SetterBytes(KH.CmdSetHoldTime, 2000)) == 53503
    ensures ReceivedValue(KH.SetterBytes(KH.CmdSetAutoRepeatInterval, 0)) == 255
  {
    if (value % 256) * 256 + 255 == value {
      assert value % 256 == 255;
    }
  }

  /** Sent high byte first in two bytes, every 16-bit value arrives intact. */
  lemma ValueBytesRoundTrip(cmd: uint8, value: uint16)
    ensures ReceivedValue(KH.ValueBytes(cmd, value)) == value
  {
    ReadUIntRoundTrip(value);
  }

  lemma {:induction false} FindSlotIs(t: seq<HoldInfo>, code: uint8, i: nat)
    requires i < |t| && t[i].keyCode == code
    requires forall j :: 0 <= j < i ==> t[j].keyCode != code
    ensures FindSlot(t, code) == i
    decreases i
  {
    if i > 0 {
      FindSlotIs(t[1..], code, i - 1);
    }
  }

  lemma {:induction false} FindSlotMissing(t: seq<HoldInfo>, code: uint8)
    requires forall j :: 0 <= j < |t| ==> t[j].keyCode != code
    ensures FindSlot(t, code) == |t|
    decreases |t|
  {
    if t != [] {
      FindSlotMissing(t[1..], code);
    }
  }

  /** A released key frees the first slot holding it, and only that slot
      changes; a key held nowhere leaves the table as it is. */
  lemma DeleteHoldFreesFirst(t: seq<HoldInfo>, code: uint8)
    ensures (exists i :: 0 <= i < |t| && t[i].keyCode == code) ==>
      exists i :: 0 <= i < |t| && t[i].keyCode == code &&
        (forall j :: 0 <= j < i ==> t[j].keyCode != code) &&
        DeleteHold(t, code) == t[i := FreeSlot]
    ensures (forall i :: 0 <= i < |t| ==> t[i].keyCode != code) ==> DeleteHold(t, code) == t
  {
    var i := FindSlot(t, code);
    if exists k :: 0 <= k < |t| && t[k].keyCode == code {
      assert i < |t|;
    }
  }

  /** A held key takes the first free slot, and only that slot changes; a full
      table is left as it is. */
  lemma SetHoldFillsFirstFree(t: seq<HoldInfo>, code: uint8, stamp: uint32)
    ensures |SetHold(t, code, stamp)| == |t|
    ensures (exists i :: 0 <= i < |t| && t[i].keyCode == 0) ==>
      exists i :: 0 <= i < |t| && t[i].keyCode == 0 &&
        (forall j :: 0 <= j < i ==> t[j].keyCode != 0) &&
        SetHold(t, code, stamp) == t[i := HoldInfo(code, stamp, 0)]
    ensures (forall i :: 0 <= i < |t| ==> t[i].keyCode != 0) ==> SetHold(t, code, stamp) == t
  {
    var i := FindSlot(t, 0);
    if exists k :: 0 <= k < |t| && t[k].keyCode == 0 {
      assert i < |t|;
    }
  }

  /** Every slot with key code 0 is entirely zero. */
  predicate FreeSlotsZeroed(t: seq<HoldInfo>)
  {
    forall j :: 0 <= j < |t| && t[j].keyCode == 0 ==> t[j] == FreeSlot
  }

  /** Hold, release and polling keep free slots zeroed (given a non-zero key). */
  lemma FreeSlotsStayZeroed(t: seq<HoldInfo>, code: uint8, stamp: uint32, now: uint32, c: RepeatConfig)
    requires FreeSlotsZeroed(t) && code != 0
    ensures FreeSlotsZeroed(SetHold(t, code, stamp))
    ensures FreeSlotsZeroed(DeleteHold(t, code))
    ensures FreeSlotsZeroed(seq(|t|, i requires 0 <= i < |t| => Poll(t[i], now, c)))
  {
  }

  /** Releasing a key that was held into a free slot, when it held no slot
      before, gives back the table as it was before the hold. */
  lemma HoldThenRelease(t: seq<HoldInfo>, code: uint8, stamp: uint32)
    requires code != 0 && FreeSlotsZeroed(t)
    requires forall j :: 0 <= j < |t| ==> t[j].keyCode != code
    ensures DeleteHold(SetHold(t, code, stamp), code) == t
  {
    var i := FindSlot(t, 0);
    if i < |t| {
      var u := SetHold(t, code, stamp);
      forall j | 0 <= j < i ensures u[j].keyCode != code {
        assert u[j] == t[j];
      }
      FindSlotIs(u, code, i);
    } else {
      FindSlotMissing(t, code);
    }
  }

  /** A key that has just been held is stamped one interval in the future, so
      the wrapping subtraction makes the next poll within that interval repeat at
      once; this is the "hold event, autorepeat event" order. */
  lemma JustHeldRepeatsAtNextPoll(code: uint8, now: uint32, elapsed: nat, c: RepeatConfig)
    requires code != 0 && c.interval > 0 && elapsed < c.interval
    ensures var h := HoldInfo(code, ToUint32(now + c.interval), 0);
      Due(h, ToUint32(now + elapsed), c)
  {
    var stamp := ToUint32(now + c.interval);
    var later := ToUint32(now + elapsed);
    assert Sub32(later, stamp) == ToUint32(elapsed - c.interval) by {
      assert Sub32(later, stamp) == ToUint32(later as int - stamp as int);
    }
    assert ToUint32(elapsed - c.interval) == Two32 + elapsed - c.interval;
  }

  /** After a repeat, the slot is not due again before another interval has
      passed: the normal one, and the fast one when it is switched on. */
  lemma RepeatWaitsAnInterval(h: HoldInfo, now: uint32, elapsed: nat, c: RepeatConfig)
    requires Due(h, now, c) && elapsed <= c.interval && (c.fastInterval > 0 ==> elapsed <= c.fastInterval)
    ensures !Due(Repeated(h, now, c), ToUint32(now + elapsed), c)
  {
    var later := ToUint32(now + elapsed);
    assert Sub32(later, now) == elapsed;
  }

  /** The keyboard's globals: the timing parameters and the hold table. */
  class Keyboard {
    var holdTime: uint16
    var debounceTime: uint16
    var config: RepeatConfig
    const keyHoldInfo: array<HoldInfo>

    predicate Valid()
      reads this
    {
      keyHoldInfo.Length == ListMax
    }

    /** The defaults; the table is initialised by `setup`. */
    constructor ()
      ensures Valid() && fresh(keyHoldInfo)
      ensures holdTime == 1000 && debounceTime == 10 && config == RepeatConfig(0, 0, 0)
      ensures forall i :: 0 <= i < ListMax ==> keyHoldInfo[i] == FreeSlot
    {
      holdTime := 1000;
      debounceTime := 10;
      config := RepeatConfig(0, 0, 0);
      keyHoldInfo := new HoldInfo[ListMax](_ => FreeSlot);
    }

    /** `initKeyHoldInfo`. */
    method InitKeyHoldInfo()
      requires Valid()
      modifies keyHoldInfo
      ensures forall i :: 0 <= i < keyHoldInfo.Length ==> keyHoldInfo[i] == FreeSlot
    {
      for i := 0 to keyHoldInfo.Length
        invariant forall j :: 0 <= j < i ==> keyHoldInfo[j] == FreeSlot
      {
        keyHoldInfo[i] := FreeSlot;
      }
    }

    /** `setKeyHoldInfo`, stamped now + autoRepeatInterval. */
    method SetKeyHoldInfo(keyCode: uint8, now: uint32)
      requires Valid()
      modifies keyHoldInfo
      ensures keyHoldInfo[..] == SetHold(old(keyHoldInfo[..]), keyCode, ToUint32(now + config.interval))
    {
      var i := 0;
      while i < keyHoldInfo.Length
        invariant 0 <= i <= keyHoldInfo.Length
        invariant keyHoldInfo[..] == old(keyHoldInfo[..])
        invariant forall j :: 0 <= j < i ==> keyHoldInfo[j].keyCode != 0
      {
        if keyHoldInfo[i].keyCode == 0 {
          FindSlotIs(keyHoldInfo[..], 0, i);
          keyHoldInfo[i] := HoldInfo(keyCode, ToUint32(now + config.interval), 0);
          return;
        }
        i := i + 1;
      }
      FindSlotMissing(keyHoldInfo[..], 0);
    }

    /** `deleteKeyHoldInfo`. */
    method DeleteKeyHoldInfo(keyCode: uint8)
      requires Valid()
      modifies keyHoldInfo
      ensures keyHoldInfo[..] == DeleteHold(old(keyHoldInfo[..]), keyCode)
    {
      var i := 0;
      while i < keyHoldInfo.Length
        invariant 0 <= i <= keyHoldInfo.Length
        invariant keyHoldInfo[..] == old(keyHoldInfo[..])
        invariant forall j :: 0 <= j < i ==> keyHoldInfo[j].keyCode != keyCode
      {
        if keyHoldInfo[i].keyCode == keyCode {
          FindSlotIs(keyHoldInfo[..], keyCode, i);
          keyHoldInfo[i] := FreeSlot;
          return;
        }
        i := i + 1;
      }
      FindSlotMissing(keyHoldInfo[..], keyCode);
    }

    /** `onSetAutoRepeatInterval`: the new interval also empties the table. */
    method OnSetAutoRepeatInterval(hiByte: uint8, loByte: uint8)
      requires Valid()
      modifies this, keyHoldInfo
      ensures config == old(config).(interval := ReadUInt(hiByte, loByte))
      ensures holdTime == old(holdTime) && debounceTime == old(debounceTime)
      ensures forall i :: 0 <= i < keyHoldInfo.Length ==> keyHoldInfo[i] == FreeSlot
    {
      config := config.(interval := ReadUInt(hiByte, loByte));
      InitKeyHoldInfo();
    }

    method OnSetFastAutoRepeatInterval(hiByte: uint8, loByte: uint8)
      modifies this
      ensures config == old(config).(fastInterval := ReadUInt(hiByte, loByte))
      ensures holdTime == old(holdTime) && debounceTime == old(debounceTime)
    {
      config := config.(fastInterval := ReadUInt(hiByte, loByte));
    }

    method OnSetFastAutoRepeatDelay(hiByte: uint8, loByte: uint8)
      modifies this
      ensures config == old(config).(fastDelay := ReadUInt(hiByte, loByte))
      ensures holdTime == old(holdTime) && debounceTime == old(debounceTime)
    {
      config := config.(fastDelay := ReadUInt(hiByte, loByte));
    }

    /** One changed key of the main loop: the frame is sent, and with auto-repeat
        enabled a hold takes a slot and a release frees it. */
    method OnKeyStateChanged(keyCode: uint8, keyState: uint8, now: uint32) returns (frame: Frame)
      requires Valid()
      modifies keyHoldInfo
      ensures frame == Frame(keyCode, keyState)
      ensures keyHoldInfo[..] ==
        if config.interval == 0 then old(keyHoldInfo[..])
        else if keyState == Hold then SetHold(old(keyHoldInfo[..]), keyCode, ToUint32(now + config.interval))
        else if keyState == Released then DeleteHold(old(keyHoldInfo[..]), keyCode)
        else old(keyHoldInfo[..])
    {
      frame := Frame(keyCode, keyState);
      if config.interval > 0 {
        if keyState == Hold {
          SetKeyHoldInfo(keyCode, now);
        } else if keyState == Released {
          DeleteKeyHoldInfo(keyCode);
        }
      }
    }

    /** The auto-repeat pass of the main loop. */
    method AutoRepeat(now: uint32) returns (frames: seq<Frame>)
      requires Valid()
      modifies keyHoldInfo
      ensures config.interval == 0 ==> frames == [] && keyHoldInfo[..] == old(keyHoldInfo[..])
      ensures config.interval > 0 ==>
        frames == RepeatFrames(old(keyHoldInfo[..]), now, config) &&
        forall i :: 0 <= i < keyHoldInfo.Length ==> keyHoldInfo[i] == Poll(old(keyHoldInfo[i]), now, config)
    {
      frames := [];
      if config.interval > 0 {
        for i := 0 to keyHoldInfo.Length
          invariant forall j :: 0 <= j < i ==> keyHoldInfo[j] == Poll(old(keyHoldInfo[j]), now, config)
          invariant forall j :: i <= j < keyHoldInfo.Length ==> keyHoldInfo[j] == old(keyHoldInfo[j])
          invariant frames == RepeatFrames(old(keyHoldInfo[..])[..i], now, config)
        {
          assert old(keyHoldInfo[..])[..i + 1][..i] == old(keyHoldInfo[..])[..i];
          var h := keyHoldInfo[i];
          if h.keyCode != 0 {
            var genEvent := false;
            if h.autoRepeatCount < config.fastDelay || config.fastDelay == 0 {
              if Sub32(now, h.holdTimestamp) > config.interval {
                genEvent := true;
              }
            } else {
              if config.fastInterval > 0 {
                if Sub32(now, h.holdTimestamp) > config.fastInterval {
                  genEvent := true;
                }
              }
            }
            if genEvent {
              frames := frames + [Frame(h.keyCode, KeyStateAutoRepeat)];
              var count := h.autoRepeatCount;
              if config.fastInterval > 0 {
                count := ToUint16(count as int + 1);
              }
              keyHoldInfo[i] := HoldInfo(h.keyCode, now, count);
            }
          }
        }
        assert old(keyHoldInfo[..])[..keyHoldInfo.Length] == old(keyHoldInfo[..]);
      }
    }
  }
}

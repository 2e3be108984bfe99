/** The GPS time source: it reads its settings, subscribes to the receiver's
    NAV-TIMEUTC messages once the receiver is known, and sets the system
    clock from the date and time fields the receiver marks valid, at most
    once per sync interval. */
module Gps {
  import opened ArduinoTypes
  import UbGpsTime

  /** `GPS_SYNC_INTERVAL_SHORT`: the interval after a sync without a full
      fix, and the retry interval, 15 seconds in milliseconds. */
  const SyncIntervalShort: uint32 := 15000
  /** `GPS_MSG_INTERVAL`: one NAV-TIMEUTC message every 60 navigation
      solutions. */
  const MessageInterval: uint32 := 60
  const MillisPerMinute: int := 60000

  /** The baud rates of `gps_speed::br_2400` .. `gps_speed::br_115200`, in
      the order of the enumeration (codes 0 to 6). */
  const BaudRates: seq<int> := [2400, 4800, 9600, 19200, 38400, 57600, 115200]
  /** The code of `gps_speed::br_9600`. */
  const DefaultSpeed: int := 2

  /** `getSpeed`. The setting is read into the enumeration through an
      `int *`, so any integer can arrive here. */
  function GetSpeed(speed: int): (baud: int)
    ensures baud in BaudRates
  {
    if speed == 0 then 2400
    else if speed == 1 then 4800
    else if speed == 2 then 9600
    else if speed == 3 then 19200
    else if speed == 4 then 38400
    else if speed == 5 then 57600
    else if speed == 6 then 115200
    else 9600
  }

  /** Each enumeration value selects the rate of its name, faster for each
      later value; every other code falls back to 9600 baud, the rate of
      `br_9600`. */
  lemma SpeedTable(speed: int)
    ensures 0 <= speed < |BaudRates| ==> GetSpeed(speed) == BaudRates[speed]
    ensures !(0 <= speed < |BaudRates|) ==> GetSpeed(speed) == GetSpeed(DefaultSpeed) == 9600
    ensures forall i, j :: 0 <= i < j < |BaudRates| ==> GetSpeed(i) < GetSpeed(j)
  {
  }

  /** `value * 60 * 1000` stored into an `unsigned long`: the product of an
      `int` wraps to 32 bits and the conversion keeps it modulo 2^32. */
  function MinutesToMillis(minutes: int): (ms: uint32)
    ensures 0 <= minutes * MillisPerMinute < Two32 ==> ms == minutes * MillisPerMinute
  {
    ToUint32(minutes * MillisPerMinute)
  }

  /** Up to 71582 minutes (49.7 days) the conversion is exact and can be
      undone; a negative setting becomes a huge interval. */
  lemma MinutesRoundTrip(minutes: int)
    ensures 0 <= minutes <= 71582 ==> MinutesToMillis(minutes) / MillisPerMinute == minutes
    ensures 0 <= minutes <= 71582 ==> MinutesToMillis(minutes) % MillisPerMinute == 0
    ensures minutes == -1 ==> MinutesToMillis(minutes) == Two32 - MillisPerMinute
  {
  }

  /** TimeLib's `TimeElements`; `Year` counts from 1970 in a byte. */
  datatype TimeElements = TimeElements(second: uint8, minute: uint8, hour: uint8, wday: uint8,
                                       day: uint8, month: uint8, year: uint8)

  /** TimeLib's conversions between a `time_t` and its calendar fields,
      which are not part of this model. */
  datatype TimeLib = TimeLib(breakTime: int -> TimeElements, makeTime: TimeElements -> int)

  /** The fields `gpsTimeSync` overwrites in the broken-down clock: the time
      of day when the time of week is valid, the date when the week number
      is valid, the year made relative to 1970 and kept in a byte. */
  function Merged(tm: TimeElements, t: UbGpsTime.TimeUtc): (r: TimeElements)
    ensures r.wday == tm.wday
  {
    var withTime := if t.timeOfWeekValid then tm.(second := t.second, minute := t.minute, hour := t.hour) else tm;
    if t.weekNumberValid then withTime.(day := t.day, month := t.month, year := ToUint8(t.year - 1970))
    else withTime
  }

  /** Each half of the GPS time is taken exactly when it is marked valid,
      and the clock's own values are kept otherwise. */
  lemma MergeTakesValidParts(tm: TimeElements, t: UbGpsTime.TimeUtc)
    ensures var r := Merged(tm, t);
            (t.timeOfWeekValid ==> r.second == t.second && r.minute == t.minute && r.hour == t.hour)
            && (!t.timeOfWeekValid ==> r.second == tm.second && r.minute == tm.minute && r.hour == tm.hour)
            && (t.weekNumberValid ==> r.day == t.day && r.month == t.month)
            && (!t.weekNumberValid ==> r.day == tm.day && r.month == tm.month && r.year == tm.year)
    ensures !t.timeOfWeekValid && !t.weekNumberValid ==> Merged(tm, t) == tm
  {
  }

  /** The year byte holds `year - 1970` for the years 1970 to 2225, and it
      wraps for any other year the receiver reports. */
  lemma YearOffset(tm: TimeElements, t: UbGpsTime.TimeUtc)
    requires t.weekNumberValid
    ensures 1970 <= t.year < 1970 + Two8 ==> Merged(tm, t).year == t.year - 1970
    ensures 1970 - Two8 <= t.year < 1970 ==> Merged(tm, t).year == t.year - 1970 + Two8
  {
  }

  /** With both halves valid the result depends on the old clock only
      through the day of the week. */
  lemma FullFixIgnoresClock(tm1: TimeElements, tm2: TimeElements, t: UbGpsTime.TimeUtc)
    requires t.timeOfWeekValid && t.weekNumberValid
    ensures Merged(tm1, t).(wday := 0) == Merged(tm2, t).(wday := 0)
  {
  }

  /** What a sync changes: the active interval, the time of the last sync,
      every value given to `setTime`, and every value passed to the
      listener. */
  datatype SyncState = SyncState(active: uint32, timestamp: uint32, setTimes: seq<int>, notified: seq<int>)

  /** `millis() - _gpsSyncTimestamp > _gpsSyncIntervalActive`, in
      `unsigned long` arithmetic. */
  predicate Due(s: SyncState, nowMs: uint32)
  {
    Sub32(nowMs, s.timestamp) > s.active
  }

  /** `gpsTimeSync` on a NAV-TIMEUTC record `t`, at `nowMs` milliseconds of
      uptime, with `utcNow` the current system time; `interval` is the
      configured interval and `attached` whether a listener is set.

      Before the interval has passed a message changes nothing. After it,
      the timestamp moves to now; the clock is set, and the listener told
      the same time, exactly when at least one half is valid; the next
      interval is the configured one exactly when both halves are valid. */
  function SyncStep(s: SyncState, t: UbGpsTime.TimeUtc, nowMs: uint32, utcNow: int, lib: TimeLib,
                    interval: uint32, attached: bool): (r: SyncState)
    ensures !Due(s, nowMs) ==> r == s
    ensures |s.setTimes| <= |r.setTimes| && |s.notified| <= |r.notified|
    ensures Due(s, nowMs) ==>
              var valid := t.timeOfWeekValid || t.weekNumberValid;
              r.timestamp == nowMs
              && (t.timeOfWeekValid && t.weekNumberValid ==> r.active == interval)
              && (!(t.timeOfWeekValid && t.weekNumberValid) ==> r.active == SyncIntervalShort)
              && (|r.setTimes| == |s.setTimes| + 1 <==> valid)
              && (|r.notified| == |s.notified| + 1 <==> valid && attached)
              && r.setTimes[..|s.setTimes|] == s.setTimes
              && r.notified[..|s.notified|] == s.notified
              && (valid ==> r.setTimes[|s.setTimes|] == lib.makeTime(Merged(lib.breakTime(utcNow), t)))
              && (valid && attached ==> r.notified[|s.notified|] == r.setTimes[|s.setTimes|])
  {
    if !Due(s, nowMs) then s
    else
      var utc := lib.makeTime(Merged(lib.breakTime(utcNow), t));
      var valid := t.timeOfWeekValid || t.weekNumberValid;
      SyncState(if t.timeOfWeekValid && t.weekNumberValid then interval else SyncIntervalShort,
                nowMs,
                s.setTimes + (if valid then [utc] else []),
                s.notified + (if valid && attached then [utc] else []))
  }

  /** A sync without a full fix is retried: the next message more than 15
      seconds later is acted on, whatever interval is configured. */
  lemma PartialFixRetries(s: SyncState, t: UbGpsTime.TimeUtc, nowMs: uint32, utcNow: int, lib: TimeLib,
                          interval: uint32, attached: bool, later: uint32)
    requires Due(s, nowMs) && !(t.timeOfWeekValid && t.weekNumberValid)
    requires Sub32(later, nowMs) > SyncIntervalShort as int
    ensures Due(SyncStep(s, t, nowMs, utcNow, lib, interval, attached), later)
  {
  }

  /** After a full fix the next message inside the configured interval is
      ignored, whatever it holds. */
  lemma FullFixHolds(s: SyncState, t: UbGpsTime.TimeUtc, nowMs: uint32, utcNow: int, lib: TimeLib,
                     interval: uint32, attached: bool, later: uint32, t': UbGpsTime.TimeUtc, utcLater: int)
    requires Due(s, nowMs) && t.timeOfWeekValid && t.weekNumberValid
    requires Sub32(later, nowMs) <= interval as int
    ensures var r := SyncStep(s, t, nowMs, utcNow, lib, interval, attached);
            SyncStep(r, t', later, utcLater, lib, interval, attached) == r
  {
  }

  /** The messages the source acts on: NAV-TIMEUTC only. */
  predicate IsTimeUtc(m: UbGpsTime.Message)
  {
    m.msgClass == UbGpsTime.ClassNav && m.msgID == UbGpsTime.NavTimeUtc
  }

  /** The subscriptions `initialize` sends after the NMEA-off frames of
      `disableDefaultNMEA`, which are not modelled: NAV-STATUS switched off,
      then NAV-TIMEUTC every `MessageInterval` solutions. */
  function Subscriptions(messageInterval: uint32): (r: seq<UbGpsTime.Message>)
    ensures |r| == 2 && r[0].payload == [UbGpsTime.ClassNav, UbGpsTime.NavStatus, 0]
    ensures r[1].payload == [UbGpsTime.ClassNav, UbGpsTime.NavTimeUtc, ToUint8(messageInterval)]
    ensures forall m <- r :: UbGpsTime.WellFormed(m) && m.msgClass == UbGpsTime.ClassCfg && m.msgID == UbGpsTime.CfgMsg
  {
    [UbGpsTime.RateMessage(UbGpsTime.ClassNav, UbGpsTime.NavStatus, 0),
     UbGpsTime.RateMessage(UbGpsTime.ClassNav, UbGpsTime.NavTimeUtc, ToUint8(messageInterval))]
  }

  /** The `GPS` class. The receiver it owns is the one `UbGpsTime` models;
      here only whether it reports itself initialized is used, and whether
      this object is registered as its listener. */
  class GpsClock {
    /** `_gpsSpeed`, the raw setting. */
    var speed: int
    /** `_gpsCommSpeed`, in baud. */
    var commSpeed: int
    var messageInterval: uint32
    var syncInterval: uint32
    var syncIntervalActive: uint32
    var syncTimestamp: uint32
    var gpsInitialized: bool
    /** The receiver calls this object back (`_uGPS.attach`). */
    var listening: bool
    /** A listener is set (`_notify`). */
    var attached: bool
    var setTimes: seq<int>
    var notified: seq<int>

    function Sync(): SyncState
      reads this
    {
      SyncState(syncIntervalActive, syncTimestamp, setTimes, notified)
    }

    /** The constructor assigns `_gpsSyncIntervalActive` to itself, so its
        first value is whatever the storage held: `activeInterval` here. */
    constructor (activeInterval: uint32)
      ensures Sync() == SyncState(activeInterval, 0, [], [])
      ensures !gpsInitialized && !listening && !attached && messageInterval == MessageInterval
    {
      syncIntervalActive := activeInterval;
      syncTimestamp := 0;
      setTimes := [];
      notified := [];
      gpsInitialized := false;
      listening := false;
      attached := false;
      messageInterval := MessageInterval;
      speed := 0;
      commSpeed := 0;
      syncInterval := 0;
    }

    /** `setParameters`, given the two settings it reads. */
    method SetParameters(speedSetting: int, intervalMinutes: int)
      modifies this
      ensures speed == speedSetting && commSpeed == GetSpeed(speedSetting)
      ensures syncInterval == MinutesToMillis(intervalMinutes)
      ensures Sync() == old(Sync()) && messageInterval == old(messageInterval)
      ensures gpsInitialized == old(gpsInitialized) && listening == old(listening) && attached == old(attached)
    {
      speed := speedSetting;
      commSpeed := GetSpeed(speed);
      syncInterval := ToUint32(intervalMinutes * 60 * 1000);
    }

    /** `initialize`: once the receiver reports itself initialized, the
        subscriptions go out and the receiver reports back to this object. */
    method Initialize(receiverReady: bool) returns (ok: bool, requests: seq<UbGpsTime.Message>)
      modifies this
      ensures ok == receiverReady
      ensures requests == if receiverReady then Subscriptions(messageInterval) else []
      ensures gpsInitialized == (old(gpsInitialized) || receiverReady)
      ensures listening == (old(listening) || receiverReady)
      ensures Sync() == old(Sync()) && attached == old(attached) && messageInterval == old(messageInterval)
      ensures syncInterval == old(syncInterval) && commSpeed == old(commSpeed) && speed == old(speed)
    {
      ok := false;
      requests := [];
      if receiverReady {
        requests := Subscriptions(messageInterval);
        listening := true;
        gpsInitialized := true;
        ok := true;
      }
    }

    /** `end`. */
    method End()
      modifies this
      ensures !gpsInitialized && !listening
      ensures Sync() == old(Sync()) && attached == old(attached) && messageInterval == old(messageInterval)
      ensures syncInterval == old(syncInterval) && commSpeed == old(commSpeed) && speed == old(speed)
    {
      gpsInitialized := false;
      listening := false;
    }

    method Attach()
      modifies this
      ensures attached && Sync() == old(Sync()) && gpsInitialized == old(gpsInitialized) && listening == old(listening)
      ensures syncInterval == old(syncInterval) && messageInterval == old(messageInterval)
    {
      attached := true;
    }

    method Detach()
      modifies this
      ensures !attached && Sync() == old(Sync()) && gpsInitialized == old(gpsInitialized) && listening == old(listening)
      ensures syncInterval == old(syncInterval) && messageInterval == old(messageInterval)
    {
      attached := false;
    }

    /** `process`, up to the call into the receiver: initialization is
        retried on every call until it succeeds. */
    method Process(receiverReady: bool) returns (requests: seq<UbGpsTime.Message>)
      modifies this
      ensures old(gpsInitialized) ==> requests == [] && gpsInitialized && listening == old(listening)
      ensures !old(gpsInitialized) ==>
                gpsInitialized == receiverReady
                && requests == (if receiverReady then Subscriptions(messageInterval) else [])
                && listening == (old(listening) || receiverReady)
      ensures Sync() == old(Sync()) && attached == old(attached) && messageInterval == old(messageInterval)
      ensures syncInterval == old(syncInterval)
    {
      requests := [];
      if !gpsInitialized {
        var ok;
        ok, requests := Initialize(receiverReady);
      }
    }

    /** `gpsTimeSync`; both `millis()` calls are taken to return `nowMs`. */
    method GpsTimeSync(t: UbGpsTime.TimeUtc, nowMs: uint32, utcNow: int, lib: TimeLib)
      modifies this
      ensures Sync() == SyncStep(old(Sync()), t, nowMs, utcNow, lib, syncInterval, attached)
      ensures syncInterval == old(syncInterval) && attached == old(attached)
      ensures gpsInitialized == old(gpsInitialized) && listening == old(listening)
      ensures messageInterval == old(messageInterval)
    {
      if Sub32(nowMs, syncTimestamp) > syncIntervalActive {
        var utc := utcNow;
        var tm := lib.breakTime(utc);
        if t.timeOfWeekValid {
          tm := tm.(second := t.second, minute := t.minute, hour := t.hour);
        }
        if t.weekNumberValid {
          tm := tm.(day := t.day, month := t.month, year := ToUint8(t.year - 1970));
        }
        if t.timeOfWeekValid || t.weekNumberValid {
          utc := lib.makeTime(tm);
          setTimes := setTimes + [utc];
          if attached {
            notified := notified + [utc];
          }
        }
        if t.timeOfWeekValid && t.weekNumberValid {
          syncIntervalActive := syncInterval;
        } else {
          syncIntervalActive := SyncIntervalShort;
        }
        syncTimestamp := nowMs;
      }
    }

    /** `onGPSMessage`: `t` is the receiver's NAV-TIMEUTC record, which the
        receiver has already updated from `m` when it calls back. */
    method OnGpsMessage(m: UbGpsTime.Message, t: UbGpsTime.TimeUtc, nowMs: uint32, utcNow: int, lib: TimeLib)
      modifies this
      ensures IsTimeUtc(m) ==> Sync() == SyncStep(old(Sync()), t, nowMs, utcNow, lib, syncInterval, attached)
      ensures !IsTimeUtc(m) ==> Sync() == old(Sync())
      ensures syncInterval == old(syncInterval) && attached == old(attached)
      ensures gpsInitialized == old(gpsInitialized) && listening == old(listening)
      ensures messageInterval == old(messageInterval)
    {
      if m.msgClass == UbGpsTime.ClassNav {
        if m.msgID == UbGpsTime.NavTimeUtc {
          GpsTimeSync(t, nowMs, utcNow, lib);
        }
      }
    }
  }
}

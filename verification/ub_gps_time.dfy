/** The u-blox UBX frame codec of the GPS time receiver: a byte-driven frame
    parser, the serialiser with its 8-bit Fletcher checksum, the
    little-endian field readers and the handlers that turn received frames
    into time, status and version records. */
module UbGpsTime {
  import opened ArduinoTypes

  const MaxPayload: int := 512
  const MaxExtensions: int := 4
  const ExtensionLen: int := 30

  const Header1: uint8 := 0xB5
  const Header2: uint8 := 0x62

  const ClassNav: uint8 := 0x01
  const ClassAck: uint8 := 0x05
  const ClassCfg: uint8 := 0x06
  const ClassMon: uint8 := 0x0A
  const ClassNmea: uint8 := 0xF0

  const CfgMsg: uint8 := 0x01
  const NmeaGga: uint8 := 0x00
  const NmeaGll: uint8 := 0x01
  const NmeaGsa: uint8 := 0x02
  const NmeaGsv: uint8 := 0x03
  const NmeaRmc: uint8 := 0x04
  const NmeaVtg: uint8 := 0x05
  const MonVer: uint8 := 0x04
  const NavStatus: uint8 := 0x03
  const NavTimeUtc: uint8 := 0x21
  const AckNack: uint8 := 0x00
  const AckAck: uint8 := 0x01

  /** Default of the `wait` argument of `setMessageRate` and the
      subscriptions. */
  const DefaultWait: bool := true

  /** Payload bytes the handlers read: NAV-TIMEUTC reads offsets 0..19,
      NAV-STATUS offsets 0..5, MON-VER the 30-byte software and the 10-byte
      hardware version. */
  const TimeUtcLength: int := 20
  const StatusLength: int := 6
  const VersionLength: int := 40

  /** `UBXMESSAGE`; the heap payload is a sequence. */
  datatype Message = Message(header1: uint8, header2: uint8, msgClass: uint8, msgID: uint8,
                             payloadLength: uint16, payload: seq<uint8>, ckA: uint8, ckB: uint8)

  /** A received frame as the parser delivers it: the payload holds exactly
      `payloadLength` bytes, at most `MaxPayload`. */
  predicate WellFormed(m: Message)
  {
    |m.payload| == m.payloadLength as int <= MaxPayload
  }

  datatype Checksum = Checksum(ckA: uint8, ckB: uint8)

  datatype Pending = NothingPending | VersionPending | AckPending

  datatype TimeUtc = TimeUtc(timeOfWeek: uint32, accuracy: uint32, nanoSecond: int, year: uint16,
                             month: uint8, day: uint8, hour: uint8, minute: uint8, second: uint8,
                             utcValid: bool, timeOfWeekValid: bool, weekNumberValid: bool,
                             timestamp: uint32)

  datatype GpsStatus = GpsStatus(timeOfWeek: uint32, gpsFixType: uint8, gpsFixOk: bool,
                                 diffApplied: bool, timeOfWeekValid: bool, weekNumberValid: bool,
                                 timestamp: uint32)

  datatype ModuleVersion = ModuleVersion(swVersion: string, hwVersion: string, extensions: seq<string>)

  /** What the received frames update. */
  datatype Records = Records(pending: Pending, timeUtc: TimeUtc, gpsStatus: GpsStatus,
                             moduleVersion: ModuleVersion)

  const ZeroTimeUtc := TimeUtc(0, 0, 0, 0, 0, 0, 0, 0, 0, false, false, false, 0)
  const ZeroStatus := GpsStatus(0, 0, false, false, false, false, 0)
  const EmptyVersion := ModuleVersion("", "", ["", "", "", ""])
  const EmptyMessage := Message(0, 0, 0, 0, 0, [], 0, 0)

  // ---------------------------------------------------------------- checksum

  /** `stepChecksum`: both sums are `uint8_t` and wrap. */
  function StepChecksum(ck: Checksum, value: uint8): (r: Checksum)
    ensures r.ckA == (ck.ckA + value) % 0x100
    ensures r.ckB == (ck.ckB + ck.ckA + value) % 0x100
  {
    ModAddLeft(ck.ckA + value, ck.ckB, 0x100);
    var a := ToUint8(ck.ckA + value);
    Checksum(a, ToUint8(ck.ckB + a))
  }

  lemma FletcherSnoc(bs: seq<uint8>, x: uint8)
    ensures Fletcher(bs + [x]) == StepChecksum(Fletcher(bs), x)
  {
    assert (bs + [x])[..|bs|] == bs;
  }

  lemma FletcherOfHeader(a: uint8, b: uint8, c: uint8, d: uint8)
    ensures Fletcher([a, b, c, d]) == StepChecksum(StepChecksum(StepChecksum(StepChecksum(Checksum(0, 0), a), b), c), d)
  {
    FletcherSnoc([], a);
    assert [] + [a] == [a];
    FletcherSnoc([a], b);
    assert [a] + [b] == [a, b];
    FletcherSnoc([a, b], c);
    assert [a, b] + [c] == [a, b, c];
    FletcherSnoc([a, b, c], d);
    assert [a, b, c] + [d] == [a, b, c, d];
  }

  /** The sum of the bytes. */
  function Sum(bs: seq<uint8>): int
  {
    if bs == [] then 0 else Sum(bs[..|bs| - 1]) + bs[|bs| - 1]
  }

  /** The sum of the running sums of the bytes. */
  function RunningSums(bs: seq<uint8>): int
  {
    if bs == [] then 0 else RunningSums(bs[..|bs| - 1]) + Sum(bs)
  }

  /** The 8-bit Fletcher checksum of a byte string, from zero. Reducing
      modulo 256 at every step is reducing once at the end: CK_A is the byte
      sum and CK_B the sum of the running sums, both modulo 256. */
  function Fletcher(bs: seq<uint8>): (r: Checksum)
    ensures r == Checksum(Sum(bs) % 0x100, RunningSums(bs) % 0x100)
  {
    if bs == [] then Checksum(0, 0)
    else
      var init := bs[..|bs| - 1];
      var x := bs[|bs| - 1];
      var r := StepChecksum(Fletcher(init), x);
      ModAddLeft(Sum(init), x, 0x100);
      ModAddBoth(RunningSums(init), Sum(bs), 0x100);
      r
  }

  lemma ModAddLeft(s: int, x: int, d: int)
    requires d > 0
    ensures (s % d + x) % d == (s + x) % d
  {
    var q := s / d;
    assert s == q * d + s % d;
    ModShift(s % d + x, q, d);
  }

  lemma ModAddBoth(s: int, t: int, d: int)
    requires d > 0
    ensures (s % d + t % d) % d == (s + t) % d
  {
    ModAddLeft(s, t % d, d);
    ModAddLeft(t, s, d);
  }

  /** Adding a multiple of the modulus does not change the remainder. */
  lemma ModShift(x: int, q: int, d: int)
    requires d > 0
    ensures (x + q * d) % d == x % d
  {
    var k := x / d;
    assert x == k * d + x % d;
    assert x + q * d == (k + q) * d + x % d;
    DivModUnique(x + q * d, d, k + q, x % d);
  }

  lemma MulAtLeast(z: int, d: int)
    requires z >= 1 && d > 0
    ensures z * d >= d
  {
  }

  /** Quotient and remainder are the only ones with the remainder in range. */
  lemma DivModUnique(v: int, d: int, q: int, r: int)
    requires d > 0 && v == q * d + r && 0 <= r < d
    ensures v / d == q && v % d == r
  {
    var q2, r2 := v / d, v % d;
    assert v == q2 * d + r2;
    assert (q - q2) * d == r2 - r;
    if q - q2 >= 1 {
      MulAtLeast(q - q2, d);
    } else if q2 - q >= 1 {
      MulAtLeast(q2 - q, d);
    }
  }

  /** The bytes `calculateChecksum` covers: class, id, the length low byte
      then high byte, and the payload. */
  function ChecksumInput(m: Message): (bs: seq<uint8>)
    requires |m.payload| >= m.payloadLength as int
    ensures |bs| == 4 + m.payloadLength as int
    ensures bs[2] as int + 0x100 * bs[3] as int == m.payloadLength as int
  {
    [m.msgClass, m.msgID, m.payloadLength % 0x100, m.payloadLength / 0x100] + m.payload[..m.payloadLength]
  }

  /** The message after `sendMessage` stored its checksum in it. */
  function Sealed(m: Message): (s: Message)
    requires |m.payload| >= m.payloadLength as int
    ensures s.(ckA := m.ckA, ckB := m.ckB) == m
    ensures Checksum(s.ckA, s.ckB) == Fletcher(ChecksumInput(m))
  {
    var ck := Fletcher(ChecksumInput(m));
    m.(ckA := ck.ckA, ckB := ck.ckB)
  }

  /** The bytes of a frame with the given checksum bytes, in the order
      `sendMessage` writes them. */
  function FrameBytes(m: Message, ckA: uint8, ckB: uint8): (bs: seq<uint8>)
    requires |m.payload| >= m.payloadLength as int
    ensures |bs| == 8 + m.payloadLength as int
  {
    [m.header1, m.header2, m.msgClass, m.msgID, m.payloadLength % 0x100, m.payloadLength / 0x100]
      + m.payload[..m.payloadLength] + [ckA, ckB]
  }

  /** What `sendMessage` writes to the serial port. */
  function Frame(m: Message): (bs: seq<uint8>)
    requires |m.payload| >= m.payloadLength as int
    ensures |bs| == 8 + m.payloadLength as int
    ensures bs[..2] == [m.header1, m.header2]
    ensures bs[2..|bs| - 2] == ChecksumInput(m)
    ensures Fletcher(bs[2..|bs| - 2]) == Checksum(bs[|bs| - 2], bs[|bs| - 1])
  {
    var s := Sealed(m);
    var bs := FrameBytes(m, s.ckA, s.ckB);
    assert bs[2..|bs| - 2] == ChecksumInput(m);
    bs
  }

  // ---------------------------------------------------------------- parser

  /** The parser's fields: `_fieldCounter`, `_payloadCounter`, `_message`. */
  datatype ParserState = ParserState(fieldCounter: uint16, payloadCounter: uint16, message: Message)

  /** What the parser keeps true between bytes. */
  predicate ParserValid(p: ParserState)
  {
    var m := p.message;
    p.fieldCounter <= 8
    && (1 <= p.fieldCounter <= 5 ==> m.payload == [])
    && (p.fieldCounter == 5 ==> m.payloadLength < 0x100)
    && (p.fieldCounter == 6 ==> 0 < m.payloadLength as int <= MaxPayload && |m.payload| == m.payloadLength as int
                                && p.payloadCounter < m.payloadLength)
    && (p.fieldCounter != 6 ==> p.payloadCounter == 0)
    && (p.fieldCounter >= 7 ==> WellFormed(m))
  }

  predicate Idle(p: ParserState)
  {
    ParserValid(p) && p.fieldCounter == 0
  }

  /** A freshly allocated payload buffer; its contents are unset in the
      firmware and zero here. */
  function Buffer(n: int): (b: seq<uint8>)
    requires n >= 0
    ensures |b| == n
  {
    seq(n, _ => 0)
  }

  /** One byte of `process`: the `switch` on `_fieldCounter`. Two guards
      that never fail on a valid parser (`ParseByteValid`) make it total. */
  function ParseByte(p: ParserState, c: uint8): (r: ParserState)
    ensures p.fieldCounter == 0 ==> (r.fieldCounter != 0 <==> c == Header1)
    ensures r.fieldCounter == 0 || r.fieldCounter == p.fieldCounter + 1
            || (p.fieldCounter == 5 && r.fieldCounter == 7) || (p.fieldCounter == 6 && r.fieldCounter == 6)
    ensures p.fieldCounter == 8 ==> r.fieldCounter == 0 && r.payloadCounter == 0 && r.message.ckB == c
  {
    var m := p.message;
    var pc := p.payloadCounter;
    if p.fieldCounter == 0 then
      if c == Header1 then ParserState(1, pc, m.(header1 := c, payload := [])) else p
    else if p.fieldCounter == 1 then
      if c == Header2 then ParserState(2, pc, m.(header2 := c)) else ParserState(0, pc, m)
    else if p.fieldCounter == 2 then
      ParserState(3, pc, m.(msgClass := c))
    else if p.fieldCounter == 3 then
      ParserState(4, pc, m.(msgID := c))
    else if p.fieldCounter == 4 then
      ParserState(5, pc, m.(payloadLength := c))
    else if p.fieldCounter == 5 then
      // `|= c << 8` onto the low byte, which a valid parser holds alone
      var len: uint16 := m.payloadLength % 0x100 + c * 0x100;
      if len == 0 then ParserState(7, pc, m.(payloadLength := len))
      else if len as int > MaxPayload then ParserState(0, 0, m.(payloadLength := len))
      else ParserState(6, pc, m.(payloadLength := len, payload := Buffer(len as int)))
    else if p.fieldCounter == 6 then
      var m' := m.(payload := if pc as int < |m.payload| then m.payload[pc := c] else m.payload);
      var next := ToUint16(pc + 1);
      if next == m.payloadLength then ParserState(7, 0, m') else ParserState(6, next, m')
    else if p.fieldCounter == 7 then
      ParserState(8, pc, m.(ckA := c))
    else
      // CK_B: the counters reset and, after dispatch, the payload is freed
      ParserState(0, 0, m.(ckB := c, payload := []))
  }

  /** The parser keeps its invariant on every byte. */
  lemma ParseByteValid(p: ParserState, c: uint8)
    requires ParserValid(p)
    ensures ParserValid(ParseByte(p, c))
  {
  }

  /** The frame that byte `c` completes, if it is the CK_B byte. */
  function Completed(p: ParserState, c: uint8): (r: seq<Message>)
    ensures |r| <= 1
    ensures r != [] <==> p.fieldCounter == 8
    ensures forall m <- r :: m.ckB == c && (ParserValid(p) ==> WellFormed(m))
  {
    if p.fieldCounter == 8 then [p.message.(ckB := c)] else []
  }

  /** The parser state after a run of bytes. */
  function Run(p: ParserState, bs: seq<uint8>): ParserState
  {
    if bs == [] then p else ParseByte(Run(p, bs[..|bs| - 1]), bs[|bs| - 1])
  }

  /** The frames completed during a run of bytes, in order. */
  function Delivered(p: ParserState, bs: seq<uint8>): seq<Message>
  {
    if bs == [] then [] else Delivered(p, bs[..|bs| - 1]) + Completed(Run(p, bs[..|bs| - 1]), bs[|bs| - 1])
  }

  lemma RunSnoc(p: ParserState, bs: seq<uint8>, c: uint8)
    ensures Run(p, bs + [c]) == ParseByte(Run(p, bs), c)
    ensures Delivered(p, bs + [c]) == Delivered(p, bs) + Completed(Run(p, bs), c)
  {
    assert (bs + [c])[..|bs|] == bs;
  }

  lemma RunOnlySnoc(p: ParserState, bs: seq<uint8>, c: uint8)
    ensures Run(p, bs + [c]) == ParseByte(Run(p, bs), c)
  {
    assert (bs + [c])[..|bs|] == bs;
  }

  /** Every frame the parser delivers holds exactly its announced payload,
      at most `MaxPayload` bytes. */
  lemma {:induction false} RunValid(p: ParserState, bs: seq<uint8>)
    requires ParserValid(p)
    ensures ParserValid(Run(p, bs))
  {
    if bs != [] {
      RunValid(p, bs[..|bs| - 1]);
      ParseByteValid(Run(p, bs[..|bs| - 1]), bs[|bs| - 1]);
    }
  }

  /** Every frame the parser delivers holds exactly its announced payload,
      at most `MaxPayload` bytes. */
  lemma {:induction false} DeliveredWellFormed(p: ParserState, bs: seq<uint8>)
    requires ParserValid(p)
    ensures forall m <- Delivered(p, bs) :: WellFormed(m)
  {
    if bs != [] {
      DeliveredWellFormed(p, bs[..|bs| - 1]);
      RunValid(p, bs[..|bs| - 1]);
    }
  }

  lemma {:induction false} RunAppend(p: ParserState, a: seq<uint8>, b: seq<uint8>)
    ensures Run(p, a + b) == Run(Run(p, a), b)
    decreases |b|
  {
    if b == [] {
      assert a + b == a;
    } else {
      var b' := b[..|b| - 1];
      var c := b[|b| - 1];
      RunAppend(p, a, b');
      assert a + b == (a + b') + [c];
      assert (a + b)[..|a + b| - 1] == a + b';
    }
  }

  lemma {:induction false} DeliveredAppend(p: ParserState, a: seq<uint8>, b: seq<uint8>)
    ensures Delivered(p, a + b) == Delivered(p, a) + Delivered(Run(p, a), b)
    decreases |b|
  {
    if b == [] {
      assert a + b == a;
    } else {
      var b' := b[..|b| - 1];
      var c := b[|b| - 1];
      assert a + b == (a + b') + [c];
      assert (a + b)[..|a + b| - 1] == a + b';
      DeliveredAppend(p, a, b');
      RunAppend(p, a, b');
      var q := Run(p, a + b');
      assert Delivered(p, a + b) == Delivered(p, a + b') + Completed(q, c);
      assert Delivered(Run(p, a), b) == Delivered(Run(p, a), b') + Completed(q, c);
    }
  }

  /** Sync: an idle parser leaves idle only on 0xB5; after it, only 0x62
      advances, and any other byte returns to idle and is not looked at again
      as a possible first sync byte. */
  lemma SyncHandling(p: ParserState, c: uint8)
    requires ParserValid(p)
    ensures p.fieldCounter == 0 ==> (ParseByte(p, c).fieldCounter == 1 <==> c == Header1)
    ensures p.fieldCounter == 0 && c != Header1 ==> ParseByte(p, c) == p
    ensures p.fieldCounter == 1 ==> (ParseByte(p, c).fieldCounter == 2 <==> c == Header2)
    ensures p.fieldCounter == 1 && c != Header2 ==> ParseByte(p, c).fieldCounter == 0
  {
  }

  /** A repeated first sync byte loses the frame: 0xB5 0xB5 0x62 leaves the
      parser idle. */
  lemma {:induction false} RepeatedSyncLosesFrame(p: ParserState)
    requires Idle(p)
    ensures Run(p, [Header1, Header1, Header2]).fieldCounter == 0
  {
    RunSnoc(p, [], Header1);
    assert [] + [Header1] == [Header1];
    assert Run(p, [Header1]).fieldCounter == 1;
    RunSnoc(p, [Header1], Header1);
    assert [Header1] + [Header1] == [Header1, Header1];
    assert Run(p, [Header1, Header1]).fieldCounter == 0;
    RunSnoc(p, [Header1, Header1], Header2);
    assert [Header1, Header1] + [Header2] == [Header1, Header1, Header2];
  }

  /** The length is little-endian; zero skips to the checksum, more than
      `MaxPayload` drops the frame, otherwise a buffer of that size is
      allocated. */
  lemma LengthHandling(p: ParserState, c: uint8)
    requires ParserValid(p) && p.fieldCounter == 5
    ensures var q := ParseByte(p, c);
            var len := p.message.payloadLength as int + 0x100 * c as int;
            q.message.payloadLength as int == len
            && (len == 0 ==> q.fieldCounter == 7)
            && (len > MaxPayload ==> q.fieldCounter == 0 && q.payloadCounter == 0)
            && (0 < len <= MaxPayload ==> q.fieldCounter == 6 && |q.message.payload| == len)
  {
  }

  /** The payload state stores `data` byte after byte into the buffer and
      moves on to CK_A after exactly `payloadLength` bytes. */
  lemma {:induction false} RunPayload(p: ParserState, data: seq<uint8>)
    requires ParserValid(p) && p.fieldCounter == 6 && p.payloadCounter == 0
    requires |data| <= p.message.payloadLength as int
    ensures var r := Run(p, data);
            var done := |data| == p.message.payloadLength as int;
            r.fieldCounter == (if done then 7 else 6)
            && r.payloadCounter as int == (if done then 0 else |data|)
            && r.message == p.message.(payload := r.message.payload)
            && |r.message.payload| == |p.message.payload|
            && r.message.payload[..|data|] == data
    decreases |data|
  {
    if data != [] {
      var init := data[..|data| - 1];
      var c := data[|data| - 1];
      assert init + [c] == data;
      RunPayload(p, init);
      var q := Run(p, init);
      var k := |init|;
      assert q.fieldCounter == 6 && q.payloadCounter as int == k < |q.message.payload|;
      PayloadByte(q, c);
      RunOnlySnoc(p, init, c);
      var pay := q.message.payload[k := c];
      assert pay[..k + 1] == q.message.payload[..k] + [c];
    }
  }

  /** No frame completes inside the payload. */
  lemma {:induction false} PayloadDeliversNothing(p: ParserState, data: seq<uint8>)
    requires ParserValid(p) && p.fieldCounter == 6 && p.payloadCounter == 0
    requires |data| <= p.message.payloadLength as int
    ensures Delivered(p, data) == []
    decreases |data|
  {
    if data != [] {
      var init := data[..|data| - 1];
      var c := data[|data| - 1];
      assert init + [c] == data;
      PayloadDeliversNothing(p, init);
      RunPayload(p, init);
      RunSnoc(p, init, c);
    }
  }

  /** One payload byte is stored at the payload counter. */
  lemma PayloadByte(q: ParserState, c: uint8)
    requires q.fieldCounter == 6
    requires q.payloadCounter as int < |q.message.payload| && q.payloadCounter < q.message.payloadLength
    ensures var m' := q.message.(payload := q.message.payload[q.payloadCounter := c]);
            ParseByte(q, c)
            == if q.payloadCounter + 1 == q.message.payloadLength then ParserState(7, 0, m')
               else ParserState(6, q.payloadCounter + 1, m')
  {
  }

  lemma RunWholePayload(q: ParserState, data: seq<uint8>)
    requires ParserValid(q) && q.fieldCounter == 6 && q.payloadCounter == 0
    requires |data| == q.message.payloadLength as int
    ensures Run(q, data) == ParserState(7, 0, q.message.(payload := data))
  {
    RunPayload(q, data);
    var r := Run(q, data);
    assert r.message.payload[..|data|] == data;
    assert r.message.payload == data;
  }

  /** The six bytes before the payload: sync, class, id, length. */
  function HeaderBytes(m: Message): seq<uint8>
  {
    [m.header1, m.header2, m.msgClass, m.msgID, m.payloadLength % 0x100, m.payloadLength / 0x100]
  }

  /** One byte, with its effect given. */
  lemma RunStep(p: ParserState, bs: seq<uint8>, c: uint8, q: ParserState, q': ParserState)
    requires Run(p, bs) == q && ParseByte(q, c) == q'
    ensures Run(p, bs + [c]) == q'
  {
    RunOnlySnoc(p, bs, c);
  }

  /** A byte read while no CK_B is awaited completes no frame. */
  lemma QuietStep(p: ParserState, bs: seq<uint8>, c: uint8)
    requires Delivered(p, bs) == [] && Run(p, bs).fieldCounter != 8
    ensures Delivered(p, bs + [c]) == []
  {
    RunSnoc(p, bs, c);
  }

  /** Sync bytes and class: an idle parser ends up waiting for the id. */
  lemma RunSync(p: ParserState, msgClass: uint8)
    requires p.fieldCounter == 0
    ensures Run(p, [Header1, Header2, msgClass])
            == ParserState(3, p.payloadCounter, p.message.(header1 := Header1, header2 := Header2, msgClass := msgClass, payload := []))
  {
    assert [] + [Header1] == [Header1];
    assert [Header1] + [Header2] == [Header1, Header2];
    assert [Header1, Header2] + [msgClass] == [Header1, Header2, msgClass];
    var pc := p.payloadCounter;
    var g := p.message.(header1 := Header1, payload := []);
    var q1 := ParserState(1, pc, g);
    var q2 := ParserState(2, pc, g.(header2 := Header2));
    var q3 := ParserState(3, pc, q2.message.(msgClass := msgClass));
    assert ParseByte(p, Header1) == q1;
    assert ParseByte(q1, Header2) == q2;
    assert ParseByte(q2, msgClass) == q3;
    RunStep(p, [], Header1, p, q1);
    RunStep(p, [Header1], Header2, q1, q2);
    RunStep(p, [Header1, Header2], msgClass, q2, q3);
  }

  /** No frame completes during the sync bytes and the class. */
  lemma SyncQuiet(p: ParserState, msgClass: uint8)
    requires p.fieldCounter == 0
    ensures Delivered(p, [Header1, Header2, msgClass]) == []
  {
    assert [] + [Header1] == [Header1];
    assert [Header1] + [Header2] == [Header1, Header2];
    assert [Header1, Header2] + [msgClass] == [Header1, Header2, msgClass];
    var pc := p.payloadCounter;
    var g := p.message.(header1 := Header1, payload := []);
    var q1 := ParserState(1, pc, g);
    var q2 := ParserState(2, pc, g.(header2 := Header2));
    assert ParseByte(p, Header1) == q1;
    assert ParseByte(q1, Header2) == q2;
    RunStep(p, [], Header1, p, q1);
    RunStep(p, [Header1], Header2, q1, q2);
    QuietStep(p, [], Header1);
    QuietStep(p, [Header1], Header2);
    QuietStep(p, [Header1, Header2], msgClass);
  }

  /** Id and the two length bytes: the parser waits for the payload, or for
      CK_A when the length is zero. */
  lemma RunIdLength(q: ParserState, msgID: uint8, len: uint16)
    requires q.fieldCounter == 3 && q.payloadCounter == 0 && len as int <= MaxPayload
    ensures var got := q.message.(msgID := msgID, payloadLength := len);
            Run(q, [msgID, len % 0x100, len / 0x100])
            == (if len == 0 then ParserState(7, 0, got) else ParserState(6, 0, got.(payload := Buffer(len as int))))
  {
    var lo, hi := len % 0x100, len / 0x100;
    var got := q.message.(msgID := msgID, payloadLength := len);
    var q5 := ParserState(5, 0, q.message.(msgID := msgID, payloadLength := lo));
    var q6 := if len == 0 then ParserState(7, 0, got) else ParserState(6, 0, got.(payload := Buffer(len as int)));
    RunIdLow(q, msgID, lo);
    assert q5.message.(payloadLength := len) == got;
    LengthHighByte(q5, len);
    assert [msgID, lo] + [hi] == [msgID, lo, hi];
    RunStep(q, [msgID, lo], hi, q5, q6);
  }

  /** The id and the low length byte are stored as they come. */
  lemma RunIdLow(q: ParserState, msgID: uint8, lo: uint8)
    requires q.fieldCounter == 3
    ensures Run(q, [msgID, lo]) == ParserState(5, q.payloadCounter, q.message.(msgID := msgID, payloadLength := lo))
  {
    assert [] + [msgID] == [msgID];
    assert [msgID] + [lo] == [msgID, lo];
    var q4 := ParserState(4, q.payloadCounter, q.message.(msgID := msgID));
    var q5 := ParserState(5, q.payloadCounter, q4.message.(payloadLength := lo));
    assert ParseByte(q, msgID) == q4;
    RunStep(q, [], msgID, q, q4);
    assert ParseByte(q4, lo) == q5;
    RunStep(q, [msgID], lo, q4, q5);
  }

  /** The high length byte completes the length the low byte started. */
  lemma LengthHighByte(q5: ParserState, len: uint16)
    requires q5.fieldCounter == 5 && q5.message.payloadLength == len % 0x100 && len as int <= MaxPayload
    ensures var got := q5.message.(payloadLength := len);
            ParseByte(q5, len / 0x100)
            == (if len == 0 then ParserState(7, q5.payloadCounter, got)
                else ParserState(6, q5.payloadCounter, got.(payload := Buffer(len as int))))
  {
    assert (len % 0x100) % 0x100 + (len / 0x100) * 0x100 == len;
  }

  /** No frame completes during the id and the length bytes. */
  lemma IdLengthQuiet(q: ParserState, msgID: uint8, lo: uint8, hi: uint8)
    requires q.fieldCounter == 3
    ensures Delivered(q, [msgID, lo, hi]) == []
  {
    assert [] + [msgID] == [msgID];
    assert [msgID] + [lo] == [msgID, lo];
    assert [msgID, lo] + [hi] == [msgID, lo, hi];
    var q4 := ParserState(4, q.payloadCounter, q.message.(msgID := msgID));
    var q5 := ParserState(5, q.payloadCounter, q4.message.(payloadLength := lo));
    assert ParseByte(q, msgID) == q4;
    assert ParseByte(q4, lo) == q5;
    RunStep(q, [], msgID, q, q4);
    RunStep(q, [msgID], lo, q4, q5);
    QuietStep(q, [], msgID);
    QuietStep(q, [msgID], lo);
    QuietStep(q, [msgID, lo], hi);
  }

  /** After the six header bytes the parser holds class, id and length and
      waits for the payload, or for CK_A when there is none. */
  lemma RunHeader(p: ParserState, m: Message)
    requires Idle(p)
    requires m.header1 == Header1 && m.header2 == Header2 && WellFormed(m)
    ensures var got := m.(ckA := p.message.ckA, ckB := p.message.ckB);
            Run(p, HeaderBytes(m))
            == (if m.payloadLength == 0 then ParserState(7, 0, got)
                else ParserState(6, 0, got.(payload := Buffer(m.payloadLength as int))))
  {
    var sync := [Header1, Header2, m.msgClass];
    var rest := [m.msgID, m.payloadLength % 0x100, m.payloadLength / 0x100];
    assert sync + rest == HeaderBytes(m);
    RunSync(p, m.msgClass);
    var q3 := Run(p, sync);
    RunIdLength(q3, m.msgID, m.payloadLength);
    RunAppend(p, sync, rest);
    var got := m.(ckA := p.message.ckA, ckB := p.message.ckB);
    assert q3.message.(msgID := m.msgID, payloadLength := m.payloadLength) == got.(payload := []);
  }

  /** No frame completes during the six header bytes. */
  lemma HeaderQuiet(p: ParserState, m: Message)
    requires p.fieldCounter == 0 && m.header1 == Header1 && m.header2 == Header2
    ensures Delivered(p, HeaderBytes(m)) == []
  {
    var sync := [Header1, Header2, m.msgClass];
    var rest := [m.msgID, m.payloadLength % 0x100, m.payloadLength / 0x100];
    assert sync + rest == HeaderBytes(m);
    var q3 := ParserState(3, p.payloadCounter,
                          p.message.(header1 := Header1, header2 := Header2, msgClass := m.msgClass, payload := []));
    assert Run(p, sync) == q3 by { RunSync(p, m.msgClass); }
    assert Delivered(p, sync) == [] by { SyncQuiet(p, m.msgClass); }
    assert Delivered(q3, rest) == [] by { IdLengthQuiet(q3, m.msgID, m.payloadLength % 0x100, m.payloadLength / 0x100); }
    QuietAppend(p, sync, rest);
  }

  /** Two stretches that complete no frame make one. */
  lemma QuietAppend(p: ParserState, a: seq<uint8>, b: seq<uint8>)
    requires Delivered(p, a) == [] && Delivered(Run(p, a), b) == []
    ensures Delivered(p, a + b) == []
  {
    DeliveredAppend(p, a, b);
  }

  /** Header and payload bring an idle parser to CK_A with the frame's
      class, id, length and payload. */
  lemma RunBody(p: ParserState, m: Message)
    requires Idle(p)
    requires m.header1 == Header1 && m.header2 == Header2 && WellFormed(m)
    ensures Run(p, HeaderBytes(m) + m.payload) == ParserState(7, 0, m.(ckA := p.message.ckA, ckB := p.message.ckB))
  {
    var header := HeaderBytes(m);
    var got := m.(ckA := p.message.ckA, ckB := p.message.ckB);
    RunHeader(p, m);
    if m.payloadLength > 0 {
      var q6 := ParserState(6, 0, got.(payload := Buffer(m.payloadLength as int)));
      RunWholePayload(q6, m.payload);
      assert q6.message.(payload := m.payload) == got;
      RunAppend(p, header, m.payload);
    } else {
      assert header + m.payload == header;
    }
  }

  /** No frame completes before CK_A. */
  lemma BodyQuiet(p: ParserState, m: Message)
    requires Idle(p)
    requires m.header1 == Header1 && m.header2 == Header2 && WellFormed(m)
    ensures Delivered(p, HeaderBytes(m) + m.payload) == []
  {
    var header := HeaderBytes(m);
    var got := m.(ckA := p.message.ckA, ckB := p.message.ckB);
    HeaderQuiet(p, m);
    if m.payloadLength > 0 {
      RunHeader(p, m);
      var q6 := ParserState(6, 0, got.(payload := Buffer(m.payloadLength as int)));
      PayloadDeliversNothing(q6, m.payload);
      QuietAppend(p, header, m.payload);
    } else {
      assert header + m.payload == header;
    }
  }

  /** CK_B ends the frame and frees its payload. */
  lemma RunLast(p: ParserState, bs: seq<uint8>, q: ParserState, c: uint8)
    requires Run(p, bs) == q && q.fieldCounter == 8
    ensures Run(p, bs + [c]) == ParserState(0, 0, q.message.(ckB := c, payload := []))
  {
    assert ParseByte(q, c) == ParserState(0, 0, q.message.(ckB := c, payload := []));
    RunOnlySnoc(p, bs, c);
  }

  /** CK_B delivers the frame, its own value included. */
  lemma LastDelivers(p: ParserState, bs: seq<uint8>, q: ParserState, c: uint8)
    requires Run(p, bs) == q && Delivered(p, bs) == [] && q.fieldCounter == 8
    ensures Delivered(p, bs + [c]) == [q.message.(ckB := c)]
  {
    assert Completed(q, c) == [q.message.(ckB := c)];
    RunSnoc(p, bs, c);
  }

  /** The two checksum bytes end the frame whatever their values. */
  lemma RunChecksum(p: ParserState, bs: seq<uint8>, got: Message, ckA: uint8, ckB: uint8)
    requires Run(p, bs) == ParserState(7, 0, got)
    ensures Run(p, bs + [ckA] + [ckB]) == ParserState(0, 0, got.(ckA := ckA, ckB := ckB, payload := []))
  {
    var q8 := ParserState(8, 0, got.(ckA := ckA));
    assert ParseByte(ParserState(7, 0, got), ckA) == q8;
    RunStep(p, bs, ckA, ParserState(7, 0, got), q8);
    RunLast(p, bs + [ckA], q8, ckB);
  }

  /** The two checksum bytes deliver the frame whatever their values. */
  lemma ChecksumDelivers(p: ParserState, bs: seq<uint8>, got: Message, ckA: uint8, ckB: uint8)
    requires Run(p, bs) == ParserState(7, 0, got) && Delivered(p, bs) == []
    ensures Delivered(p, bs + [ckA] + [ckB]) == [got.(ckA := ckA, ckB := ckB)]
  {
    var q8 := ParserState(8, 0, got.(ckA := ckA));
    assert ParseByte(ParserState(7, 0, got), ckA) == q8;
    RunStep(p, bs, ckA, ParserState(7, 0, got), q8);
    QuietStep(p, bs, ckA);
    LastDelivers(p, bs + [ckA], q8, ckB);
  }

  /** Feeding a frame with sync bytes and at most `MaxPayload` payload bytes
      to an idle parser delivers exactly that frame, whatever its checksum
      bytes are: incoming checksums are not checked. The parser is idle
      again afterwards, with the payload freed. */
  lemma ParseFrame(p: ParserState, m: Message, ckA: uint8, ckB: uint8)
    requires Idle(p)
    requires m.header1 == Header1 && m.header2 == Header2 && WellFormed(m)
    ensures Run(p, FrameBytes(m, ckA, ckB)) == ParserState(0, 0, m.(ckA := ckA, ckB := ckB, payload := []))
    ensures Delivered(p, FrameBytes(m, ckA, ckB)) == [m.(ckA := ckA, ckB := ckB)]
  {
    var body := HeaderBytes(m) + m.payload;
    var got := m.(ckA := p.message.ckA, ckB := p.message.ckB);
    assert m.payload[..m.payloadLength] == m.payload;
    assert FrameBytes(m, ckA, ckB) == body + [ckA] + [ckB];
    assert got.(ckA := ckA, ckB := ckB) == m.(ckA := ckA, ckB := ckB);
    RunBody(p, m);
    BodyQuiet(p, m);
    RunChecksum(p, body, got, ckA, ckB);
    ChecksumDelivers(p, body, got, ckA, ckB);
  }

  /** Round trip: what `sendMessage` writes, fed to an idle parser, yields
      the message sent, checksum included. */
  lemma FrameRoundTrip(p: ParserState, m: Message)
    requires Idle(p)
    requires m.header1 == Header1 && m.header2 == Header2 && WellFormed(m)
    ensures Delivered(p, Frame(m)) == [Sealed(m)]
    ensures Idle(Run(p, Frame(m)))
  {
    var s := Sealed(m);
    ParseFrame(p, m, s.ckA, s.ckB);
  }

  // ---------------------------------------------------------------- fields

  function Pow2(n: nat): (r: nat)
    ensures r > 0
  {
    if n == 0 then 1 else 2 * Pow2(n - 1)
  }

  lemma {:induction false} Pow2Grows(n: nat)
    ensures n >= 8 ==> Pow2(n) >= 0x100
  {
    if n > 8 {
      Pow2Grows(n - 1);
    }
  }

  /** `getU1`. */
  function GetU1(payload: seq<uint8>, offset: int): (r: uint8)
    requires 0 <= offset < |payload|
    ensures r == FromLittleEndian(payload[offset..offset + 1])
  {
    assert payload[offset..offset + 1][1..] == [];
    payload[offset]
  }

  /** `getU2`: the bytes occupy disjoint bits, so the `|=` are sums. */
  function GetU2(payload: seq<uint8>, offset: int): (r: uint16)
    requires 0 <= offset && offset + 2 <= |payload|
    ensures r == FromLittleEndian(payload[offset..offset + 2])
  {
    var a, b := payload[offset], payload[offset + 1];
    assert payload[offset..offset + 2] == [a, b];
    assert [a, b][1..] == [b];
    assert [b][1..] == [];
    assert FromLittleEndian([b]) == b;
    payload[offset] as int + payload[offset + 1] as int * 0x100
  }

  /** `getU4`. */
  function GetU4(payload: seq<uint8>, offset: int): (r: uint32)
    requires 0 <= offset && offset + 4 <= |payload|
    ensures r == FromLittleEndian(payload[offset..offset + 4])
  {
    var a, b, c, d := payload[offset], payload[offset + 1], payload[offset + 2], payload[offset + 3];
    assert payload[offset..offset + 4] == [a, b, c, d];
    assert [a, b, c, d][1..] == [b, c, d];
    assert [b, c, d][1..] == [c, d];
    assert [c, d][1..] == [d];
    assert [d][1..] == [];
    assert FromLittleEndian([d]) == d;
    assert FromLittleEndian([c, d]) == c as int + 0x100 * d as int;
    assert FromLittleEndian([b, c, d]) == b as int + 0x100 * (c as int + 0x100 * d as int);
    payload[offset] as int + payload[offset + 1] as int * 0x100 + payload[offset + 2] as int * 0x1_0000
      + payload[offset + 3] as int * 0x100_0000
  }

  /** `getI4`: the `uint32_t` reinterpreted as a two's complement
      `int32_t`: it lies in the `int32_t` range and agrees with `getU4`
      modulo 2^32. */
  function GetI4(payload: seq<uint8>, offset: int): (r: int)
    requires 0 <= offset && offset + 4 <= |payload|
    ensures -0x8000_0000 <= r < 0x8000_0000
    ensures r % Two32 == GetU4(payload, offset)
  {
    var u := GetU4(payload, offset);
    if u >= 0x8000_0000 then
      DivModUnique(u - Two32, Two32, -1, u);
      u - Two32
    else u
  }

  /** `getFlag`: bit `bit` of the byte at `offset`. */
  function GetFlag(payload: seq<uint8>, offset: int, bit: uint8): (r: uint8)
    requires 0 <= offset < |payload|
    ensures r <= 1
    ensures bit >= 8 ==> r == 0
  {
    Pow2Grows(bit as nat);
    (GetU1(payload, offset) / Pow2(bit as nat)) % 2
  }

  /** The value of a little-endian byte string. */
  function FromLittleEndian(bs: seq<uint8>): nat
  {
    if bs == [] then 0 else bs[0] + 0x100 * FromLittleEndian(bs[1..])
  }

  /** The `n` low bytes of `v`, least significant first. */
  function LittleEndian(v: nat, n: nat): (bs: seq<uint8>)
    ensures |bs| == n
  {
    if n == 0 then [] else [v % 0x100] + LittleEndian(v / 0x100, n - 1)
  }

  function Pow256(n: nat): (r: nat)
    ensures r > 0
  {
    if n == 0 then 1 else 0x100 * Pow256(n - 1)
  }

  lemma {:induction false} FromLittleEndianBound(bs: seq<uint8>)
    ensures FromLittleEndian(bs) < Pow256(|bs|)
  {
    if bs != [] {
      FromLittleEndianBound(bs[1..]);
      assert FromLittleEndian(bs[1..]) + 1 <= Pow256(|bs| - 1);
      assert 0x100 * (FromLittleEndian(bs[1..]) + 1) <= 0x100 * Pow256(|bs| - 1);
    }
  }

  /** Encoding then decoding keeps the value modulo the width. */
  lemma {:induction false} LittleEndianDecodes(v: nat, n: nat)
    ensures FromLittleEndian(LittleEndian(v, n)) == v % Pow256(n)
  {
    if n > 0 {
      LittleEndianDecodes(v / 0x100, n - 1);
      var bs := LittleEndian(v, n);
      assert bs[1..] == LittleEndian(v / 0x100, n - 1);
      DivModNest(v, 0x100, Pow256(n - 1));
    }
  }

  /** v % (d * e) == v % d + d * ((v / d) % e). */
  lemma DivModNest(v: nat, d: nat, e: nat)
    requires d > 0 && e > 0
    ensures v % (d * e) == v % d + d * ((v / d) % e)
  {
    var q := v / d;
    var r := v % d;
    var q2 := q / e;
    var r2 := q % e;
    assert v == q * d + r;
    assert q == q2 * e + r2;
    MulDistributes(q2 * e, r2, d);
    MulAssociates(q2, e, d);
    assert v == q2 * (d * e) + (d * r2 + r);
    NestedRemainderBelow(r2, e, r, d);
    DivModUnique(v, d * e, q2, d * r2 + r);
  }

  lemma MulDistributes(a: int, b: int, d: int)
    ensures (a + b) * d == a * d + b * d
  {
  }

  lemma MulAssociates(a: int, b: int, c: int)
    ensures (a * b) * c == a * (c * b)
  {
  }

  /** A remainder below `d` plus `d` times one below `e` stays below `d * e`. */
  lemma NestedRemainderBelow(r2: int, e: int, r: int, d: int)
    requires 0 <= r2 < e && 0 <= r < d
    ensures 0 <= d * r2 + r < d * e
  {
    MulAtLeast(e - r2, d);
    MulDistributes(e, -r2, d);
    assert d * r2 >= 0;
  }

  /** Decoding then encoding gives the bytes back. */
  lemma {:induction false} LittleEndianEncodes(bs: seq<uint8>)
    ensures LittleEndian(FromLittleEndian(bs), |bs|) == bs
  {
    if bs != [] {
      var v := FromLittleEndian(bs);
      var rest := FromLittleEndian(bs[1..]);
      DivModUnique(v, 0x100, rest, bs[0]);
      assert v / 0x100 == rest by {
        DivModUnique(v, 0x100, rest, bs[0]);
      }
      LittleEndianEncodes(bs[1..]);
      assert LittleEndian(v, |bs|) == [bs[0]] + bs[1..];
    }
  }

  /** A `uint32` written little-endian reads back through `getU4`. */
  lemma GetU4RoundTrip(payload: seq<uint8>, offset: int, v: uint32)
    requires 0 <= offset && offset + 4 <= |payload|
    requires payload[offset..offset + 4] == LittleEndian(v, 4)
    ensures GetU4(payload, offset) == v
  {
    LittleEndianDecodes(v, 4);
    assert Pow256(4) == Two32;
  }

  /** Any `int32_t` written as its 32-bit two's complement, little-endian,
      reads back through `getI4`. */
  lemma SignedField(payload: seq<uint8>, offset: int, x: int)
    requires 0 <= offset && offset + 4 <= |payload|
    ensures -0x8000_0000 <= x < 0x8000_0000 && payload[offset..offset + 4] == LittleEndian(ToUint32(x), 4)
            ==> GetI4(payload, offset) == x
  {
    if -0x8000_0000 <= x < 0x8000_0000 && payload[offset..offset + 4] == LittleEndian(ToUint32(x), 4) {
      GetU4RoundTrip(payload, offset, ToUint32(x));
      if x < 0 {
        DivModUnique(x, Two32, -1, x + Two32);
      }
    }
  }

  /** The first `k` flag bits, weighted. */
  function FlagBits(payload: seq<uint8>, offset: int, k: nat): nat
    requires 0 <= offset < |payload| && k <= 8
  {
    if k == 0 then 0 else FlagBits(payload, offset, k - 1) + GetFlag(payload, offset, (k - 1) as uint8) * Pow2(k - 1)
  }

  /** `getFlag` yields 0 or 1, and the eight flags of a byte are its
      binary digits: together they rebuild it. */
  lemma {:induction false} FlagsAreBits(payload: seq<uint8>, offset: int, k: nat)
    requires 0 <= offset < |payload| && k <= 8
    ensures forall bit: uint8 :: GetFlag(payload, offset, bit) <= 1
    ensures FlagBits(payload, offset, k) == payload[offset] % Pow2(k)
  {
    if k > 0 {
      FlagsAreBits(payload, offset, k - 1);
      var b := payload[offset];
      var p := Pow2(k - 1);
      var bit := (b / p) % 2;
      assert GetFlag(payload, offset, (k - 1) as uint8) == bit;
      assert FlagBits(payload, offset, k) == b % p + bit * p;
      DivModNest(b, p, 2);
      assert p * 2 == Pow2(k);
      assert p * bit == bit * p;
    }
  }

  /** The text of a NUL-terminated field of at most `length` bytes. The read
      stays inside the payload when the whole window fits, or when a NUL
      inside the payload ends it first. */
  function CString(payload: seq<uint8>, offset: int, length: int): (s: string)
    requires 0 <= offset && 0 <= length
    requires offset + length <= |payload| || StringReadsInside(payload, offset, offset + length)
    ensures |s| <= length
    decreases length
  {
    if length == 0 || payload[offset] == 0 then ""
    else [payload[offset] as char] + CString(payload, offset + 1, length - 1)
  }

  /** `getString` stops at the first NUL or after `length` bytes: the text
      holds the bytes up to there and no NUL. */
  lemma {:induction false} CStringStops(payload: seq<uint8>, offset: int, length: int)
    requires 0 <= offset && 0 <= length && offset + length <= |payload|
    ensures var s := CString(payload, offset, length);
            (forall k :: 0 <= k < |s| ==> s[k] == payload[offset + k] as char && payload[offset + k] != 0)
            && (|s| < length ==> payload[offset + |s|] == 0)
    decreases length
  {
    if length > 0 && payload[offset] != 0 {
      CStringStops(payload, offset + 1, length - 1);
      var t := CString(payload, offset + 1, length - 1);
      var s := CString(payload, offset, length);
      assert s == [payload[offset] as char] + t;
      forall k | 0 <= k < |s|
        ensures s[k] == payload[offset + k] as char && payload[offset + k] != 0
      {
        if k > 0 {
          assert s[k] == t[k - 1];
        }
      }
    }
  }

  // ---------------------------------------------------------------- handlers

  /** `onTimeUTC`: the fields of NAV-TIMEUTC at their offsets, little-endian,
      the validity flags being bits 0 (time of week), 1 (week number) and 2
      (UTC) of byte 19; stamped with the current uptime. */
  function TimeUtcOf(payload: seq<uint8>, now: uint32): (r: TimeUtc)
    requires |payload| >= TimeUtcLength
    ensures r.timeOfWeek == FromLittleEndian(payload[0..4]) && r.accuracy == FromLittleEndian(payload[4..8])
    ensures -0x8000_0000 <= r.nanoSecond < 0x8000_0000 && r.nanoSecond % Two32 == FromLittleEndian(payload[8..12])
    ensures r.year == FromLittleEndian(payload[12..14])
    ensures r.month == payload[14] && r.day == payload[15] && r.hour == payload[16]
    ensures r.minute == payload[17] && r.second == payload[18]
    ensures r.timeOfWeekValid <==> payload[19] % 2 == 1
    ensures r.weekNumberValid <==> payload[19] / 2 % 2 == 1
    ensures r.utcValid <==> payload[19] / 4 % 2 == 1
    ensures r.timestamp == now
  {
    TimeUtc(GetU4(payload, 0), GetU4(payload, 4), GetI4(payload, 8), GetU2(payload, 12),
            GetU1(payload, 14), GetU1(payload, 15), GetU1(payload, 16), GetU1(payload, 17),
            GetU1(payload, 18),
            GetFlag(payload, 19, 2) != 0, GetFlag(payload, 19, 0) != 0, GetFlag(payload, 19, 1) != 0,
            now)
  }

  /** `onStatus`: the time of week little-endian at offset 0, the fix type
      at 4, and bits 0 to 3 of byte 5 as the fix-ok, corrections-applied,
      time-of-week-valid and week-number-valid flags; stamped with the
      current uptime. */
  function StatusOf(payload: seq<uint8>, now: uint32): (r: GpsStatus)
    requires |payload| >= StatusLength
    ensures r.timeOfWeek == FromLittleEndian(payload[0..4]) && r.gpsFixType == payload[4]
    ensures r.gpsFixOk <==> payload[5] % 2 == 1
    ensures r.diffApplied <==> payload[5] / 2 % 2 == 1
    ensures r.timeOfWeekValid <==> payload[5] / 4 % 2 == 1
    ensures r.weekNumberValid <==> payload[5] / 8 % 2 == 1
    ensures r.timestamp == now
  {
    GpsStatus(GetU4(payload, 0), GetU1(payload, 4), GetFlag(payload, 5, 0) != 0,
              GetFlag(payload, 5, 1) != 0, GetFlag(payload, 5, 2) != 0, GetFlag(payload, 5, 3) != 0,
              now)
  }

  /** Extension `i` of MON-VER: present when the payload reaches past it. */
  function Extension(m: Message, i: nat): string
    requires WellFormed(m)
  {
    var offset := VersionLength + ExtensionLen * i;
    if m.payloadLength as int >= offset + ExtensionLen then CString(m.payload, offset, ExtensionLen) else "N/A"
  }

  /** The two version strings of MON-VER are read inside the payload: each
      one ends at a NUL or at the end of its window before the payload does. */
  predicate VersionReadsInside(m: Message)
  {
    StringReadsInside(m.payload, 0, 30) && StringReadsInside(m.payload, 30, 40)
  }

  /** `onVersion`'s record. */
  function VersionOf(m: Message): ModuleVersion
    requires WellFormed(m) && VersionReadsInside(m)
  {
    ModuleVersion(CString(m.payload, 0, 30), CString(m.payload, 30, 10),
                  [Extension(m, 0), Extension(m, 1), Extension(m, 2), Extension(m, 3)])
  }

  /** Where `onVersion`'s read stands before extension `i`: just past the
      extensions before it, or short of that once one did not fit. */
  predicate ExtensionOffset(m: Message, i: int, offset: int)
  {
    VersionLength <= offset <= MaxPayload
    && (offset == VersionLength + ExtensionLen * i
        || (offset < VersionLength + ExtensionLen * i && m.payloadLength as int < offset + ExtensionLen))
  }

  /** One extension of `onVersion`: read at `offset` when its bytes fit,
      "N/A" otherwise. */
  lemma ExtensionStep(m: Message, i: nat, offset: int)
    requires WellFormed(m) && ExtensionOffset(m, i, offset)
    ensures m.payloadLength as int >= offset + ExtensionLen ==>
              offset + ExtensionLen <= |m.payload|
              && Extension(m, i) == CString(m.payload, offset, ExtensionLen)
              && ExtensionOffset(m, i + 1, offset + ExtensionLen)
    ensures m.payloadLength as int < offset + ExtensionLen ==>
              Extension(m, i) == "N/A" && ExtensionOffset(m, i + 1, offset)
  {
    assert VersionLength + ExtensionLen * (i + 1) == VersionLength + ExtensionLen * i + ExtensionLen;
  }

  /** MON-VER: four extensions; those present form a prefix, each one
      present exactly when its 30 bytes fit in the payload. */
  lemma VersionLayout(m: Message, i: nat, j: nat)
    requires WellFormed(m) && VersionReadsInside(m)
    requires i <= j < MaxExtensions
    ensures |VersionOf(m).extensions| == MaxExtensions
    ensures VersionOf(m).extensions[j] == Extension(m, j)
    ensures m.payloadLength as int >= VersionLength + ExtensionLen * (j + 1)
            ==> Extension(m, j) == CString(m.payload, VersionLength + ExtensionLen * j, ExtensionLen)
    ensures Extension(m, j) != "N/A" ==> Extension(m, i) != "N/A" || Extension(m, i) == CString(m.payload, VersionLength + ExtensionLen * i, ExtensionLen)
    ensures m.payloadLength as int < VersionLength + ExtensionLen * (i + 1) ==> Extension(m, j) == "N/A"
  {
  }

  /** The payload length the handler of a frame needs. */
  function NeededLength(m: Message): int
  {
    if m.msgClass == ClassMon && m.msgID == MonVer then VersionLength
    else if m.msgClass == ClassNav && m.msgID == NavStatus then StatusLength
    else if m.msgClass == ClassNav && m.msgID == NavTimeUtc then TimeUtcLength
    else 0
  }

  /** `processMessage`, with each payload handler run only when the payload
      holds every byte it reads. */
  function Dispatch(r: Records, m: Message, now: uint32): (r': Records)
    requires WellFormed(m)
    ensures !UnguardedReadsInside(m) ==> r' == r
    ensures r'.pending != r.pending ==> r'.pending == NothingPending
  {
    if m.msgClass == ClassAck then
      if m.msgID == AckAck || m.msgID == AckNack then r.(pending := NothingPending) else r
    else if m.msgClass == ClassMon then
      if m.msgID == MonVer && VersionReadsInside(m)
      then r.(moduleVersion := VersionOf(m), pending := NothingPending) else r
    else if m.msgClass == ClassNav then
      if m.msgID == NavStatus && m.payloadLength as int >= StatusLength then r.(gpsStatus := StatusOf(m.payload, now))
      else if m.msgID == NavTimeUtc && m.payloadLength as int >= TimeUtcLength then r.(timeUtc := TimeUtcOf(m.payload, now))
      else r
    else r
  }

  /** The frames of one `process` call, dispatched in order. */
  function DispatchAll(r: Records, ms: seq<Message>, now: uint32): Records
    requires forall m <- ms :: WellFormed(m)
  {
    if ms == [] then r else Dispatch(DispatchAll(r, ms[..|ms| - 1], now), ms[|ms| - 1], now)
  }

  /** ACK-ACK, ACK-NACK and MON-VER clear the wait for a response; no other
      frame touches it. */
  lemma ResponsesClearPending(r: Records, m: Message, now: uint32)
    requires WellFormed(m)
    ensures m.msgClass == ClassAck && (m.msgID == AckAck || m.msgID == AckNack) ==> Dispatch(r, m, now).pending == NothingPending
    ensures m.msgClass == ClassMon && m.msgID == MonVer && VersionReadsInside(m)
            ==> Dispatch(r, m, now).pending == NothingPending
    ensures Dispatch(r, m, now).pending != r.pending ==> Dispatch(r, m, now).pending == NothingPending
    ensures !(m.msgClass == ClassAck || (m.msgClass == ClassMon && m.msgID == MonVer))
            ==> Dispatch(r, m, now).pending == r.pending
  {
  }

  // ------------------------------------------------ the unguarded dispatch

  /** Whether the `getString` loop from `i` to `end` stays inside the payload:
      it reads until a NUL or until `end`. */
  predicate StringReadsInside(payload: seq<uint8>, i: nat, end: nat)
    decreases end - i
  {
    i >= end || (i < |payload| && (payload[i] == 0 || StringReadsInside(payload, i + 1, end)))
  }

  /** `processMessage` as written calls the handler of a NAV-TIMEUTC,
      NAV-STATUS or MON-VER frame whatever its length. This holds when every
      payload byte that handler reads exists. */
  predicate UnguardedReadsInside(m: Message)
  {
    if m.msgClass == ClassMon && m.msgID == MonVer then VersionReadsInside(m)
    else if m.msgClass == ClassNav && m.msgID == NavStatus then |m.payload| >= StatusLength
    else if m.msgClass == ClassNav && m.msgID == NavTimeUtc then |m.payload| >= TimeUtcLength
    else true
  }

  /** A zero-length NAV-TIMEUTC frame, the shape of the firmware's own poll
      request, is accepted by the parser and handed to a handler that reads
      twenty bytes of a payload that has none. */
  lemma ShortTimeFrameReadsPastPayload(p: ParserState)
    requires Idle(p)
    ensures var m := Message(Header1, Header2, ClassNav, NavTimeUtc, 0, [], 0, 0);
            Delivered(p, Frame(m)) == [Sealed(m)] && !UnguardedReadsInside(Sealed(m))
  {
    var m := Message(Header1, Header2, ClassNav, NavTimeUtc, 0, [], 0, 0);
    FrameRoundTrip(p, m);
  }

  lemma {:induction false} StringReadsInsideWhenFits(payload: seq<uint8>, i: nat, end: nat)
    requires end <= |payload|
    ensures StringReadsInside(payload, i, end)
    decreases end - i
  {
    if i < end {
      StringReadsInsideWhenFits(payload, i + 1, end);
    }
  }

  /** The guarded dispatch runs the handler of a NAV-TIMEUTC, NAV-STATUS or
      MON-VER frame exactly when every byte that handler reads exists, and
      leaves the records alone otherwise; a frame of the full documented
      length always qualifies. */
  lemma GuardedDispatchReadsInside(r: Records, m: Message, now: uint32)
    requires WellFormed(m)
    ensures !UnguardedReadsInside(m) ==> Dispatch(r, m, now) == r
    ensures m.msgClass == ClassMon && m.msgID == MonVer && UnguardedReadsInside(m)
            ==> Dispatch(r, m, now) == r.(moduleVersion := VersionOf(m), pending := NothingPending)
    ensures m.msgClass == ClassNav && m.msgID == NavStatus && UnguardedReadsInside(m)
            ==> Dispatch(r, m, now) == r.(gpsStatus := StatusOf(m.payload, now))
    ensures m.msgClass == ClassNav && m.msgID == NavTimeUtc && UnguardedReadsInside(m)
            ==> Dispatch(r, m, now) == r.(timeUtc := TimeUtcOf(m.payload, now))
    ensures m.payloadLength as int >= NeededLength(m) ==> UnguardedReadsInside(m)
  {
    if m.payloadLength as int >= VersionLength {
      StringReadsInsideWhenFits(m.payload, 0, 30);
      StringReadsInsideWhenFits(m.payload, 30, 40);
    }
  }

  /** A MON-VER frame shorter than the 40 bytes of the two version strings is
      still handled when its strings end inside it: 35 zero bytes give two
      empty strings, no extension, and end the wait for a response. */
  lemma ShortVersionHandled(r: Records, now: uint32)
    ensures var m := Message(Header1, Header2, ClassMon, MonVer, 35, seq(35, _ => 0), 0, 0);
            WellFormed(m) && UnguardedReadsInside(m)
            && Dispatch(r, m, now) == r.(moduleVersion := ModuleVersion("", "", ["N/A", "N/A", "N/A", "N/A"]),
                                         pending := NothingPending)
  {
    var m := Message(Header1, Header2, ClassMon, MonVer, 35, seq(35, _ => 0), 0, 0);
    assert m.payload[0] == 0 && m.payload[30] == 0;
    assert VersionReadsInside(m);
  }

  // ---------------------------------------------------------------- requests

  /** The CFG-MSG frame of `setMessageRate`. */
  function RateMessage(msgClass: uint8, msgID: uint8, rate: uint8): (m: Message)
    ensures WellFormed(m) && m.payload == [msgClass, msgID, rate]
  {
    Message(Header1, Header2, ClassCfg, CfgMsg, 3, [msgClass, msgID, rate], 0, 0)
  }

  /** The zero-length frame of `pollMessage`. */
  function PollRequest(msgClass: uint8, msgID: uint8): (m: Message)
    ensures WellFormed(m) && m.payloadLength == 0
  {
    Message(Header1, Header2, msgClass, msgID, 0, [], 0, 0)
  }

  /** A poll request is the eight bytes sync, class, id, zero length and
      the checksum of those four bytes. */
  lemma PollFrame(msgClass: uint8, msgID: uint8)
    ensures var bs := Frame(PollRequest(msgClass, msgID));
            bs[..6] == [Header1, Header2, msgClass, msgID, 0, 0]
            && Checksum(bs[6], bs[7]) == Fletcher([msgClass, msgID, 0, 0])
  {
  }

  class GpsReceiver {
    var hasSerialPort: bool
    var notify: bool
    var initialized: bool
    var pending: Pending
    var timeUtc: TimeUtc
    var gpsStatus: GpsStatus
    var moduleVersion: ModuleVersion
    var message: Message
    var fieldCounter: uint16
    var payloadCounter: uint16

    function Parser(): ParserState
      reads this
    {
      ParserState(fieldCounter, payloadCounter, message)
    }

    function State(): Records
      reads this
    {
      Records(pending, timeUtc, gpsStatus, moduleVersion)
    }

    predicate Valid()
      reads this
    {
      ParserValid(Parser()) && |moduleVersion.extensions| == MaxExtensions
    }

    constructor ()
      ensures Valid() && Idle(Parser())
      ensures State() == Records(NothingPending, ZeroTimeUtc, ZeroStatus, EmptyVersion)
      ensures !hasSerialPort && !notify && !initialized
    {
      hasSerialPort := false;
      notify := false;
      initialized := false;
      pending := NothingPending;
      timeUtc := ZeroTimeUtc;
      gpsStatus := ZeroStatus;
      moduleVersion := EmptyVersion;
      message := EmptyMessage;
      fieldCounter := 0;
      payloadCounter := 0;
    }

    /** `begin`: the serial port is known from now on. */
    method Begin()
      modifies this
      ensures hasSerialPort && notify == old(notify) && Parser() == old(Parser()) && State() == old(State())
      ensures initialized == old(initialized)
    {
      hasSerialPort := true;
    }

    method Attach()
      modifies this
      ensures notify && hasSerialPort == old(hasSerialPort) && Parser() == old(Parser()) && State() == old(State())
      ensures initialized == old(initialized)
    {
      notify := true;
    }

    method Detach()
      modifies this
      ensures !notify && hasSerialPort == old(hasSerialPort) && Parser() == old(Parser()) && State() == old(State())
      ensures initialized == old(initialized)
    {
      notify := false;
    }

    /** `calculateChecksum`. */
    static method CalculateChecksum(m: Message) returns (ck: Checksum)
      requires |m.payload| >= m.payloadLength as int
      ensures ck == Fletcher(ChecksumInput(m))
    {
      ghost var input := ChecksumInput(m);
      ck := Checksum(0, 0);
      ck := StepChecksum(ck, m.msgClass);
      ck := StepChecksum(ck, m.msgID);
      ck := StepChecksum(ck, m.payloadLength % 0x100);
      ck := StepChecksum(ck, m.payloadLength / 0x100);
      FletcherOfHeader(m.msgClass, m.msgID, m.payloadLength % 0x100, m.payloadLength / 0x100);
      assert input[..4] == [m.msgClass, m.msgID, m.payloadLength % 0x100, m.payloadLength / 0x100];
      var i: uint16 := 0;
      while i < m.payloadLength
        invariant 0 <= i <= m.payloadLength
        invariant ck == Fletcher(input[..4 + i as int])
      {
        FletcherSnoc(input[..4 + i as int], m.payload[i]);
        assert input[..4 + i as int] + [m.payload[i]] == input[..4 + i as int + 1];
        ck := StepChecksum(ck, m.payload[i]);
        i := i + 1;
      }
      assert input[..4 + m.payloadLength as int] == input;
    }

    /** `sendMessage`: with a serial port, the frame with its checksum
        filled in; without one, nothing. */
    method SendMessage(m: Message) returns (written: seq<uint8>, sent: Message)
      requires |m.payload| >= m.payloadLength as int
      ensures hasSerialPort ==> written == Frame(m) && sent == Sealed(m)
      ensures !hasSerialPort ==> written == [] && sent == m
    {
      if !hasSerialPort {
        return [], m;
      }
      var ck := CalculateChecksum(m);
      sent := m.(ckA := ck.ckA, ckB := ck.ckB);
      written := [sent.header1, sent.header2, sent.msgClass, sent.msgID, sent.payloadLength % 0x100,
                  sent.payloadLength / 0x100];
      var i: uint16 := 0;
      ghost var head := written;
      while i < sent.payloadLength
        invariant 0 <= i <= sent.payloadLength
        invariant written == head + m.payload[..i]
      {
        assert m.payload[..i + 1] == m.payload[..i] + [m.payload[i]];
        written := written + [sent.payload[i]];
        i := i + 1;
      }
      written := written + [sent.ckA, sent.ckB];
      assert sent == Sealed(m);
      assert written == FrameBytes(m, sent.ckA, sent.ckB);
    }

    /** `pollMessage`. */
    method PollMessage(msgClass: uint8, msgID: uint8) returns (written: seq<uint8>)
      ensures written == if hasSerialPort then Frame(PollRequest(msgClass, msgID)) else []
    {
      var sent;
      written, sent := SendMessage(PollRequest(msgClass, msgID));
    }

    method RequestVersion() returns (written: seq<uint8>)
      ensures written == if hasSerialPort then Frame(PollRequest(ClassMon, MonVer)) else []
    {
      written := PollMessage(ClassMon, MonVer);
    }

    method RequestStatus() returns (written: seq<uint8>)
      ensures written == if hasSerialPort then Frame(PollRequest(ClassNav, NavStatus)) else []
    {
      written := PollMessage(ClassNav, NavStatus);
    }

    method RequestTimeUtc() returns (written: seq<uint8>)
      ensures written == if hasSerialPort then Frame(PollRequest(ClassNav, NavTimeUtc)) else []
    {
      written := PollMessage(ClassNav, NavTimeUtc);
    }

    /** `setMessageRate`: sends CFG-MSG and, when asked to wait, marks an
        acknowledgement as pending. The bounded wait that follows is not part
        of this model. */
    method SetMessageRate(msgClass: uint8, msgID: uint8, rate: uint8, wait: bool) returns (written: seq<uint8>)
      modifies this
      ensures written == if hasSerialPort then Frame(RateMessage(msgClass, msgID, rate)) else []
      ensures pending == if wait then AckPending else old(pending)
      ensures State() == old(State()).(pending := pending)
      ensures Parser() == old(Parser()) && hasSerialPort == old(hasSerialPort) && notify == old(notify)
      ensures initialized == old(initialized)
    {
      var sent;
      written, sent := SendMessage(RateMessage(msgClass, msgID, rate));
      if wait {
        pending := AckPending;
      }
    }

    method SubscribeGpsStatus(rate: uint8, wait: bool) returns (written: seq<uint8>)
      modifies this
      ensures written == if hasSerialPort then Frame(RateMessage(ClassNav, NavStatus, rate)) else []
      ensures State() == old(State()).(pending := if wait then AckPending else old(pending))
      ensures Parser() == old(Parser()) && hasSerialPort == old(hasSerialPort) && notify == old(notify)
      ensures initialized == old(initialized)
    {
      written := SetMessageRate(ClassNav, NavStatus, rate, wait);
    }

    method SubscribeTimeUtc(rate: uint8, wait: bool) returns (written: seq<uint8>)
      modifies this
      ensures written == if hasSerialPort then Frame(RateMessage(ClassNav, NavTimeUtc, rate)) else []
      ensures State() == old(State()).(pending := if wait then AckPending else old(pending))
      ensures Parser() == old(Parser()) && hasSerialPort == old(hasSerialPort) && notify == old(notify)
      ensures initialized == old(initialized)
    {
      written := SetMessageRate(ClassNav, NavTimeUtc, rate, wait);
    }

    /** `getString`. */
    static method GetString(payload: seq<uint8>, offset: uint16, length: uint16) returns (s: string)
      requires offset as int + length as int <= |payload|
               || StringReadsInside(payload, offset as int, offset as int + length as int)
      ensures s == CString(payload, offset as int, length as int)
    {
      s := "";
      var i: int := offset as int;
      while i < offset as int + length as int
        invariant offset as int <= i <= offset as int + length as int
        invariant offset as int + length as int <= |payload|
                  || StringReadsInside(payload, i, offset as int + length as int)
        invariant s + CString(payload, i, offset as int + length as int - i)
                  == CString(payload, offset as int, length as int)
        decreases offset as int + length as int - i
      {
        if payload[i] != 0 {
          assert CString(payload, i, offset as int + length as int - i)
                 == [payload[i] as char] + CString(payload, i + 1, offset as int + length as int - i - 1);
          s := s + [payload[i] as char];
          i := i + 1;
        } else {
          break;
        }
      }
    }

    /** The loop of `onVersion` over the extensions, starting at `offset`. */
    static method ReadExtensions(m: Message, offset: uint16) returns (extensions: seq<string>)
      requires WellFormed(m) && offset as int == VersionLength
      ensures extensions == [Extension(m, 0), Extension(m, 1), Extension(m, 2), Extension(m, 3)]
    {
      var at := offset;
      extensions := ["", "", "", ""];
      var i := 0;
      while i < MaxExtensions
        invariant 0 <= i <= MaxExtensions && |extensions| == MaxExtensions
        invariant ExtensionOffset(m, i, at as int)
        invariant forall k :: 0 <= k < i ==> extensions[k] == Extension(m, k)
      {
        ExtensionStep(m, i, at as int);
        if m.payloadLength as int >= at as int + ExtensionLen {
          var ext := GetString(m.payload, at, ExtensionLen as uint16);
          extensions := extensions[i := ext];
          at := at + ExtensionLen as uint16;
        } else {
          extensions := extensions[i := "N/A"];
        }
        i := i + 1;
      }
      assert extensions == [Extension(m, 0), Extension(m, 1), Extension(m, 2), Extension(m, 3)];
    }

    /** The record `onVersion` builds: the two version strings, then each
        extension read while the payload still holds 30 more bytes, "N/A"
        otherwise. */
    static method ReadVersion(m: Message) returns (v: ModuleVersion)
      requires WellFormed(m) && VersionReadsInside(m)
      ensures v == VersionOf(m)
    {
      var offset: uint16 := 0;
      var sw := GetString(m.payload, offset, 30);
      offset := offset + 30;
      var hw := GetString(m.payload, offset, 10);
      offset := offset + 10;
      var extensions := ReadExtensions(m, offset);
      v := ModuleVersion(sw, hw, extensions);
    }

    /** `onVersion`: stores the record and ends the wait for a response. */
    method OnVersion(m: Message)
      requires WellFormed(m) && VersionReadsInside(m)
      modifies this
      ensures State() == old(State()).(moduleVersion := VersionOf(m), pending := NothingPending)
      ensures Parser() == old(Parser()) && hasSerialPort == old(hasSerialPort) && notify == old(notify)
      ensures initialized == old(initialized)
    {
      moduleVersion := ReadVersion(m);
      pending := NothingPending;
    }

    /** `processMessage` (the checksum test is constantly true). */
    method ProcessMessage(m: Message, now: uint32)
      requires WellFormed(m) && |moduleVersion.extensions| == MaxExtensions
      modifies this
      ensures State() == Dispatch(old(State()), m, now)
      ensures |moduleVersion.extensions| == MaxExtensions
      ensures Parser() == old(Parser()) && hasSerialPort == old(hasSerialPort) && notify == old(notify)
      ensures initialized == old(initialized)
    {
      if m.msgClass == ClassAck {
        if m.msgID == AckAck || m.msgID == AckNack {
          pending := NothingPending;
        }
      } else if m.msgClass == ClassMon {
        if m.msgID == MonVer && VersionReadsInside(m) {
          OnVersion(m);
        }
      } else if m.msgClass == ClassNav {
        if m.msgID == NavStatus && m.payloadLength as int >= StatusLength {
          gpsStatus := StatusOf(m.payload, now);
        } else if m.msgID == NavTimeUtc && m.payloadLength as int >= TimeUtcLength {
          timeUtc := TimeUtcOf(m.payload, now);
        }
      }
    }

    /** One byte of `process`. */
    method ProcessByte(c: uint8, now: uint32) returns (done: seq<Message>)
      requires Valid()
      modifies this
      ensures Valid()
      ensures Parser() == ParseByte(old(Parser()), c)
      ensures done == Completed(old(Parser()), c)
      ensures State() == DispatchAll(old(State()), done, now)
      ensures hasSerialPort == old(hasSerialPort) && notify == old(notify)
      ensures initialized == old(initialized)
    {
      done := [];
      if fieldCounter == 0 {
        if c == Header1 {
          message := message.(header1 := c, payload := []);
          fieldCounter := 1;
        }
      } else if fieldCounter == 1 {
        if c == Header2 {
          message := message.(header2 := c);
          fieldCounter := 2;
        } else {
          fieldCounter := 0;
        }
      } else if fieldCounter == 2 {
        message := message.(msgClass := c);
        fieldCounter := 3;
      } else if fieldCounter == 3 {
        message := message.(msgID := c);
        fieldCounter := 4;
      } else if fieldCounter == 4 {
        message := message.(payloadLength := c);
        fieldCounter := 5;
      } else if fieldCounter == 5 {
        message := message.(payloadLength := message.payloadLength + c * 0x100);
        if message.payloadLength == 0 {
          fieldCounter := 7;
        } else if message.payloadLength as int > MaxPayload {
          fieldCounter := 0;
          payloadCounter := 0;
        } else {
          message := message.(payload := Buffer(message.payloadLength as int));
          fieldCounter := 6;
        }
      } else if fieldCounter == 6 {
        message := message.(payload := message.payload[payloadCounter := c]);
        payloadCounter := payloadCounter + 1;
        if payloadCounter == message.payloadLength {
          payloadCounter := 0;
          fieldCounter := 7;
        }
      } else if fieldCounter == 7 {
        message := message.(ckA := c);
        fieldCounter := 8;
      } else {
        message := message.(ckB := c);
        fieldCounter := 0;
        payloadCounter := 0;
        done := [message];
        assert [message][..0] == [];
        ProcessMessage(message, now);
        message := message.(payload := []);
      }
    }

    /** `ProcessByte` seen as one more byte of a run that started in parser
        state `p0` with records `r0`. */
    method ConsumeByte(c: uint8, now: uint32, ghost p0: ParserState, ghost r0: Records,
                       ghost seen: seq<uint8>, ghost delivered: seq<Message>) returns (done: seq<Message>)
      requires Valid() && ParserValid(p0)
      requires Parser() == Run(p0, seen) && delivered == Delivered(p0, seen)
      requires (forall m <- delivered :: WellFormed(m)) && State() == DispatchAll(r0, delivered, now)
      modifies this
      ensures Valid()
      ensures Parser() == Run(p0, seen + [c]) && delivered + done == Delivered(p0, seen + [c])
      ensures (forall m <- delivered + done :: WellFormed(m)) && State() == DispatchAll(r0, delivered + done, now)
      ensures hasSerialPort == old(hasSerialPort) && notify == old(notify)
      ensures initialized == old(initialized)
    {
      ghost var r1 := State();
      done := ProcessByte(c, now);
      ProcessStep(p0, r0, seen, c, r1, done, now);
    }

    /** `process`: reads every available byte; the frames completed on the
        way are dispatched in order and, while a listener is attached,
        passed on to it. `now` stands for `millis()` during the call. */
    method Process(available: seq<uint8>, now: uint32) returns (notified: seq<Message>)
      requires Valid()
      modifies this
      ensures Valid()
      ensures !hasSerialPort ==> Parser() == old(Parser()) && State() == old(State()) && notified == []
      ensures hasSerialPort ==>
                var delivered := Delivered(old(Parser()), available);
                (forall m <- delivered :: WellFormed(m))
                && Parser() == Run(old(Parser()), available)
                && State() == DispatchAll(old(State()), delivered, now)
                && notified == (if notify then delivered else [])
      ensures hasSerialPort == old(hasSerialPort) && notify == old(notify)
      ensures initialized == old(initialized)
    {
      notified := [];
      if !hasSerialPort {
        return;
      }
      ghost var p0, r0 := Parser(), State();
      ghost var seen: seq<uint8>, delivered: seq<Message> := [], [];
      var i := 0;
      while i < |available|
        invariant 0 <= i <= |available| && seen == available[..i]
        invariant Valid()
        invariant Parser() == Run(p0, seen) && delivered == Delivered(p0, seen)
        invariant (forall m <- delivered :: WellFormed(m)) && State() == DispatchAll(r0, delivered, now)
        invariant notified == if notify then delivered else []
        invariant hasSerialPort == old(hasSerialPort) && notify == old(notify)
        invariant initialized == old(initialized)
      {
        assert available[..i + 1] == available[..i] + [available[i]];
        var done := ConsumeByte(available[i], now, p0, r0, seen, delivered);
        seen, delivered := seen + [available[i]], delivered + done;
        if notify {
          notified := notified + done;
        }
        i := i + 1;
      }
      assert available[..i] == available;
    }
  }

  /** What one byte of `process` adds to the bytes seen so far: the parser
      steps, the completed frame (if any) is delivered and dispatched. */
  lemma ProcessStep(p0: ParserState, r0: Records, pre: seq<uint8>, c: uint8, r1: Records, done: seq<Message>, now: uint32)
    requires ParserValid(p0) && forall m <- Delivered(p0, pre) :: WellFormed(m)
    requires r1 == DispatchAll(r0, Delivered(p0, pre), now) && done == Completed(Run(p0, pre), c)
    ensures Run(p0, pre + [c]) == ParseByte(Run(p0, pre), c)
    ensures Delivered(p0, pre + [c]) == Delivered(p0, pre) + done
    ensures forall m <- Delivered(p0, pre + [c]) :: WellFormed(m)
    ensures forall m <- done :: WellFormed(m)
    ensures DispatchAll(r1, done, now) == DispatchAll(r0, Delivered(p0, pre + [c]), now)
  {
    RunSnoc(p0, pre, c);
    DeliveredWellFormed(p0, pre + [c]);
    DispatchAllAppend(r0, Delivered(p0, pre), done, now);
  }

  lemma DispatchAllAppend(r: Records, ms: seq<Message>, done: seq<Message>, now: uint32)
    requires |done| <= 1
    requires forall m <- ms :: WellFormed(m)
    requires forall m <- done :: WellFormed(m)
    ensures DispatchAll(r, ms + done, now) == DispatchAll(DispatchAll(r, ms, now), done, now)
  {
    if done == [] {
      assert ms + done == ms;
    } else {
      assert (ms + done)[..|ms + done| - 1] == ms;
      assert done[..0] == [];
    }
  }
}

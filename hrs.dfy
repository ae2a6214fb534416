/** The heart-rate strain-gauge GATT service: the measurement encoder, the
    bounded RR-interval buffer, the connection and CCCD-write handlers, service
    registration and the notification send path. */
module Hrs {
  import opened Nrf
  import opened Encoding

  const HeartRateServiceUuid: uint16 := 0x180D
  const HeartRateMeasurementCharUuid: uint16 := 0x2A37
  const BodySensorLocationCharUuid: uint16 := 0x2A38

  /** Number of zero samples the initial characteristic value encodes, and the
      timer period it carries. */
  const InitialSampleCount: nat := 200
  const InitialTimerPeriod: uint8 := 5

  /** MAX_HRM_LEN: the notification payload for the largest ATT_MTU the
      application is configured for (NRF_SDH_BLE_GATT_MAX_MTU_SIZE). */
  function MaxHrmLen(gattMaxMtuSize: uint16): nat
    requires gattMaxMtuSize >= 23
  {
    gattMaxMtuSize - OpcodeLength - HandleLength
  }

  /** A decoded measurement: the running count, the timer period and the samples. */
  datatype HrmFields = HrmFields(totCount: uint32, timerPeriod: uint8, samples: seq<uint16>)

  /** The 2-byte little-endian pieces of the samples, in input order: the bytes
      `memcpy` takes from each 16-bit sample on the little-endian core. */
  function SampleChunks(samples: seq<uint16>): (r: seq<seq<uint8>>)
    ensures |r| == |samples|
    ensures forall i :: 0 <= i < |r| ==> r[i] == LeBytes(samples[i], 2)
  {
    seq(|samples|, i requires 0 <= i < |samples| => LeBytes(samples[i], 2))
  }

  /** The pieces `hrm_encode` copies, in order: `tot_count` (4 bytes),
      `timer_period`, `buffer_len`, then every sample. */
  function HrmChunks(f: HrmFields): seq<seq<uint8>>
    requires |f.samples| < 256
  {
    [LeBytes(f.totCount, 4), [f.timerPeriod], [|f.samples|]] + SampleChunks(f.samples)
  }

  /** The samples on the wire, little-endian, one after the other. */
  function SampleBytes(samples: seq<uint16>): (r: seq<uint8>)
    ensures |r| == 2 * |samples|
  {
    if samples == [] then [] else LeBytes(samples[0], 2) + SampleBytes(samples[1..])
  }

  /** The measurement format: `[u32 tot_count][u8 timer_period][u8 n][n x u16]`. */
  function HrmWire(f: HrmFields): (r: seq<uint8>)
    requires |f.samples| < 256
    ensures |r| == 6 + 2 * |f.samples|
  {
    LeBytes(f.totCount, 4) + [f.timerPeriod, |f.samples|] + SampleBytes(f.samples)
  }

  /** The samples a byte string of even length holds. */
  function SampleValues(s: seq<uint8>): (r: seq<uint16>)
    requires |s| % 2 == 0
    ensures |r| == |s| / 2
  {
    if s == [] then [] else [Uint16Value(s[..2])] + SampleValues(s[2..])
  }

  /** The reference decoder of the measurement format: the header fields, and
      exactly as many samples as the count byte announces. */
  function HrmDecode(w: seq<uint8>): Option<HrmFields>
  {
    if |w| < 6 || |w| != 6 + 2 * (w[5] as int) then None
    else Some(HrmFields(Uint32Value(w[..4]), w[4], SampleValues(w[6..])))
  }

  lemma {:induction false} SampleRoundTrip(samples: seq<uint16>)
    ensures SampleValues(SampleBytes(samples)) == samples
  {
    if samples != [] {
      var s := SampleBytes(samples);
      assert s[..2] == LeBytes(samples[0], 2) && s[2..] == SampleBytes(samples[1..]);
      LeRoundTrip(samples[0], 2);
      SampleRoundTrip(samples[1..]);
    }
  }

  lemma {:induction false} SampleBytesOfValues(s: seq<uint8>)
    requires |s| % 2 == 0
    ensures SampleBytes(SampleValues(s)) == s
  {
    if s != [] {
      var v := SampleValues(s);
      assert v[0] == Uint16Value(s[..2]) && v[1..] == SampleValues(s[2..]);
      LeBytesOfValue(s[..2]);
      SampleBytesOfValues(s[2..]);
      assert s == s[..2] + s[2..];
    }
  }

  /** What `hrm_encode` copies, concatenated, is the measurement format. */
  lemma {:induction false} HrmChunksWire(f: HrmFields)
    requires |f.samples| < 256
    ensures Flatten(HrmChunks(f)) == HrmWire(f)
  {
    var hs := [LeBytes(f.totCount, 4), [f.timerPeriod], [|f.samples|]];
    FlattenAppend(hs, SampleChunks(f.samples));
    FlattenThree(LeBytes(f.totCount, 4), [f.timerPeriod], [|f.samples|]);
    SampleChunksBytes(f.samples);
  }

  lemma {:induction false} SampleChunksBytes(samples: seq<uint16>)
    ensures Flatten(SampleChunks(samples)) == SampleBytes(samples)
  {
    if samples != [] {
      var c := SampleChunks(samples);
      assert c == [LeBytes(samples[0], 2)] + SampleChunks(samples[1..]);
      FlattenAppend([LeBytes(samples[0], 2)], SampleChunks(samples[1..]));
      assert [LeBytes(samples[0], 2)][..0] == [];
      SampleChunksBytes(samples[1..]);
    }
  }

  /** Decoding an encoded measurement gives it back. */
  lemma HrmRoundTrip(f: HrmFields)
    requires |f.samples| < 256
    ensures HrmDecode(HrmWire(f)) == Some(f)
  {
    var w := HrmWire(f);
    assert w[..4] == LeBytes(f.totCount, 4) && w[4] == f.timerPeriod && w[5] == |f.samples|;
    assert w[6..] == SampleBytes(f.samples);
    LeRoundTrip(f.totCount, 4);
    assert Pow256(4) == 0x1_0000_0000;
    SampleRoundTrip(f.samples);
  }

  /** Every byte string the decoder accepts is the encoding of what it decodes to. */
  lemma HrmDecodeSound(w: seq<uint8>)
    requires HrmDecode(w).Some?
    ensures |HrmDecode(w).value.samples| < 256
    ensures HrmWire(HrmDecode(w).value) == w
  {
    var f := HrmDecode(w).value;
    SampleBytesOfValues(w[6..]);
    assert w == w[..4] + [w[4], w[5]] + w[6..];
  }

  /** The room `hrm_encode` needs in its output buffer: writes end at
      `6 + 2n` when the `uint8_t` offset does not wrap, and never pass byte 256
      either way, because every offset it copies a sample at is even. */
  function HrmRoom(n: nat): nat
  {
    if 6 + 2 * n <= 256 then 6 + 2 * n else 256
  }

  /** How many bytes `hrm_encode` has copied before piece `k`. */
  lemma HrmPrefixLength(f: HrmFields, k: nat)
    requires |f.samples| < 256 && k <= 3 + |f.samples|
    ensures |Flatten(HrmChunks(f)[..k])| == if k < 3 then [0, 4, 5][k] else 6 + 2 * (k - 3)
  {
    var cs := HrmChunks(f);
    var hs := [LeBytes(f.totCount, 4), [f.timerPeriod], [|f.samples|]];
    if k == 0 {
      assert cs[..k] == [];
    } else if k == 1 {
      var p: seq<seq<uint8>> := cs[..k];
      assert p == [hs[0]] && p[..0] == [];
    } else if k == 2 {
      var p: seq<seq<uint8>> := cs[..k];
      var q: seq<seq<uint8>> := p[..1];
      assert p == [hs[0], hs[1]] && q == [hs[0]] && q[..0] == [];
      assert Flatten(q) == hs[0];
      assert p[..|p| - 1] == q;
    } else {
      var body := SampleChunks(f.samples)[..k - 3];
      assert cs[..k] == hs + body;
      FlattenAppend(hs, body);
      FlattenThree(hs[0], hs[1], hs[2]);
      FlattenUniformLength(body, 2);
    }
  }

  /** With the room, every piece lands inside the buffer. */
  lemma HrmFits(f: HrmFields, cap: nat)
    requires |f.samples| < 256 && HrmRoom(|f.samples|) <= cap
    ensures Fits(HrmChunks(f), cap)
  {
    var cs := HrmChunks(f);
    forall k | 0 <= k < |cs|
      ensures Offset(cs[..k]) + |cs[k]| <= cap
    {
      HrmPrefixLength(f, k);
      if k >= 3 {
        EvenModByte(6 + 2 * (k - 3));
      }
    }
  }

  /** Without the room, some piece lands past the end of the buffer. */
  lemma HrmOverruns(f: HrmFields, cap: nat)
    requires |f.samples| < 256 && cap < HrmRoom(|f.samples|)
    ensures !Fits(HrmChunks(f), cap)
  {
    var n := |f.samples|;
    var cs := HrmChunks(f);
    var k := if cap < 6 then 2 else if 6 + 2 * n <= 256 then 2 + n else 127;
    HrmPrefixLength(f, k);
    assert Offset(cs[..k]) + |cs[k]| > cap;
  }

  /** The copies stay inside a buffer of `cap` bytes exactly when it has the room. */
  lemma HrmFitsIff(f: HrmFields, cap: nat)
    requires |f.samples| < 256
    ensures Fits(HrmChunks(f), cap) <==> HrmRoom(|f.samples|) <= cap
  {
    if HrmRoom(|f.samples|) <= cap {
      HrmFits(f, cap);
    } else {
      HrmOverruns(f, cap);
    }
  }

  lemma EvenModByte(x: nat)
    requires x % 2 == 0
    ensures x % 256 <= 254
  {
    var q := x / 256;
    assert x == 256 * q + x % 256;
    assert (x % 256) % 2 == 0;
  }

  /** `hrm_encode`: copy `tot_count`, `timer_period`, `buffer_len` and the
      samples at a running `uint8_t` offset, and return that offset. */
  method HrmEncode(samples: seq<uint16>, totCount: uint32, timerPeriod: uint8, buf: array<uint8>) returns (len: uint8)
    requires |samples| < 256
    requires HrmRoom(|samples|) <= buf.Length
    modifies buf
    ensures buf[..] == WriteChunks(old(buf[..]), HrmChunks(HrmFields(totCount, timerPeriod, samples)))
    ensures len == HrmLen(|samples|)
  {
    ghost var f := HrmFields(totCount, timerPeriod, samples);
    ghost var cs := HrmChunks(f);
    ghost var b0 := buf[..];
    assert cs[..0] == [];
    len := 0;
    HrmPieceFits(f, buf.Length, 0);
    len := CopyPiece(buf, len, LeBytes(totCount, 4), b0, cs, 0);
    HrmPieceFits(f, buf.Length, 1);
    len := CopyPiece(buf, len, [timerPeriod], b0, cs, 1);
    HrmPieceFits(f, buf.Length, 2);
    len := CopyPiece(buf, len, [|samples| as uint8], b0, cs, 2);
    var i := 0;
    while i < |samples|
      invariant 0 <= i <= |samples|
      invariant buf[..] == WriteChunks(b0, cs[..3 + i])
      invariant len == Offset(cs[..3 + i])
    {
      HrmPieceFits(f, buf.Length, 3 + i);
      len := CopyPiece(buf, len, LeBytes(samples[i], 2), b0, cs, 3 + i);
      i := i + 1;
    }
    assert cs[..3 + |samples|] == cs;
    HrmOffset(f);
  }

  /** Piece `k` lands inside a buffer with the room for the encoding. */
  lemma HrmPieceFits(f: HrmFields, cap: nat, k: nat)
    requires |f.samples| < 256 && HrmRoom(|f.samples|) <= cap && k < |HrmChunks(f)|
    ensures Offset(HrmChunks(f)[..k]) + |HrmChunks(f)[k]| <= cap
  {
    HrmFitsIff(f, cap);
  }

  /** The length `hrm_encode` returns for `n` samples: the encoding's length
      in its `uint8_t` counter. */
  function HrmLen(n: nat): uint8
  {
    (6 + 2 * n) % 256
  }

  /** The encoder's final `uint8_t` offset. */
  lemma HrmOffset(f: HrmFields)
    requires |f.samples| < 256
    ensures Offset(HrmChunks(f)) == HrmLen(|f.samples|)
  {
    HrmChunksWire(f);
  }

  /** With at most 125 samples (256 bytes) the copies do not wrap: the buffer
      starts with the measurement format. */
  lemma HrmEncodeNoWrap(f: HrmFields, b: seq<uint8>)
    requires |f.samples| <= 125 && HrmRoom(|f.samples|) <= |b|
    ensures WriteChunks(b, HrmChunks(f))[..6 + 2 * |f.samples|] == HrmWire(f)
  {
    HrmChunksWire(f);
    WriteChunksShort(b, HrmChunks(f));
  }

  /** What `ble_hrs_init` encodes as the initial measurement value. */
  const InitialHrmFields: HrmFields := HrmFields(0, InitialTimerPeriod, seq(InitialSampleCount, _ => 0))

  lemma InitialHrm(cap: nat)
    ensures HrmLen(InitialSampleCount) == 150
    ensures HrmRoom(InitialSampleCount) == 256
    ensures Fits(HrmChunks(InitialHrmFields), cap) <==> cap >= 256
  {
    HrmFitsIff(InitialHrmFields, cap);
  }

  /** As written, the 200-sample initial value overruns the MAX_HRM_LEN stack
      buffer for every ATT_MTU below 259, the stock 23 and 247 among them. */
  lemma InitialHrmOverruns(gattMaxMtuSize: uint16)
    requires 23 <= gattMaxMtuSize < 259
    ensures !Fits(HrmChunks(InitialHrmFields), MaxHrmLen(gattMaxMtuSize))
  {
    InitialHrm(MaxHrmLen(gattMaxMtuSize));
  }

  /** The corrected initial sample count: the 200 samples when they fit a
      `cap`-byte buffer, and otherwise the most zero samples that do. */
  function FittingSampleCount(cap: nat): (n: nat)
    requires cap >= 6
    ensures n <= InitialSampleCount && HrmRoom(n) <= cap
    ensures HrmRoom(InitialSampleCount) <= cap ==> n == InitialSampleCount
    ensures n < InitialSampleCount ==> n <= 125 && cap < HrmRoom(n + 1)
  {
    if HrmRoom(InitialSampleCount) <= cap then InitialSampleCount else (cap - 6) / 2
  }

  /** The corrected initial value: `FittingSampleCount(cap)` zero samples. */
  function FittingHrmFields(cap: nat): (f: HrmFields)
    requires cap >= 6
    ensures |f.samples| == FittingSampleCount(cap) && f.totCount == 0 && f.timerPeriod == InitialTimerPeriod
  {
    HrmFields(0, InitialTimerPeriod, seq(FittingSampleCount(cap), _ => 0))
  }

  /** The corrected initial value stays inside its buffer for every ATT_MTU,
      and is the source's value wherever that one fits. */
  lemma FittingHrmFits(gattMaxMtuSize: uint16)
    requires gattMaxMtuSize >= 23
    ensures Fits(HrmChunks(FittingHrmFields(MaxHrmLen(gattMaxMtuSize))), MaxHrmLen(gattMaxMtuSize))
    ensures gattMaxMtuSize >= 259 ==> FittingHrmFields(MaxHrmLen(gattMaxMtuSize)) == InitialHrmFields
  {
    HrmFits(FittingHrmFields(MaxHrmLen(gattMaxMtuSize)), MaxHrmLen(gattMaxMtuSize));
  }

  /** The events the service passes to its application handler. */
  datatype HrsEvt = NotificationEnabled | NotificationDisabled

  /** Identity of the application's event handler; `None` stands for NULL. */
  datatype EvtHandler = EvtHandler(id: nat)

  /** `on_hrm_cccd_write`: the event a CCCD write raises. */
  function CccdWriteEvent(data: seq<uint8>, handler: Option<EvtHandler>): (r: Option<HrsEvt>)
    ensures r.Some? <==> |data| == 2 && handler.Some?
    ensures r.Some? ==> (r.value == NotificationEnabled <==> data[0] % 2 == 1)
  {
    if |data| == 2 && handler.Some? then
      Some(if IsNotificationEnabled(data) then NotificationEnabled else NotificationDisabled)
    else None
  }

  /** The fields of `ble_hrs_init_t` the service reads; security levels are
      not modelled. */
  datatype HrsInit = HrsInit(evtHandler: Option<EvtHandler>, isSensorContactSupported: bool,
                             bodySensorLocation: Option<uint8>)

  /** A request of `sd_ble_gatts_value_set`: link, attribute handle and value. */
  datatype ValueSetCall = ValueSetCall(connHandle: uint16, handle: uint16, value: seq<uint8>)

  /** The parameters of the heart-rate measurement characteristic, with the
      buffer holding the initial value. */
  function HrmCharParams(gattMaxMtuSize: uint16, initLen: uint8, initValue: seq<uint8>): CharParams
    requires gattMaxMtuSize >= 23
  {
    CharParams(HeartRateMeasurementCharUuid, MaxHrmLen(gattMaxMtuSize) as uint16, initLen, initValue, true, true, false)
  }

  /** The parameters of the body sensor location characteristic. */
  function BslCharParams(location: uint8): CharParams
  {
    CharParams(BodySensorLocationCharUuid, 1, 1, [location], false, false, true)
  }

  /** The buffered RR intervals after `rr_interval_add(x)` on a buffer of
      capacity `cap`: the oldest value is dropped when the buffer is full. */
  function RrAdd(s: seq<uint16>, cap: nat, x: uint16): seq<uint16>
    requires 0 < cap
  {
    if |s| == cap then s[1..] + [x] else s + [x]
  }

  /** Adding the values `xs` one by one. */
  function RrAddAll(s: seq<uint16>, cap: nat, xs: seq<uint16>): seq<uint16>
    requires 0 < cap
    decreases |xs|
  {
    if xs == [] then s else RrAddAll(RrAdd(s, cap, xs[0]), cap, xs[1..])
  }

  /** The last `min(|t|, cap)` values of `t`, oldest first. */
  function LastN(t: seq<uint16>, cap: nat): (r: seq<uint16>)
    ensures |r| == if |t| < cap then |t| else cap
  {
    if |t| <= cap then t else t[|t| - cap..]
  }

  /** After any sequence of adds the buffer holds the most recent values, at
      most `cap` of them, in the order they were added. */
  lemma {:induction false} RrAddAllKeepsLast(s: seq<uint16>, cap: nat, xs: seq<uint16>)
    requires 0 < cap && |s| <= cap
    ensures RrAddAll(s, cap, xs) == LastN(s + xs, cap)
    decreases |xs|
  {
    if xs == [] {
      assert s + xs == s;
    } else {
      var s' := RrAdd(s, cap, xs[0]);
      assert s + xs == s + [xs[0]] + xs[1..];
      RrAddAllKeepsLast(s', cap, xs[1..]);
      if |s| == cap {
        assert LastN(s' + xs[1..], cap) == LastN(s + xs, cap) by {
          var t := s + xs;
          assert s' + xs[1..] == t[1..];
        }
      } else {
        assert s' + xs[1..] == s + xs;
      }
    }
  }

  /** From an empty buffer: the buffer is full exactly when at least `cap`
      values were added. */
  lemma RrFullAfter(cap: nat, xs: seq<uint16>)
    requires 0 < cap
    ensures |RrAddAll([], cap, xs)| == cap <==> |xs| >= cap
    ensures RrAddAll([], cap, xs) == LastN(xs, cap)
  {
    RrAddAllKeepsLast([], cap, xs);
    assert [] + xs == xs;
  }

  /** The service record `ble_hrs_t`. */
  class HeartRateService {
    /** NRF_SDH_BLE_GATT_MAX_MTU_SIZE, a build-time setting. */
    const gattMaxMtuSize: uint16
    /** `rr_interval[BLE_HRS_MAX_BUFFERED_RR_INTERVALS]`. */
    const rrInterval: array<uint16>
    var evtHandler: Option<EvtHandler>
    var isSensorContactSupported: bool
    var isSensorContactDetected: bool
    var connHandle: uint16
    var rrIntervalCount: nat
    var maxHrmLen: uint16
    var serviceHandle: uint16
    var hrmHandles: CharHandles
    var bslHandles: CharHandles

    ghost predicate Valid()
      reads this
    {
      gattMaxMtuSize >= 23 && rrInterval.Length > 0 && rrIntervalCount <= rrInterval.Length
    }

    /** The buffered RR intervals, oldest first. */
    ghost function RrIntervals(): seq<uint16>
      reads this, rrInterval
      requires Valid()
    {
      rrInterval[..rrIntervalCount]
    }

    /** The statically allocated, zero-initialised record (BLE_HRS_DEF). */
    constructor (gattMaxMtuSize: uint16, maxBufferedRrIntervals: nat)
      requires gattMaxMtuSize >= 23 && maxBufferedRrIntervals > 0
      ensures Valid() && fresh(rrInterval)
      ensures this.gattMaxMtuSize == gattMaxMtuSize && rrInterval.Length == maxBufferedRrIntervals
      ensures rrIntervalCount == 0 && connHandle == 0 && evtHandler == None
    {
      this.gattMaxMtuSize := gattMaxMtuSize;
      rrInterval := new uint16[maxBufferedRrIntervals](_ => 0);
      evtHandler := None;
      isSensorContactSupported := false;
      isSensorContactDetected := false;
      connHandle := 0;
      rrIntervalCount := 0;
      maxHrmLen := 0;
      serviceHandle := 0;
      hrmHandles := CharHandles(0, 0, 0, 0);
      bslHandles := CharHandles(0, 0, 0, 0);
    }

    /** `ble_hrs_on_ble_evt` with `on_connect`, `on_disconnect` and `on_write`:
        track the link, and report the event a write to the measurement CCCD
        raises (none for any other handle or event). */
    method OnBleEvt(evt: BleEvt) returns (raised: Option<HrsEvt>)
      modifies this`connHandle
      ensures evt.GapConnected? ==> connHandle == evt.connHandle
      ensures evt.GapDisconnected? ==> connHandle == ConnHandleInvalid
      ensures !evt.GapConnected? && !evt.GapDisconnected? ==> connHandle == old(connHandle)
      ensures raised == if evt.GattsWrite? && evt.handle == hrmHandles.cccdHandle
                        then CccdWriteEvent(evt.data, evtHandler) else None
    {
      raised := None;
      match evt {
        case GapConnected(c) =>
          connHandle := c;
        case GapDisconnected(_) =>
          connHandle := ConnHandleInvalid;
        case GattsWrite(_, handle, data) =>
          if handle == hrmHandles.cccdHandle {
            raised := CccdWriteEvent(data, evtHandler);
          }
        case _ =>
      }
    }

    /** `ble_hrs_init`: initialise the record, then register the service, the
        measurement characteristic and, when a location is given, the body
        sensor location characteristic, stopping at the first stack error. The
        stack's replies are parameters; `calls` lists the requests made. */
    method Init(init: HrsInit, serviceReply: ServiceAddReply, hrmReply: CharAddReply, bslReply: CharAddReply)
      returns (err: uint32, calls: seq<StackCall>)
      requires Valid()
      modifies this`evtHandler, this`isSensorContactSupported, this`connHandle, this`isSensorContactDetected,
               this`rrIntervalCount, this`maxHrmLen, this`serviceHandle, this`hrmHandles, this`bslHandles
      ensures Valid()
      ensures evtHandler == init.evtHandler && isSensorContactSupported == init.isSensorContactSupported
      ensures connHandle == ConnHandleInvalid && !isSensorContactDetected && rrIntervalCount == 0
      ensures maxHrmLen as nat == MaxHrmLen(gattMaxMtuSize)
      ensures RegisterOutcome(init.bodySensorLocation, serviceReply, hrmReply, bslReply, err, calls,
                              old(hrmHandles), old(bslHandles))
    {
      evtHandler := init.evtHandler;
      isSensorContactSupported := init.isSensorContactSupported;
      connHandle := ConnHandleInvalid;
      isSensorContactDetected := false;
      rrIntervalCount := 0;
      maxHrmLen := MaxHrmLen(gattMaxMtuSize) as uint16;
      err, calls := Register(init.bodySensorLocation, serviceReply, hrmReply, bslReply);
    }

    /** The registration part of `ble_hrs_init`: the calls made and the error
        returned for the stack's replies, and the handles recorded. */
    ghost predicate RegisterOutcome(location: Option<uint8>, serviceReply: ServiceAddReply, hrmReply: CharAddReply,
                                    bslReply: CharAddReply, err: uint32, calls: seq<StackCall>,
                                    oldHrmHandles: CharHandles, oldBslHandles: CharHandles)
      reads this
      requires gattMaxMtuSize >= 23
    {
      && |calls| >= 1 && calls[0] == ServiceAdd(Uuid(HeartRateServiceUuid, UuidTypeBle))
      && serviceHandle == serviceReply.serviceHandle
      && (serviceReply.err != Success ==> err == serviceReply.err && |calls| == 1 && hrmHandles == oldHrmHandles)
      && (serviceReply.err == Success ==>
            |calls| >= 2 && calls[1].CharAdd? && calls[1].serviceHandle == serviceHandle &&
            calls[1].params == HrmCharParams(gattMaxMtuSize, HrmLen(FittingSampleCount(MaxHrmLen(gattMaxMtuSize))),
                                             calls[1].params.initValue) &&
            |calls[1].params.initValue| == MaxHrmLen(gattMaxMtuSize) && hrmHandles == hrmReply.handles)
      && (serviceReply.err == Success && hrmReply.err != Success ==> err == hrmReply.err && |calls| == 2)
      && (serviceReply.err == Success && hrmReply.err == Success && location.None? ==>
            err == Success && |calls| == 2)
      && (serviceReply.err == Success && hrmReply.err == Success && location.Some? ==>
            |calls| == 3 && calls[2] == CharAdd(serviceHandle, BslCharParams(location.value)) &&
            bslHandles == bslReply.handles && err == bslReply.err)
      && (serviceReply.err != Success || hrmReply.err != Success || location.None? ==> bslHandles == oldBslHandles)
    }

    method Register(location: Option<uint8>, serviceReply: ServiceAddReply, hrmReply: CharAddReply, bslReply: CharAddReply)
      returns (err: uint32, calls: seq<StackCall>)
      requires Valid()
      modifies this`serviceHandle, this`hrmHandles, this`bslHandles
      ensures RegisterOutcome(location, serviceReply, hrmReply, bslReply, err, calls, old(hrmHandles), old(bslHandles))
    {
      calls := [ServiceAdd(Uuid(HeartRateServiceUuid, UuidTypeBle))];
      err := serviceReply.err;
      serviceHandle := serviceReply.serviceHandle;
      if err != Success {
        return;
      }

      var params := InitialHrmParams();
      calls := calls + [CharAdd(serviceHandle, params)];
      err := hrmReply.err;
      hrmHandles := hrmReply.handles;
      if err != Success {
        return;
      }

      if location.Some? {
        calls := calls + [CharAdd(serviceHandle, BslCharParams(location.value))];
        err := bslReply.err;
        bslHandles := bslReply.handles;
        if err != Success {
          return;
        }
      }
      err := Success;
    }

    /** The measurement characteristic's parameters, with the initial zero
        samples encoded into a fresh MAX_HRM_LEN buffer as its initial value;
        the sample count is the corrected `FittingSampleCount`. */
    method InitialHrmParams() returns (params: CharParams)
      requires Valid()
      ensures params == HrmCharParams(gattMaxMtuSize, HrmLen(FittingSampleCount(MaxHrmLen(gattMaxMtuSize))),
                                      params.initValue)
      ensures |params.initValue| == MaxHrmLen(gattMaxMtuSize)
      ensures FittingSampleCount(MaxHrmLen(gattMaxMtuSize)) < InitialSampleCount ==>
        var f := FittingHrmFields(MaxHrmLen(gattMaxMtuSize));
        params.initValue[..6 + 2 * |f.samples|] == HrmWire(f)
    {
      var cap := MaxHrmLen(gattMaxMtuSize);
      var f := FittingHrmFields(cap);
      var encoded := new uint8[cap];
      ghost var b0 := encoded[..];
      var initLen := HrmEncode(f.samples, f.totCount, f.timerPeriod, encoded);
      if |f.samples| < InitialSampleCount {
        HrmEncodeNoWrap(f, b0);
      }
      params := HrmCharParams(gattMaxMtuSize, initLen, encoded[..]);
    }

    /** `ble_hrs_heart_rate_measurement_send`: when connected, encode the
        samples into a MAX_HRM_LEN buffer and ask the stack to notify that many
        bytes; a successful call that sent fewer bytes is a DATA_SIZE error.
        `stale` is what the uninitialised stack buffer holds beforehand and
        `reply` what `sd_ble_gatts_hvx` returns. */
    method MeasurementSend(samples: seq<uint16>, totCount: uint32, timerPeriod: uint8, stale: seq<uint8>, reply: HvxReply)
      returns (err: uint32, call: Option<HvxCall>)
      requires Valid()
      requires |samples| < 256 && HrmRoom(|samples|) <= MaxHrmLen(gattMaxMtuSize)
      requires |stale| == MaxHrmLen(gattMaxMtuSize)
      ensures connHandle == ConnHandleInvalid ==> err == ErrorInvalidState && call == None
      ensures connHandle != ConnHandleInvalid ==>
        var f := HrmFields(totCount, timerPeriod, samples);
        var len := HrmLen(|samples|);
        call.Some? && call.value.connHandle == connHandle && call.value.handle == hrmHandles.valueHandle &&
        call.value.len == len && |call.value.data| == MaxHrmLen(gattMaxMtuSize) &&
        Fits(HrmChunks(f), MaxHrmLen(gattMaxMtuSize)) &&
        call.value.data == WriteChunks(stale, HrmChunks(f)) &&
        err == (if reply.err == Success && reply.hvxLen != len then ErrorDataSize else reply.err)
    {
      if connHandle != ConnHandleInvalid {
        var encoded := new uint8[MaxHrmLen(gattMaxMtuSize)](i requires 0 <= i < |stale| => stale[i]);
        assert encoded[..] == stale;
        HrmFitsIff(HrmFields(totCount, timerPeriod, samples), encoded.Length);
        var len8 := HrmEncode(samples, totCount, timerPeriod, encoded);
        var len: uint16 := len8;
        var hvxLen: uint16 := len;
        call := Some(HvxCall(connHandle, hrmHandles.valueHandle, hvxLen, encoded[..]));
        err := reply.err;
        hvxLen := reply.hvxLen;
        if err == Success && hvxLen != len {
          err := ErrorDataSize;
        }
      } else {
        call := None;
        err := ErrorInvalidState;
      }
    }

    /** `ble_hrs_rr_interval_add`: when the buffer is full, move entries 1.. one
        place down and drop the count, then store the value at the count and
        increment it. */
    method RrIntervalAdd(rr: uint16)
      requires Valid()
      modifies rrInterval, this`rrIntervalCount
      ensures Valid()
      ensures RrIntervals() == RrAdd(old(RrIntervals()), rrInterval.Length, rr)
      ensures old(rrIntervalCount) == rrInterval.Length ==>
        rrIntervalCount == rrInterval.Length && rrInterval[..] == old(rrInterval[1..]) + [rr]
      ensures old(rrIntervalCount) < rrInterval.Length ==>
        rrIntervalCount == old(rrIntervalCount) + 1 && rrInterval[..] == old(rrInterval[..])[old(rrIntervalCount) := rr]
    {
      if rrIntervalCount == rrInterval.Length {
        forall i | 0 <= i < rrInterval.Length - 1 {
          rrInterval[i] := rrInterval[i + 1];
        }
        rrIntervalCount := rrIntervalCount - 1;
      }
      rrInterval[rrIntervalCount] := rr;
      rrIntervalCount := rrIntervalCount + 1;
    }

    /** `ble_hrs_rr_interval_buffer_is_full`. */
    function RrIntervalBufferIsFull(): (full: bool)
      reads this, rrInterval
      requires Valid()
      ensures full <==> |RrIntervals()| == rrInterval.Length
    {
      rrIntervalCount == rrInterval.Length
    }

    /** `ble_hrs_sensor_contact_supported_set`: allowed only while disconnected. */
    method SensorContactSupportedSet(supported: bool) returns (err: uint32)
      modifies this`isSensorContactSupported
      ensures old(connHandle) == ConnHandleInvalid ==> err == Success && isSensorContactSupported == supported
      ensures old(connHandle) != ConnHandleInvalid ==>
        err == ErrorInvalidState && isSensorContactSupported == old(isSensorContactSupported)
    {
      if connHandle == ConnHandleInvalid {
        isSensorContactSupported := supported;
        err := Success;
      } else {
        err := ErrorInvalidState;
      }
    }

    /** `ble_hrs_sensor_contact_detected_update`. */
    method SensorContactDetectedUpdate(detected: bool)
      modifies this`isSensorContactDetected
      ensures isSensorContactDetected == detected
    {
      isSensorContactDetected := detected;
    }

    /** `ble_hrs_body_sensor_location_set`: write the one-byte location to the
        characteristic value on the current link; the stack's return code
        `reply` is passed back. */
    method BodySensorLocationSet(location: uint8, reply: uint32) returns (err: uint32, call: ValueSetCall)
      ensures call == ValueSetCall(connHandle, bslHandles.valueHandle, [location])
      ensures err == reply
    {
      call := ValueSetCall(connHandle, bslHandles.valueHandle, [location]);
      err := reply;
    }

    /** `ble_hrs_on_gatt_evt`: an ATT_MTU update on the tracked link sets the
        payload room to the new MTU less the notification header, truncated to
        the field's 16 bits; anything else leaves it. */
    method OnGattEvt(evt: GattEvt)
      modifies this`maxHrmLen
      ensures connHandle == evt.connHandle && evt.evtId == AttMtuUpdated ==>
        maxHrmLen == NotificationPayload(evt.attMtuEffective, 0x1_0000)
      ensures !(connHandle == evt.connHandle && evt.evtId == AttMtuUpdated) ==> maxHrmLen == old(maxHrmLen)
    {
      if connHandle == evt.connHandle && evt.evtId == AttMtuUpdated {
        maxHrmLen := NotificationPayload(evt.attMtuEffective, 0x1_0000);
      }
    }
  }
}

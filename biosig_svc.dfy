/** The peripheral's bio-signal (accelerometer) GATT service: the measurement
    encoder, the connection and TX-complete handling, registration, and the
    send path with its wait-and-retry on a full transmit queue. */
module BiosigSvc {
  import opened Nrf
  import opened Encoding

  const BiosigServiceUuid: uint16 := 0x180D
  const BiosigMeasurementCharUuid: uint16 := 0x2A37

  /** Frames in the initial characteristic value, all zero, at timestamp 0. */
  const InitialFrameCount: nat := 38

  /** What the send path returns after a wait-and-retry: the caller is to flush
      the sensor FIFO to restart its watermark interrupt. */
  const FlushFifo: uint32 := 1000

  /** MAX_BIOSIG_LEN: the notification payload for the largest configured
      ATT_MTU (NRF_SDH_BLE_GATT_MAX_MTU_SIZE). */
  function MaxBiosigLen(gattMaxMtuSize: uint16): nat
    requires gattMaxMtuSize >= 23
  {
    gattMaxMtuSize - OpcodeLength - HandleLength
  }

  /** The first three members of `struct bmi160_sensor_data`, the part the
      encoder copies. */
  datatype AccelFrame = AccelFrame(x: int16, y: int16, z: int16)

  /** A decoded measurement: the timestamp and the frames. */
  datatype BiosigFields = BiosigFields(timestamp: uint64, frames: seq<AccelFrame>)

  /** The six bytes one frame contributes: x, y, z, each little-endian. */
  function FrameBytes(fr: AccelFrame): (r: seq<uint8>)
    ensures |r| == 6
  {
    Int16Bytes(fr.x) + Int16Bytes(fr.y) + Int16Bytes(fr.z)
  }

  /** The 6-byte pieces of the frames, in input order. */
  function FrameChunks(frames: seq<AccelFrame>): (r: seq<seq<uint8>>)
    ensures |r| == |frames|
    ensures forall i :: 0 <= i < |r| ==> r[i] == FrameBytes(frames[i])
  {
    if frames == [] then [] else [FrameBytes(frames[0])] + FrameChunks(frames[1..])
  }

  /** The pieces `biosignal_encode` copies, in order: the timestamp (8 bytes),
      the frame count, then 6 bytes per frame. */
  function BiosigChunks(f: BiosigFields): seq<seq<uint8>>
    requires |f.frames| < 256
  {
    [LeBytes(f.timestamp, 8), [|f.frames|]] + FrameChunks(f.frames)
  }

  function FramesBytes(frames: seq<AccelFrame>): (r: seq<uint8>)
    ensures |r| == 6 * |frames|
  {
    if frames == [] then [] else FrameBytes(frames[0]) + FramesBytes(frames[1..])
  }

  /** The measurement format: `[u64 timestamp][u8 n][n x (i16 x, i16 y, i16 z)]`. */
  function BiosigWire(f: BiosigFields): (r: seq<uint8>)
    requires |f.frames| < 256
    ensures |r| == 9 + 6 * |f.frames|
  {
    LeBytes(f.timestamp, 8) + [|f.frames|] + FramesBytes(f.frames)
  }

  function FrameValue(s: seq<uint8>): AccelFrame
    requires |s| == 6
  {
    AccelFrame(Int16Value(s[..2]), Int16Value(s[2..4]), Int16Value(s[4..]))
  }

  function FrameValues(s: seq<uint8>): (r: seq<AccelFrame>)
    requires |s| % 6 == 0
    ensures |r| == |s| / 6
  {
    if s == [] then [] else [FrameValue(s[..6])] + FrameValues(s[6..])
  }

  /** The reference decoder: the header, and as many frames as its count byte says. */
  function BiosigDecode(w: seq<uint8>): Option<BiosigFields>
  {
    if |w| < 9 || |w| != 9 + 6 * (w[8] as int) then None
    else Some(BiosigFields(Uint64Value(w[..8]), FrameValues(w[9..])))
  }

  lemma FrameRoundTrip(fr: AccelFrame)
    ensures FrameValue(FrameBytes(fr)) == fr
  {
    var s := FrameBytes(fr);
    assert s[..2] == Int16Bytes(fr.x) && s[2..4] == Int16Bytes(fr.y) && s[4..] == Int16Bytes(fr.z);
    Int16RoundTrip(fr.x);
    Int16RoundTrip(fr.y);
    Int16RoundTrip(fr.z);
  }

  lemma FrameBytesOfValue(s: seq<uint8>)
    requires |s| == 6
    ensures FrameBytes(FrameValue(s)) == s
  {
    assert s == s[..2] + s[2..4] + s[4..];
  }

  lemma {:induction false} FramesRoundTrip(frames: seq<AccelFrame>)
    ensures FrameValues(FramesBytes(frames)) == frames
  {
    if frames != [] {
      var s := FramesBytes(frames);
      assert s[..6] == FrameBytes(frames[0]) && s[6..] == FramesBytes(frames[1..]);
      FrameRoundTrip(frames[0]);
      FramesRoundTrip(frames[1..]);
    }
  }

  lemma {:induction false} FramesBytesOfValues(s: seq<uint8>)
    requires |s| % 6 == 0
    ensures FramesBytes(FrameValues(s)) == s
  {
    if s != [] {
      var v := FrameValues(s);
      assert v[0] == FrameValue(s[..6]) && v[1..] == FrameValues(s[6..]);
      FrameBytesOfValue(s[..6]);
      FramesBytesOfValues(s[6..]);
      assert s == s[..6] + s[6..];
    }
  }

  /** Decoding an encoded measurement gives it back. */
  lemma BiosigRoundTrip(f: BiosigFields)
    requires |f.frames| < 256
    ensures BiosigDecode(BiosigWire(f)) == Some(f)
  {
    var w := BiosigWire(f);
    assert w[..8] == LeBytes(f.timestamp, 8) && w[8] == |f.frames| && w[9..] == FramesBytes(f.frames);
    LeRoundTrip(f.timestamp, 8);
    assert Pow256(8) == 0x1_0000_0000_0000_0000;
    FramesRoundTrip(f.frames);
  }

  /** Every byte string the decoder accepts is the encoding of what it decodes to. */
  lemma BiosigDecodeSound(w: seq<uint8>)
    requires BiosigDecode(w).Some?
    ensures |BiosigDecode(w).value.frames| < 256
    ensures BiosigWire(BiosigDecode(w).value) == w
  {
    FramesBytesOfValues(w[9..]);
    assert w == w[..8] + [w[8]] + w[9..];
  }

  lemma {:induction false} FrameChunksBytes(frames: seq<AccelFrame>)
    ensures Flatten(FrameChunks(frames)) == FramesBytes(frames)
  {
    if frames != [] {
      FlattenAppend([FrameBytes(frames[0])], FrameChunks(frames[1..]));
      assert [FrameBytes(frames[0])][..0] == [];
      FrameChunksBytes(frames[1..]);
    }
  }

  /** What `biosignal_encode` copies, concatenated, is the measurement format. */
  lemma BiosigChunksWire(f: BiosigFields)
    requires |f.frames| < 256
    ensures Flatten(BiosigChunks(f)) == BiosigWire(f)
  {
    var hs := [LeBytes(f.timestamp, 8), [|f.frames|]];
    FlattenAppend(hs, FrameChunks(f.frames));
    FlattenTwo(hs[0], hs[1]);
    FrameChunksBytes(f.frames);
  }

  /** Where frame `i` ends in the buffer: it is copied at the wrapped offset
      `(9 + 6i) mod 256`. */
  function FrameEnd(i: nat): nat
  {
    (9 + 6 * i) % 256 + 6
  }

  /** The room `biosignal_encode` needs for `n` frames: the furthest any copy
      reaches. */
  function BiosigRoom(n: nat): nat
  {
    if n == 0 then 9
    else if BiosigRoom(n - 1) < FrameEnd(n - 1) then FrameEnd(n - 1) else BiosigRoom(n - 1)
  }

  /** The room is at least the header and every frame's end, and is one of them. */
  lemma {:induction false} BiosigRoomIsMax(n: nat, cap: nat)
    ensures BiosigRoom(n) <= cap <==> 9 <= cap && forall i :: 0 <= i < n ==> FrameEnd(i) <= cap
  {
    if n > 0 {
      BiosigRoomIsMax(n - 1, cap);
    }
  }

  /** Up to 41 frames nothing wraps and the room is the encoding's length. */
  lemma {:induction false} BiosigRoomNoWrap(n: nat)
    requires n <= 41
    ensures BiosigRoom(n) == 9 + 6 * n
  {
    if n > 0 {
      BiosigRoomNoWrap(n - 1);
      assert FrameEnd(n - 1) == 9 + 6 * n;
    }
  }

  /** From 42 frames on, frame 41 lands at offset 255 and the copies reach
      byte 261, the most any frame count needs. */
  lemma {:induction false} BiosigRoomWrapped(n: nat)
    requires n >= 42
    ensures BiosigRoom(n) == 261
  {
    FrameEndBound(n - 1);
    if n == 42 {
      BiosigRoomNoWrap(41);
      assert FrameEnd(41) == 261;
    } else {
      BiosigRoomWrapped(n - 1);
    }
  }

  lemma FrameEndBound(i: nat)
    ensures FrameEnd(i) <= 261
  {
  }

  /** How many bytes `biosignal_encode` has copied before piece `k`. */
  lemma BiosigPrefixLength(f: BiosigFields, k: nat)
    requires |f.frames| < 256 && k <= 2 + |f.frames|
    ensures |Flatten(BiosigChunks(f)[..k])| == if k == 0 then 0 else if k == 1 then 8 else 9 + 6 * (k - 2)
  {
    var cs := BiosigChunks(f);
    var hs := [LeBytes(f.timestamp, 8), [|f.frames|]];
    if k == 0 {
      assert cs[..k] == [];
    } else if k == 1 {
      var p: seq<seq<uint8>> := cs[..k];
      assert p == [hs[0]] && p[..0] == [];
    } else {
      var body := FrameChunks(f.frames)[..k - 2];
      assert cs[..k] == hs + body;
      FlattenAppend(hs, body);
      FlattenTwo(hs[0], hs[1]);
      FlattenUniformLength(body, 6);
    }
  }

  /** With the room, every piece lands inside the buffer. */
  lemma BiosigFits(f: BiosigFields, cap: nat)
    requires |f.frames| < 256 && BiosigRoom(|f.frames|) <= cap
    ensures Fits(BiosigChunks(f), cap)
  {
    var cs := BiosigChunks(f);
    BiosigRoomIsMax(|f.frames|, cap);
    forall k | 0 <= k < |cs|
      ensures Offset(cs[..k]) + |cs[k]| <= cap
    {
      BiosigPrefixLength(f, k);
      if k >= 2 {
        assert FrameEnd(k - 2) <= cap;
      }
    }
  }

  /** Without the room, some piece lands past the end of the buffer. */
  lemma BiosigOverruns(f: BiosigFields, cap: nat)
    requires |f.frames| < 256 && cap < BiosigRoom(|f.frames|)
    ensures !Fits(BiosigChunks(f), cap)
  {
    var cs := BiosigChunks(f);
    BiosigRoomIsMax(|f.frames|, cap);
    if cap < 9 {
      BiosigPrefixLength(f, 1);
      assert Offset(cs[..1]) + |cs[1]| > cap;
    } else {
      var i :| 0 <= i < |f.frames| && FrameEnd(i) > cap;
      BiosigPrefixLength(f, i + 2);
      assert Offset(cs[..i + 2]) + |cs[i + 2]| > cap;
    }
  }

  /** The copies stay inside a buffer of `cap` bytes exactly when it has the room. */
  lemma BiosigFitsIff(f: BiosigFields, cap: nat)
    requires |f.frames| < 256
    ensures Fits(BiosigChunks(f), cap) <==> BiosigRoom(|f.frames|) <= cap
  {
    if BiosigRoom(|f.frames|) <= cap {
      BiosigFits(f, cap);
    } else {
      BiosigOverruns(f, cap);
    }
  }

  /** Piece `k` lands inside a buffer with the room. */
  lemma BiosigPieceFits(f: BiosigFields, cap: nat, k: nat)
    requires |f.frames| < 256 && BiosigRoom(|f.frames|) <= cap && k < |BiosigChunks(f)|
    ensures Offset(BiosigChunks(f)[..k]) + |BiosigChunks(f)[k]| <= cap
  {
    BiosigFitsIff(f, cap);
  }

  /** The length `biosignal_encode` returns for `n` frames: the encoding's
      length in its `uint8_t` counter. */
  function BiosigLen(n: nat): uint8
  {
    (9 + 6 * n) % 256
  }

  lemma BiosigOffset(f: BiosigFields)
    requires |f.frames| < 256
    ensures Offset(BiosigChunks(f)) == BiosigLen(|f.frames|)
  {
    BiosigChunksWire(f);
  }

  /** `biosignal_encode`: copy the timestamp, the frame count and each frame's
      x, y, z at a running `uint8_t` offset, and return that offset. */
  method BiosignalEncode(timestamp: uint64, frames: seq<AccelFrame>, buf: array<uint8>) returns (len: uint8)
    requires |frames| < 256
    requires BiosigRoom(|frames|) <= buf.Length
    modifies buf
    ensures buf[..] == WriteChunks(old(buf[..]), BiosigChunks(BiosigFields(timestamp, frames)))
    ensures len == BiosigLen(|frames|)
  {
    ghost var f := BiosigFields(timestamp, frames);
    ghost var cs := BiosigChunks(f);
    ghost var b0 := buf[..];
    assert cs[..0] == [];
    len := 0;
    BiosigPieceFits(f, buf.Length, 0);
    len := CopyPiece(buf, len, LeBytes(timestamp, 8), b0, cs, 0);
    BiosigPieceFits(f, buf.Length, 1);
    len := CopyPiece(buf, len, [|frames| as uint8], b0, cs, 1);
    var i := 0;
    while i < |frames|
      invariant 0 <= i <= |frames|
      invariant buf[..] == WriteChunks(b0, cs[..2 + i])
      invariant len == Offset(cs[..2 + i])
    {
      BiosigPieceFits(f, buf.Length, 2 + i);
      len := CopyPiece(buf, len, FrameBytes(frames[i]), b0, cs, 2 + i);
      i := i + 1;
    }
    assert cs[..2 + |frames|] == cs;
    BiosigOffset(f);
  }

  /** Up to 41 frames the copies do not wrap: the buffer starts with the
      measurement format. */
  lemma BiosigEncodeNoWrap(f: BiosigFields, b: seq<uint8>)
    requires |f.frames| <= 41 && 9 + 6 * |f.frames| <= |b|
    ensures WriteChunks(b, BiosigChunks(f))[..9 + 6 * |f.frames|] == BiosigWire(f)
  {
    BiosigChunksWire(f);
    WriteChunksShort(b, BiosigChunks(f));
  }

  /** The initial value of `ble_biosig_svc_init`: 38 zero frames at timestamp
      0 take 237 bytes, which is also the length returned. */
  lemma InitialBiosig()
    ensures BiosigRoom(InitialFrameCount) == 237 && BiosigLen(InitialFrameCount) == 237
  {
    BiosigRoomNoWrap(InitialFrameCount);
  }

  const InitialBiosigFields: BiosigFields := BiosigFields(0, seq(InitialFrameCount, _ => AccelFrame(0, 0, 0)))

  /** As written, the 38-frame initial value overruns the MAX_BIOSIG_LEN stack
      buffer for every ATT_MTU below 240, the stock 23 among them. */
  lemma InitialBiosigOverruns(gattMaxMtuSize: uint16)
    requires 23 <= gattMaxMtuSize < 240
    ensures !Fits(BiosigChunks(InitialBiosigFields), MaxBiosigLen(gattMaxMtuSize))
  {
    InitialBiosig();
    BiosigOverruns(InitialBiosigFields, MaxBiosigLen(gattMaxMtuSize));
  }

  /** The corrected initial frame count: the 38 frames when they fit a
      `cap`-byte buffer, and otherwise the most zero frames that do. */
  function FittingFrameCount(cap: nat): (n: nat)
    requires cap >= 9
    ensures n <= InitialFrameCount && BiosigRoom(n) <= cap && 9 + 6 * n <= cap
    ensures BiosigRoom(InitialFrameCount) <= cap ==> n == InitialFrameCount
    ensures n < InitialFrameCount ==> cap < BiosigRoom(n + 1)
  {
    InitialBiosig();
    if BiosigRoom(InitialFrameCount) <= cap then InitialFrameCount
    else
      FewerFramesFit(cap);
      (cap - 9) / 6
  }

  /** Below 237 bytes, `(cap - 9) / 6` frames fit and one more does not. */
  lemma FewerFramesFit(cap: nat)
    requires 9 <= cap < 237
    ensures (cap - 9) / 6 < InitialFrameCount
    ensures BiosigRoom((cap - 9) / 6) <= cap < BiosigRoom((cap - 9) / 6 + 1)
  {
    var n := (cap - 9) / 6;
    assert 6 * n <= cap - 9 < 6 * n + 6;
    BiosigRoomNoWrap(n);
    BiosigRoomNoWrap(n + 1);
  }

  /** The corrected initial value: `FittingFrameCount(cap)` zero frames at
      timestamp 0. */
  function FittingBiosigFields(cap: nat): (f: BiosigFields)
    requires cap >= 9
    ensures |f.frames| == FittingFrameCount(cap) && f.timestamp == 0
  {
    BiosigFields(0, seq(FittingFrameCount(cap), _ => AccelFrame(0, 0, 0)))
  }

  /** The corrected initial value stays inside its buffer for every ATT_MTU,
      and is the source's value wherever that one fits. */
  lemma FittingBiosigFits(gattMaxMtuSize: uint16)
    requires gattMaxMtuSize >= 23
    ensures Fits(BiosigChunks(FittingBiosigFields(MaxBiosigLen(gattMaxMtuSize))), MaxBiosigLen(gattMaxMtuSize))
    ensures gattMaxMtuSize >= 240 ==> FittingBiosigFields(MaxBiosigLen(gattMaxMtuSize)) == InitialBiosigFields
  {
    InitialBiosig();
    BiosigFits(FittingBiosigFields(MaxBiosigLen(gattMaxMtuSize)), MaxBiosigLen(gattMaxMtuSize));
  }

  /** The connection handle after one BLE event of the service's handler. */
  function TrackConn(connHandle: uint16, evt: BleEvt): uint16
  {
    match evt
    case GapConnected(c) => c
    case GapDisconnected(_) => ConnHandleInvalid
    case _ => connHandle
  }

  /** The connection handle after a run of BLE events. */
  function TrackConnAll(connHandle: uint16, evts: seq<BleEvt>): uint16
  {
    if evts == [] then connHandle else TrackConn(TrackConnAll(connHandle, evts[..|evts| - 1]), evts[|evts| - 1])
  }

  /** Some TX-complete event arrives. */
  predicate HasTxComplete(evts: seq<BleEvt>)
  {
    exists j :: 0 <= j < |evts| && evts[j].GattsHvnTxComplete?
  }

  /** The index of the first TX-complete event. */
  function FirstTxComplete(evts: seq<BleEvt>): (r: nat)
    requires HasTxComplete(evts)
    ensures r < |evts| && evts[r].GattsHvnTxComplete?
    ensures forall j :: 0 <= j < r ==> !evts[j].GattsHvnTxComplete?
  {
    if evts[0].GattsHvnTxComplete? then 0
    else
      assert HasTxComplete(evts[1..]) by {
        var j :| 0 <= j < |evts| && evts[j].GattsHvnTxComplete?;
        assert evts[1..][j - 1] == evts[j];
      }
      1 + FirstTxComplete(evts[1..])
  }

  /** The wait flag after one BLE event of the service's handler. */
  function TrackWait(wait: bool, evt: BleEvt): bool
  {
    if evt.GattsHvnTxComplete? then false else wait
  }

  /** The wait flag after a run of BLE events. */
  function TrackWaitAll(wait: bool, evts: seq<BleEvt>): bool
  {
    if evts == [] then wait else TrackWait(TrackWaitAll(wait, evts[..|evts| - 1]), evts[|evts| - 1])
  }

  /** Without a TX-complete event the handler never clears the flag. */
  lemma {:induction false} WaitStaysSet(evts: seq<BleEvt>)
    requires !HasTxComplete(evts)
    ensures TrackWaitAll(true, evts)
  {
    if evts != [] {
      var front := evts[..|evts| - 1];
      forall j | 0 <= j < |front|
        ensures !front[j].GattsHvnTxComplete?
      {
        assert front[j] == evts[j];
      }
      WaitStaysSet(front);
    }
  }

  /** As written, the wait loop polls a flag that no event other than a
      TX-complete clears: after a disconnect no TX-complete arrives, and the
      flag stays set after every prefix of the events, so the loop never ends. */
  lemma WaitNeverEnds(evts: seq<BleEvt>)
    requires !HasTxComplete(evts)
    ensures forall k :: 0 <= k <= |evts| ==> TrackWaitAll(true, evts[..k])
  {
    forall k | 0 <= k <= |evts|
      ensures TrackWaitAll(true, evts[..k])
    {
      var p := evts[..k];
      forall j | 0 <= j < |p|
        ensures !p[j].GattsHvnTxComplete?
      {
        assert p[j] == evts[j];
      }
      WaitStaysSet(p);
    }
  }

  /** The events that end the corrected wait: the queued notification went
      out, or the service no longer tracks a link (a disconnect, or a connect
      report carrying the invalid handle), so none will go out on it. */
  predicate EndsWait(evt: BleEvt)
  {
    evt.GattsHvnTxComplete? || evt.GapDisconnected? || (evt.GapConnected? && evt.connHandle == ConnHandleInvalid)
  }

  /** Some event ends the corrected wait. */
  predicate HasWaitEnd(evts: seq<BleEvt>)
  {
    exists j :: 0 <= j < |evts| && EndsWait(evts[j])
  }

  /** The index of the first event that ends the corrected wait. */
  function FirstWaitEnd(evts: seq<BleEvt>): (r: nat)
    requires HasWaitEnd(evts)
    ensures r < |evts| && EndsWait(evts[r])
    ensures forall j :: 0 <= j < r ==> !EndsWait(evts[j])
  {
    if EndsWait(evts[0]) then 0
    else
      assert HasWaitEnd(evts[1..]) by {
        var j :| 0 <= j < |evts| && EndsWait(evts[j]);
        assert evts[1..][j - 1] == evts[j];
      }
      1 + FirstWaitEnd(evts[1..])
  }

  /** The corrected wait never waits longer than the source's: wherever a
      TX-complete arrives it ends there or earlier, and a disconnect ends it. */
  lemma WaitEndNoLater(evts: seq<BleEvt>)
    requires HasTxComplete(evts)
    ensures HasWaitEnd(evts) && FirstWaitEnd(evts) <= FirstTxComplete(evts)
  {
    var t := FirstTxComplete(evts);
    assert EndsWait(evts[t]);
  }

  /** A disconnect while waiting: the source's flag stays set, and the
      corrected wait ends at that event. */
  lemma DisconnectDuringWait(c: uint16)
    ensures !HasTxComplete([GapDisconnected(c)]) && TrackWaitAll(true, [GapDisconnected(c)])
    ensures TrackConnAll(c, [GapDisconnected(c)]) == ConnHandleInvalid
    ensures HasWaitEnd([GapDisconnected(c)]) && FirstWaitEnd([GapDisconnected(c)]) == 0
  {
    WaitStaysSet([GapDisconnected(c)]);
    assert EndsWait([GapDisconnected(c)][0]);
  }

  /** Identity of the application's event handler; `None` stands for NULL. */
  datatype EvtHandler = EvtHandler(id: nat)

  /** The service record `ble_biosig_t`, with the file's static `m_wait_ble_tx`
      flag. */
  class BioSignalService {
    /** NRF_SDH_BLE_GATT_MAX_MTU_SIZE, a build-time setting. */
    const gattMaxMtuSize: uint16
    var evtHandler: Option<EvtHandler>
    var serviceHandle: uint16
    var biosigHandles: CharHandles
    var connHandle: uint16
    var maxBiosigLen: uint8
    var waitBleTx: bool

    ghost predicate Valid()
      reads this
    {
      gattMaxMtuSize >= 23
    }

    /** The statically allocated, zero-initialised record and flag. */
    constructor (gattMaxMtuSize: uint16)
      requires gattMaxMtuSize >= 23
      ensures Valid() && this.gattMaxMtuSize == gattMaxMtuSize
      ensures connHandle == 0 && !waitBleTx && evtHandler == None
    {
      this.gattMaxMtuSize := gattMaxMtuSize;
      evtHandler := None;
      serviceHandle := 0;
      biosigHandles := CharHandles(0, 0, 0, 0);
      connHandle := 0;
      maxBiosigLen := 0;
      waitBleTx := false;
    }

    /** `ble_biosig_svc_on_ble_evt`: track the link and clear the wait flag when
        a queued notification has gone out. */
    method OnBleEvt(evt: BleEvt)
      modifies this`connHandle, this`waitBleTx
      ensures evt.GapConnected? ==> connHandle == evt.connHandle
      ensures evt.GapDisconnected? ==> connHandle == ConnHandleInvalid
      ensures !evt.GapConnected? && !evt.GapDisconnected? ==> connHandle == old(connHandle)
      ensures waitBleTx == (if evt.GattsHvnTxComplete? then false else old(waitBleTx))
    {
      match evt {
        case GapConnected(c) =>
          connHandle := c;
        case GapDisconnected(_) =>
          connHandle := ConnHandleInvalid;
        case GattsHvnTxComplete(_) =>
          waitBleTx := false;
        case _ =>
      }
    }

    /** `ble_biosig_svc_init`: initialise the record, then register the
        service and the measurement characteristic, returning the first stack
        error. The stack's replies are parameters; `calls` lists the requests. */
    method Init(evtHandler: Option<EvtHandler>, serviceReply: ServiceAddReply, charReply: CharAddReply)
      returns (err: uint32, calls: seq<StackCall>)
      requires Valid()
      modifies this`evtHandler, this`connHandle, this`maxBiosigLen, this`serviceHandle, this`biosigHandles
      ensures this.evtHandler == evtHandler && connHandle == ConnHandleInvalid
      ensures maxBiosigLen == NotificationPayload(gattMaxMtuSize, 0x100)
      ensures serviceHandle == serviceReply.serviceHandle
      ensures |calls| >= 1 && calls[0] == ServiceAdd(Uuid(BiosigServiceUuid, UuidTypeBle))
      ensures serviceReply.err != Success ==> err == serviceReply.err && |calls| == 1 && biosigHandles == old(biosigHandles)
      ensures serviceReply.err == Success ==>
        |calls| == 2 && calls[1].CharAdd? && calls[1].serviceHandle == serviceHandle &&
        calls[1].params == CharParams(BiosigMeasurementCharUuid, MaxBiosigLen(gattMaxMtuSize) as uint16,
                                      BiosigLen(FittingFrameCount(MaxBiosigLen(gattMaxMtuSize))),
                                      calls[1].params.initValue, true, true, false) &&
        |calls[1].params.initValue| == MaxBiosigLen(gattMaxMtuSize) &&
        biosigHandles == charReply.handles && err == charReply.err
    {
      this.evtHandler := evtHandler;
      connHandle := ConnHandleInvalid;
      maxBiosigLen := NotificationPayload(gattMaxMtuSize, 0x100);

      calls := [ServiceAdd(Uuid(BiosigServiceUuid, UuidTypeBle))];
      err := serviceReply.err;
      serviceHandle := serviceReply.serviceHandle;
      if err != Success {
        return;
      }

      var params := InitialBiosigParams();
      calls := calls + [CharAdd(serviceHandle, params)];
      err := charReply.err;
      biosigHandles := charReply.handles;
      if err != Success {
        return;
      }
      err := Success;
    }

    /** The measurement characteristic's parameters, with the initial zero
        frames encoded into a fresh MAX_BIOSIG_LEN buffer as its initial value;
        the frame count is the corrected `FittingFrameCount`. */
    method InitialBiosigParams() returns (params: CharParams)
      requires Valid()
      ensures params == CharParams(BiosigMeasurementCharUuid, MaxBiosigLen(gattMaxMtuSize) as uint16,
                                   BiosigLen(FittingFrameCount(MaxBiosigLen(gattMaxMtuSize))),
                                   params.initValue, true, true, false)
      ensures |params.initValue| == MaxBiosigLen(gattMaxMtuSize)
      ensures var f := FittingBiosigFields(MaxBiosigLen(gattMaxMtuSize));
        params.initValue[..9 + 6 * |f.frames|] == BiosigWire(f)
    {
      var cap := MaxBiosigLen(gattMaxMtuSize);
      var f := FittingBiosigFields(cap);
      var encoded := new uint8[cap];
      ghost var b0 := encoded[..];
      var initLen := BiosignalEncode(f.timestamp, f.frames, encoded);
      BiosigRoomNoWrap(|f.frames|);
      BiosigEncodeNoWrap(f, b0);
      params := CharParams(BiosigMeasurementCharUuid, cap as uint16, initLen, encoded[..], true, true, false);
    }

    /** `ble_biosig_svc_measurement_send`: when connected, encode into a
        MAX_BIOSIG_LEN buffer (holding `stale` beforehand) and ask the stack to
        notify the encoded length; a successful call that sent fewer bytes is a
        DATA_SIZE error. On RESOURCES, set the wait flag, handle the incoming
        BLE events `evts` until a TX-complete clears it or, in the corrected
        wait, the link is lost; then call the stack once more with the same
        parameters, ignore that result and return 1000. `reply` is the first
        call's outcome. */
    method MeasurementSend(timestamp: uint64, frames: seq<AccelFrame>, stale: seq<uint8>, reply: HvxReply,
                           evts: seq<BleEvt>)
      returns (err: uint32, calls: seq<HvxCall>)
      requires Valid()
      requires |frames| < 256 && BiosigRoom(|frames|) <= MaxBiosigLen(gattMaxMtuSize)
      requires |stale| == MaxBiosigLen(gattMaxMtuSize)
      requires reply.err == ErrorResources ==> HasWaitEnd(evts)
      modifies this`connHandle, this`waitBleTx
      ensures old(connHandle) == ConnHandleInvalid ==>
        err == ErrorInvalidState && calls == [] && connHandle == old(connHandle) && waitBleTx == old(waitBleTx)
      ensures old(connHandle) != ConnHandleInvalid ==>
        var len := BiosigLen(|frames|);
        |calls| >= 1 &&
        calls[0] == HvxCall(old(connHandle), biosigHandles.valueHandle, len,
                            WriteChunks(stale, BiosigChunks(BiosigFields(timestamp, frames)))) &&
        (reply.err != ErrorResources ==>
           err == (if reply.err == Success && reply.hvxLen != len then ErrorDataSize else reply.err) &&
           |calls| == 1 && connHandle == old(connHandle) && waitBleTx == old(waitBleTx)) &&
        (reply.err == ErrorResources ==>
           var k := FirstWaitEnd(evts) + 1;
           err == FlushFifo && waitBleTx == !evts[k - 1].GattsHvnTxComplete? &&
           connHandle == TrackConnAll(old(connHandle), evts[..k]) &&
           |calls| == 2 &&
           calls[1] == HvxCall(connHandle, biosigHandles.valueHandle, reply.hvxLen, calls[0].data))
    {
      calls := [];
      if connHandle != ConnHandleInvalid {
        var encoded := new uint8[MaxBiosigLen(gattMaxMtuSize)](i requires 0 <= i < |stale| => stale[i]);
        assert encoded[..] == stale;
        var len8 := BiosignalEncode(timestamp, frames, encoded);
        var len: uint16 := len8;
        var hvxLen: uint16 := len;
        var hvx := HvxCall(connHandle, biosigHandles.valueHandle, hvxLen, encoded[..]);
        calls := [hvx];
        err := reply.err;
        hvxLen := reply.hvxLen;
        if err == Success && hvxLen != len {
          err := ErrorDataSize;
        }
        if err == ErrorResources {
          WaitForTxCompleteOrLinkLoss(evts);
          calls := calls + [HvxCall(connHandle, hvx.handle, hvxLen, hvx.data)];
          err := FlushFifo;
          return;
        }
      } else {
        err := ErrorInvalidState;
      }
    }

    /** `m_wait_ble_tx = true; while (m_wait_ble_tx) nrf_pwr_mgmt_run();` as
        written: each wake-up delivers the next BLE event to this service's
        handler. It ends only at a TX-complete; `WaitNeverEnds` is the case
        without one. */
    method WaitForTxComplete(evts: seq<BleEvt>)
      requires HasTxComplete(evts)
      modifies this`connHandle, this`waitBleTx
      ensures !waitBleTx
      ensures connHandle == TrackConnAll(old(connHandle), evts[..FirstTxComplete(evts) + 1])
    {
      ghost var c0 := connHandle;
      ghost var last := FirstTxComplete(evts);
      waitBleTx := true;
      var i := 0;
      while waitBleTx
        invariant 0 <= i <= last + 1
        invariant waitBleTx <==> i <= last
        invariant connHandle == TrackConnAll(c0, evts[..i])
        decreases last + 1 - i
      {
        OnBleEvt(evts[i]);
        assert evts[..i + 1][..i] == evts[..i];
        i := i + 1;
      }
    }

    /** The corrected wait, `while (m_wait_ble_tx && conn_handle !=
        BLE_CONN_HANDLE_INVALID)`: it also stops once the link is lost, so it
        ends at the first TX-complete or disconnect. */
    method WaitForTxCompleteOrLinkLoss(evts: seq<BleEvt>)
      requires connHandle != ConnHandleInvalid
      requires HasWaitEnd(evts)
      modifies this`connHandle, this`waitBleTx
      ensures var k := FirstWaitEnd(evts);
        connHandle == TrackConnAll(old(connHandle), evts[..k + 1]) &&
        waitBleTx == !evts[k].GattsHvnTxComplete? &&
        (waitBleTx ==> connHandle == ConnHandleInvalid)
    {
      ghost var c0 := connHandle;
      ghost var last := FirstWaitEnd(evts);
      waitBleTx := true;
      var i := 0;
      while waitBleTx && connHandle != ConnHandleInvalid
        invariant 0 <= i <= last + 1
        invariant connHandle == TrackConnAll(c0, evts[..i])
        invariant i <= last ==> waitBleTx && connHandle != ConnHandleInvalid
        invariant i == last + 1 ==>
          waitBleTx == !evts[last].GattsHvnTxComplete? && (waitBleTx ==> connHandle == ConnHandleInvalid)
        decreases last + 1 - i
      {
        OnBleEvt(evts[i]);
        assert evts[..i + 1][..i] == evts[..i];
        i := i + 1;
      }
    }

    /** `ble_biosig_svc_on_gatt_evt`: an ATT_MTU update on the tracked link
        sets the payload room to the new MTU less the notification header,
        truncated to the field's 8 bits; anything else leaves it. */
    method OnGattEvt(evt: GattEvt)
      modifies this`maxBiosigLen
      ensures connHandle == evt.connHandle && evt.evtId == AttMtuUpdated ==>
        maxBiosigLen == NotificationPayload(evt.attMtuEffective, 0x100)
      ensures !(connHandle == evt.connHandle && evt.evtId == AttMtuUpdated) ==> maxBiosigLen == old(maxBiosigLen)
    {
      if connHandle == evt.connHandle && evt.evtId == AttMtuUpdated {
        maxBiosigLen := NotificationPayload(evt.attMtuEffective, 0x100);
      }
    }
  }
}

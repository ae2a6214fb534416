/** The MAX30003 ECG front-end driver: 4-byte register frames over an SPI
    transport, the data-ready callback table and the initialisation sequence.
    Register words are `bv32` and bus bytes `bv8`, as the driver builds them
    with masks, shifts and `|`. */
module Max30003 {
  import opened Nrf

  const NumDevInstances: nat := 2
  const SpiBufLen: nat := 1024

  /** Register addresses. */
  const RegStatus: bv8 := 0x01
  const RegEnInt: bv8 := 0x02
  const RegMngrInt: bv8 := 0x04
  const RegMngrDyn: bv8 := 0x05
  const RegSwRst: bv8 := 0x08
  const RegSynch: bv8 := 0x09
  const RegFifoRst: bv8 := 0x0A
  const RegInfo: bv8 := 0x0F
  const RegCnfgGen: bv8 := 0x10
  const RegCnfgCal: bv8 := 0x12
  const RegCnfgEmux: bv8 := 0x14
  const RegCnfgEcg: bv8 := 0x15
  const RegEcgFifo: bv8 := 0x21
  const RegRtor: bv8 := 0x25

  const ReadRegFlag: bv8 := 0x01
  const WriteRegFlag: bv8 := 0x00
  /** One command byte and three data bytes, for reads and writes alike. */
  const FrameLen: nat := 4
  const RtorRegOffset: bv32 := 10

  /** The command byte `(reg << 1) | flag`, truncated to `uint8_t`. */
  function Command(reg: bv8, flag: bv8): bv8
  {
    (reg << 1) | flag
  }

  /** The frame `max30003_read_reg` sends: the read command then three dummy bytes. */
  function ReadFrame(reg: bv8): seq<bv8>
  {
    [Command(reg, ReadRegFlag), 0xFF, 0xFF, 0xFF]
  }

  function Byte2(data: bv32): bv8 { ((data & 0x00FF0000) >> 16) as bv8 }
  function Byte1(data: bv32): bv8 { ((data & 0x0000FF00) >> 8) as bv8 }
  function Byte0(data: bv32): bv8 { (data & 0x000000FF) as bv8 }

  /** The frame `max30003_write_reg` sends: the write command then bits 23..0
      of the word, most significant byte first. */
  function WriteFrame(reg: bv8, data: bv32): seq<bv8>
  {
    [Command(reg, WriteRegFlag), Byte2(data), Byte1(data), Byte0(data)]
  }

  /** The 24-bit value a read assembles from received bytes 1..3, big-endian. */
  function Assemble(rx: seq<bv8>): bv32
    requires |rx| >= FrameLen
  {
    ((rx[1] as bv32) << 16) | ((rx[2] as bv32) << 8) | (rx[3] as bv32)
  }

  /** The `int8_t` a transport returns, stored in the driver's `ret_code_t`:
      converting a negative value to the unsigned 32-bit type wraps it. */
  function RetCode(st: int8): (r: uint32)
    ensures st >= 0 ==> r == st
    ensures r == Success <==> st == 0
  {
    if st < 0 then st + 0x1_0000_0000 else st
  }

  /** Both frames are four bytes; the command byte carries the register in bits
      7..1 and the direction in bit 0, and the top bit of `reg` is lost. */
  lemma FrameShape(reg: bv8, data: bv32)
    ensures |ReadFrame(reg)| == FrameLen && |WriteFrame(reg, data)| == FrameLen
    ensures ReadFrame(reg)[0] & 1 == ReadRegFlag && WriteFrame(reg, data)[0] & 1 == WriteRegFlag
    ensures ReadFrame(reg)[0] >> 1 == reg & 0x7F && WriteFrame(reg, data)[0] >> 1 == reg & 0x7F
  {
  }

  /** Bits 31..24 of a written word never reach the bus. */
  lemma WriteDropsTopByte(reg: bv8, data: bv32)
    ensures WriteFrame(reg, data) == WriteFrame(reg, data & 0x00FF_FFFF)
  {
  }

  /** Reading bytes back: the result is below 2^24 and does not depend on the
      first received byte (the device shifts out nothing useful while it
      receives the command). */
  lemma AssembleProperties(rx: seq<bv8>, b: bv8)
    requires |rx| >= FrameLen
    ensures Assemble(rx) < 0x0100_0000
    ensures Assemble(rx[0 := b]) == Assemble(rx)
    ensures Byte2(Assemble(rx)) == rx[1] && Byte1(Assemble(rx)) == rx[2] && Byte0(Assemble(rx)) == rx[3]
  {
  }

  /** The R-to-R interval field: the register word without its low
      RTOR_REG_OFFSET bits. */
  function RtorField(x: bv32): bv32
  {
    x >> RtorRegOffset
  }

  /** A 24-bit register shifted right by RTOR_REG_OFFSET keeps 14 bits, and
      the shift drops exactly the low ten bits. */
  lemma RtorBound(x: bv32)
    requires x < 0x0100_0000
    ensures RtorField(x) < 0x4000
    ensures RtorField(x) << RtorRegOffset == x & 0x00FF_FC00
  {
  }

  /** The data bytes of a write frame, assembled as a read assembles them, give
      back the low 24 bits of the word written. */
  lemma WriteThenAssemble(reg: bv8, data: bv32, cmd: bv8)
    ensures Assemble([cmd] + WriteFrame(reg, data)[1..]) == data & 0x00FF_FFFF
  {
  }

  /** One SPI transfer as the driver requests it. */
  datatype Transfer = Transfer(instanceId: uint8, tx: seq<bv8>, rxLen: uint8, repeated: bool)

  function ReadTransfer(id: uint8, reg: bv8, repeated: bool): Transfer
  {
    Transfer(id, ReadFrame(reg), FrameLen as uint8, repeated)
  }

  function WriteTransfer(id: uint8, reg: bv8, data: bv32): Transfer
  {
    Transfer(id, WriteFrame(reg, data), 0, false)
  }

  /** A write frame, as the mock transport recognises one. */
  predicate IsWriteFrame(tx: seq<bv8>)
  {
    |tx| == FrameLen && tx[0] & 1 == WriteRegFlag
  }

  /** The three data bytes of a frame. */
  type Bytes3 = s: seq<bv8> | |s| == 3 witness [0, 0, 0]

  /** Byte `i` the mock shifts back: the command echoed, then the data bytes of
      the last write, then idle-high bytes. */
  function MockByte(tx: seq<bv8>, latched: Bytes3, i: nat): bv8
  {
    if i == 0 then (if tx == [] then 0xFF else tx[0])
    else if i <= 3 then latched[i - 1]
    else 0xFF
  }

  /** The receive buffer after the mock filled its first `n` bytes: past them
      nothing changes, and a filled frame reads back the command byte followed
      by the latched data bytes. */
  function MockReceive(buf: seq<bv8>, tx: seq<bv8>, latched: Bytes3, n: nat): (r: seq<bv8>)
    ensures |r| == |buf|
    ensures forall i :: n <= i < |buf| ==> r[i] == buf[i]
    ensures 4 <= n <= |buf| && |tx| >= 1 ==> r[..4] == [tx[0]] + latched
  {
    seq(|buf|, i requires 0 <= i < |buf| => if i < n then MockByte(tx, latched, i) else buf[i])
  }

  /** The mock's answer to a read frame: the command byte and the latched
      data bytes, with the rest of the buffer untouched. */
  lemma ReadReply(buf: seq<bv8>, reg: bv8, latched: Bytes3)
    requires |buf| >= FrameLen
    ensures MockReceive(buf, ReadFrame(reg), latched, FrameLen)[..FrameLen] == [Command(reg, ReadRegFlag)] + latched
    ensures MockReceive(buf, ReadFrame(reg), latched, FrameLen)[FrameLen..] == buf[FrameLen..]
  {
    var r := MockReceive(buf, ReadFrame(reg), latched, FrameLen);
    assert r[FrameLen..] == buf[FrameLen..];
  }

  /** Identity of a data-ready callback function; `None` stands for NULL. */
  datatype Callback = Callback(id: nat)

  /** The device handle `max30003_dev_t`: an SPI instance id (its `spi_xfer`
      function is the `SpiBus` passed alongside). */
  datatype Device = Device(spiInstanceId: uint8)

  /** The words the seven configuration unions hold when `max30003_init` writes
      them. Six of the unions are local variables that are never cleared, so the
      bits the code does not set are whatever the stack held; `uninit` gives
      those indeterminate starting words. */
  datatype Uninit = Uninit(cnfgGen: bv32, cnfgEcg: bv32, mngrInt: bv32, cnfgCal: bv32, mngrDyn: bv32, cnfgEmux: bv32)

  /** Assignment to the bit-field of a 32-bit union that starts at bit `lsb`
      and whose unshifted mask is `mask` (`2^width - 1`). */
  function SetField(w: bv32, lsb: bv32, mask: bv32, v: bv32): bv32
    requires lsb < 32
  {
    (w & !(mask << lsb)) | ((v & mask) << lsb)
  }

  /** CNFG_GEN: fmstr = 0, en_ecg = 1, rbiasn = 1, rbiasp = 1, en_rbias = 1, imag = 2, en_dcloff = 1. */
  function CnfgGenWord(g: bv32): bv32
  {
    var w := SetField(g, 20, 0x3, 0);
    var w := SetField(w, 19, 0x1, 1);
    var w := SetField(w, 0, 0x1, 1);
    var w := SetField(w, 1, 0x1, 1);
    var w := SetField(w, 4, 0x3, 1);
    var w := SetField(w, 8, 0x7, 2);
    SetField(w, 12, 0x3, 1)
  }

  /** CNFG_ECG: dlpf = 1, dhpf = 1, gain = 3, rate = 1. */
  function CnfgEcgWord(g: bv32): bv32
  {
    var w := SetField(g, 12, 0x3, 1);
    var w := SetField(w, 14, 0x1, 1);
    var w := SetField(w, 16, 0x3, 3);
    SetField(w, 22, 0x3, 1)
  }

  /** MNGR_INT: efit = 31, clr_rrint = 1. */
  function MngrIntWord(g: bv32): bv32
  {
    var w := SetField(g, 19, 0x1F, 31);
    SetField(w, 4, 0x3, 1)
  }

  /** EN_INT, cleared first: en_eint = 1, en_rrint = 0, intb_type = 3. */
  function EnIntWord(): bv32
  {
    var w := SetField(0, 23, 0x1, 1);
    var w := SetField(w, 10, 0x1, 0);
    SetField(w, 0, 0x3, 3)
  }

  /** CNFG_CAL: thigh = 0, fifty = 1, fcal = 2, vmag = 1, vmode = 1, en_vcal = 0. */
  function CnfgCalWord(g: bv32): bv32
  {
    var w := SetField(g, 0, 0x7FF, 0);
    var w := SetField(w, 11, 0x1, 1);
    var w := SetField(w, 12, 0x7, 2);
    var w := SetField(w, 20, 0x1, 1);
    var w := SetField(w, 21, 0x1, 1);
    SetField(w, 22, 0x1, 0)
  }

  /** MNGR_DYN: fast = 0. */
  function MngrDynWord(g: bv32): bv32
  {
    SetField(g, 22, 0x3, 0)
  }

  /** CNFG_EMUX: caln_sel = 0, calp_sel = 0, openn = 0, openp = 0, pol = 0. */
  function CnfgEmuxWord(g: bv32): bv32
  {
    var w := SetField(g, 16, 0x3, 0);
    var w := SetField(w, 18, 0x3, 0);
    var w := SetField(w, 20, 0x1, 0);
    var w := SetField(w, 21, 0x1, 0);
    SetField(w, 23, 0x1, 0)
  }

  /** What the configuration words put on the wire: the fields the code sets
      have the values it assigns, and every other bit of an uncleared union is
      passed through from its indeterminate starting word. */
  lemma CnfgGenFields(g: bv32)
    ensures CnfgGenWord(g) & 0x0038_3733 == 0x0008_1213
    ensures CnfgGenWord(g) & !0x0038_3733 == g & !0x0038_3733
  {
  }

  lemma CnfgEcgFields(g: bv32)
    ensures CnfgEcgWord(g) & 0x00C3_7000 == 0x0043_5000
    ensures CnfgEcgWord(g) & !0x00C3_7000 == g & !0x00C3_7000
  {
  }

  lemma MngrIntFields(g: bv32)
    ensures MngrIntWord(g) & 0x00F8_0030 == 0x00F8_0010
    ensures MngrIntWord(g) & !0x00F8_0030 == g & !0x00F8_0030
  {
  }

  /** EN_INT is cleared before its fields are set, so its word is fully determined. */
  lemma EnIntFields()
    ensures EnIntWord() == 0x0080_0003
  {
  }

  lemma CnfgCalFields(g: bv32)
    ensures CnfgCalWord(g) & 0x0070_7FFF == 0x0030_2800
    ensures CnfgCalWord(g) & !0x0070_7FFF == g & !0x0070_7FFF
  {
  }

  lemma MngrDynFields(g: bv32)
    ensures MngrDynWord(g) & 0x00C0_0000 == 0
    ensures MngrDynWord(g) & !0x00C0_0000 == g & !0x00C0_0000
  {
  }

  lemma CnfgEmuxFields(g: bv32)
    ensures CnfgEmuxWord(g) & 0x00BF_0000 == 0
    ensures CnfgEmuxWord(g) & !0x00BF_0000 == g & !0x00BF_0000
  {
  }

  /** The transfers `max30003_init` makes after a successful reset, appended
      to `log`: the STATUS, INFO and CNFG_CAL reads, then the configuration
      writes in source order, ending with SYNCH. */
  function ConfigureLog(log: seq<Transfer>, id: uint8, u: Uninit): seq<Transfer>
  {
    log
      + [ReadTransfer(id, RegStatus, false)]
      + [ReadTransfer(id, RegInfo, false)]
      + [ReadTransfer(id, RegCnfgCal, false)]
      + [WriteTransfer(id, RegCnfgGen, CnfgGenWord(u.cnfgGen))]
      + [WriteTransfer(id, RegCnfgEcg, CnfgEcgWord(u.cnfgEcg))]
      + [WriteTransfer(id, RegMngrInt, MngrIntWord(u.mngrInt))]
      + [WriteTransfer(id, RegEnInt, EnIntWord())]
      + [WriteTransfer(id, RegCnfgCal, CnfgCalWord(u.cnfgCal))]
      + [WriteTransfer(id, RegMngrDyn, MngrDynWord(u.mngrDyn))]
      + [WriteTransfer(id, RegCnfgEmux, CnfgEmuxWord(u.cnfgEmux))]
      + [WriteTransfer(id, RegSynch, 0)]
  }

  /** The frames whose words do not depend on uninitialised memory, byte for byte. */
  lemma FixedFrames()
    ensures WriteFrame(RegSwRst, 0) == [0x10, 0x00, 0x00, 0x00]
    ensures WriteFrame(RegSynch, 0) == [0x12, 0x00, 0x00, 0x00]
    ensures WriteFrame(RegFifoRst, 0) == [0x14, 0x00, 0x00, 0x00]
    ensures WriteFrame(RegEnInt, EnIntWord()) == [0x04, 0x80, 0x00, 0x03]
    ensures ReadFrame(RegStatus) == [0x03, 0xFF, 0xFF, 0xFF]
    ensures ReadFrame(RegInfo) == [0x1F, 0xFF, 0xFF, 0xFF]
    ensures ReadFrame(RegRtor) == [0x4B, 0xFF, 0xFF, 0xFF]
    ensures ReadFrame(RegEcgFifo) == [0x43, 0xFF, 0xFF, 0xFF]
  {
    EnIntFields();
  }

  /** The SPI transport behind `spi_xfer`, as a mock: it answers each transfer
      with the status `status(k)` for the k-th transfer, remembers the three
      data bytes of the last write frame, and answers a read with the command
      byte followed by those bytes. */
  class SpiBus {
    const status: nat -> int8
    var log: seq<Transfer>
    var latched: Bytes3

    constructor (status: nat -> int8)
      ensures this.status == status
      ensures log == [] && latched == [0, 0, 0]
    {
      this.status := status;
      log := [];
      latched := [0, 0, 0];
    }

    method Xfer(instanceId: uint8, tx: array<bv8>, txLen: uint8, rx: array?<bv8>, rxLen: uint8, repeated: bool)
      returns (st: int8)
      requires txLen as int <= tx.Length
      requires rx != null ==> rxLen as int <= rx.Length && rx != tx
      modifies this`log, this`latched, rx
      ensures log == old(log) + [Transfer(instanceId, tx[..txLen], rxLen, repeated)]
      ensures st == status(|old(log)|)
      ensures latched == if IsWriteFrame(tx[..txLen]) then tx[1..4] else old(latched)
      ensures rx != null ==> rx[..] == MockReceive(old(rx[..]), tx[..txLen], old(latched), rxLen as nat)
    {
      var frame := tx[..txLen];
      if rx != null {
        var i := 0;
        while i < rxLen as int
          invariant 0 <= i <= rxLen as int
          invariant latched == old(latched) && log == old(log)
          invariant rx[..] == MockReceive(old(rx[..]), frame, latched, i)
        {
          rx[i] := MockByte(frame, latched, i);
          i := i + 1;
        }
      }
      st := status(|log|);
      log := log + [Transfer(instanceId, frame, rxLen, repeated)];
      if IsWriteFrame(frame) {
        latched := frame[1..4];
      }
    }
  }

  /** The driver's static state: the SPI buffers `m_tx_buf` and `m_rx_buf` and
      the per-instance data-ready callback table. */
  class Driver {
    const txBuf: array<bv8>
    const rxBuf: array<bv8>
    const dataAvailCallback: array<Option<Callback>>

    ghost predicate Valid()
    {
      txBuf.Length == SpiBufLen && rxBuf.Length == SpiBufLen && txBuf != rxBuf &&
      dataAvailCallback.Length == NumDevInstances
    }

    constructor ()
      ensures Valid() && fresh(txBuf) && fresh(rxBuf) && fresh(dataAvailCallback)
      ensures dataAvailCallback[..] == [None, None]
    {
      txBuf := new bv8[SpiBufLen];
      rxBuf := new bv8[SpiBufLen];
      dataAvailCallback := new Option<Callback>[NumDevInstances](_ => None);
      new;
      assert dataAvailCallback[..] == [dataAvailCallback[0], dataAvailCallback[1]];
    }

    /** `max30003_read_reg`: send the read frame, then assemble bytes 1..3 of
        what came back. The transport's status is returned as it came, and the
        value is assembled whatever the status. */
    method ReadReg(dev: Device, bus: SpiBus, reg: bv8, repeated: bool) returns (ret: uint32, data: bv32)
      requires Valid()
      modifies txBuf, rxBuf, bus`log, bus`latched
      ensures bus.log == old(bus.log) + [ReadTransfer(dev.spiInstanceId, reg, repeated)]
      ensures bus.latched == old(bus.latched)
      ensures rxBuf[..FrameLen] == [Command(reg, ReadRegFlag)] + old(bus.latched)
      ensures rxBuf[FrameLen..] == old(rxBuf[FrameLen..])
      ensures ret == RetCode(bus.status(|old(bus.log)|))
      ensures data == Assemble(rxBuf[..FrameLen])
      ensures data < 0x0100_0000
    {
      txBuf[0] := Command(reg, ReadRegFlag);
      txBuf[1] := 0xFF;
      txBuf[2] := 0xFF;
      txBuf[3] := 0xFF;
      assert txBuf[..FrameLen] == ReadFrame(reg);
      var st := bus.Xfer(dev.spiInstanceId, txBuf, FrameLen as uint8, rxBuf, FrameLen as uint8, repeated);
      ReadReply(old(rxBuf[..]), reg, old(bus.latched));
      ret := RetCode(st);
      data := 0;
      data := data | ((rxBuf[1] as bv32) << 16);
      data := data | ((rxBuf[2] as bv32) << 8);
      data := data | (rxBuf[3] as bv32);
      assert rxBuf[..FrameLen][1] == rxBuf[1] && rxBuf[..FrameLen][2] == rxBuf[2] && rxBuf[..FrameLen][3] == rxBuf[3];
      AssembleProperties(rxBuf[..FrameLen], 0);
    }

    /** `max30003_write_reg`: send the write frame; nothing is received. */
    method WriteReg(dev: Device, bus: SpiBus, reg: bv8, data: bv32) returns (ret: uint32)
      requires Valid()
      modifies txBuf, bus`log, bus`latched
      ensures bus.log == old(bus.log) + [WriteTransfer(dev.spiInstanceId, reg, data)]
      ensures bus.latched == WriteFrame(reg, data)[1..]
      ensures ret == RetCode(bus.status(|old(bus.log)|))
    {
      txBuf[0] := Command(reg, WriteRegFlag);
      txBuf[1] := Byte2(data);
      txBuf[2] := Byte1(data);
      txBuf[3] := Byte0(data);
      assert txBuf[..FrameLen] == WriteFrame(reg, data);
      var st := bus.Xfer(dev.spiInstanceId, txBuf, FrameLen as uint8, null, 0, false);
      ret := RetCode(st);
    }

    /** `max30003_reset`: write 0 to SW_RST. */
    method Reset(dev: Device, bus: SpiBus) returns (ret: uint32)
      requires Valid()
      modifies txBuf, bus`log, bus`latched
      ensures bus.log == old(bus.log) + [WriteTransfer(dev.spiInstanceId, RegSwRst, 0)]
      ensures ret == RetCode(bus.status(|old(bus.log)|))
    {
      ret := WriteReg(dev, bus, RegSwRst, 0);
    }

    /** `max30003_reset_fifo`: write 0 to FIFO_RST. */
    method ResetFifo(dev: Device, bus: SpiBus) returns (ret: uint32)
      requires Valid()
      modifies txBuf, bus`log, bus`latched
      ensures bus.log == old(bus.log) + [WriteTransfer(dev.spiInstanceId, RegFifoRst, 0)]
      ensures ret == RetCode(bus.status(|old(bus.log)|))
    {
      ret := WriteReg(dev, bus, RegFifoRst, 0);
    }

    /** `max30003_get_status`, `_get_info`, `_get_calibration`,
        `_get_interuption`, `_get_fifo`: one plain read of the named register. */
    method GetRegister(dev: Device, bus: SpiBus, reg: bv8) returns (ret: uint32, value: bv32)
      requires Valid()
      modifies txBuf, rxBuf, bus`log, bus`latched
      ensures bus.latched == old(bus.latched)
      ensures bus.log == old(bus.log) + [ReadTransfer(dev.spiInstanceId, reg, false)]
      ensures value == Assemble(rxBuf[..FrameLen])
      ensures ret == RetCode(bus.status(|old(bus.log)|))
    {
      ret, value := ReadReg(dev, bus, reg, false);
    }

    /** `max30003_get_rtor`: the RTOR register shifted right by RTOR_REG_OFFSET. */
    method GetRtor(dev: Device, bus: SpiBus) returns (ret: uint32, rtor: bv32)
      requires Valid()
      modifies txBuf, rxBuf, bus`log, bus`latched
      ensures bus.latched == old(bus.latched)
      ensures bus.log == old(bus.log) + [ReadTransfer(dev.spiInstanceId, RegRtor, false)]
      ensures rtor == RtorField(Assemble(rxBuf[..FrameLen]))
      ensures rtor < 0x4000
      ensures ret == RetCode(bus.status(|old(bus.log)|))
    {
      var raw;
      ret, raw := ReadReg(dev, bus, RegRtor, false);
      RtorBound(raw);
      rtor := RtorField(raw);
    }

    /** `max30003_start_data`: record the callback in this instance's slot only,
        then write 0 to SYNCH. */
    method StartData(dev: Device, bus: SpiBus, callback: Option<Callback>) returns (ret: uint32)
      requires Valid()
      requires dev.spiInstanceId < NumDevInstances
      modifies dataAvailCallback, txBuf, bus`log, bus`latched
      ensures dataAvailCallback[..] == old(dataAvailCallback[..])[dev.spiInstanceId := callback]
      ensures bus.log == old(bus.log) + [WriteTransfer(dev.spiInstanceId, RegSynch, 0)]
      ensures ret == RetCode(bus.status(|old(bus.log)|))
    {
      dataAvailCallback[dev.spiInstanceId] := callback;
      ret := WriteReg(dev, bus, RegSynch, 0);
    }

    /** `max30003_intb_handler`: the callback it invokes, if any. */
    method IntbHandler(dev: Device) returns (invoked: Option<Callback>)
      requires Valid()
      requires dev.spiInstanceId < NumDevInstances
      ensures invoked == dataAvailCallback[dev.spiInstanceId]
      ensures invoked.None? <==> dataAvailCallback[dev.spiInstanceId] == None
    {
      invoked := None;
      if dataAvailCallback[dev.spiInstanceId] != None {
        invoked := dataAvailCallback[dev.spiInstanceId];
      }
    }

    /** `max30003_init`: reset, and if that failed return its error at once;
        otherwise continue with `Configure`. */
    method Init(dev: Device, bus: SpiBus, u: Uninit) returns (ret: uint32)
      requires Valid()
      modifies txBuf, rxBuf, bus`log, bus`latched
      ensures RetCode(bus.status(|old(bus.log)|)) != Success ==>
        bus.log == old(bus.log) + [WriteTransfer(dev.spiInstanceId, RegSwRst, 0)] &&
        ret == RetCode(bus.status(|old(bus.log)|))
      ensures RetCode(bus.status(|old(bus.log)|)) == Success ==>
        bus.log == ConfigureLog(old(bus.log) + [WriteTransfer(dev.spiInstanceId, RegSwRst, 0)], dev.spiInstanceId, u) &&
        ret == RetCode(bus.status(|old(bus.log)| + 11))
    {
      ret := Reset(dev, bus);
      if ret != Success {
        return;
      }
      ret := Configure(dev, bus, u);
    }

    /** The rest of `max30003_init` after the reset: read STATUS, INFO and
        CNFG_CAL (their results are discarded), write the seven configuration
        registers and SYNCH, and return only the status of the last write. */
    method Configure(dev: Device, bus: SpiBus, u: Uninit) returns (ret: uint32)
      requires Valid()
      modifies txBuf, rxBuf, bus`log, bus`latched
      ensures bus.log == ConfigureLog(old(bus.log), dev.spiInstanceId, u)
      ensures ret == RetCode(bus.status(|old(bus.log)| + 10))
    {
      ghost var k := |bus.log|;
      var status, info, cal;
      ret, status := GetRegister(dev, bus, RegStatus);
      ret, info := GetRegister(dev, bus, RegInfo);
      ret, cal := GetRegister(dev, bus, RegCnfgCal);
      assert |bus.log| == k + 3;
      ret := WriteReg(dev, bus, RegCnfgGen, CnfgGenWord(u.cnfgGen));
      ret := WriteReg(dev, bus, RegCnfgEcg, CnfgEcgWord(u.cnfgEcg));
      ret := WriteReg(dev, bus, RegMngrInt, MngrIntWord(u.mngrInt));
      ret := WriteReg(dev, bus, RegEnInt, EnIntWord());
      assert |bus.log| == k + 7;
      ret := WriteReg(dev, bus, RegCnfgCal, CnfgCalWord(u.cnfgCal));
      ret := WriteReg(dev, bus, RegMngrDyn, MngrDynWord(u.mngrDyn));
      ret := WriteReg(dev, bus, RegCnfgEmux, CnfgEmuxWord(u.cnfgEmux));
      assert |bus.log| == k + 10;
      ret := WriteReg(dev, bus, RegSynch, 0);
    }
  }

  /** With the mock transport, a read issued after a write returns the low 24
      bits of the word written, for any register and any statuses. */
  method WriteThenRead(d: Driver, dev: Device, bus: SpiBus, reg: bv8, data: bv32) returns (back: bv32)
    requires d.Valid()
    modifies d.txBuf, d.rxBuf, bus`log, bus`latched
    ensures back == data & 0x00FF_FFFF
  {
    var ret := d.WriteReg(dev, bus, reg, data);
    ret, back := d.ReadReg(dev, bus, reg, false);
    ghost var rx := d.rxBuf[..FrameLen];
    assert rx == [ReadFrame(reg)[0]] + WriteFrame(reg, data)[1..];
    WriteThenAssemble(reg, data, ReadFrame(reg)[0]);
  }
}

# Implantable-monitor firmware core (nRF5 SDK 17.0.0), modelled in Dafny

The firmware has two halves. On the peripheral side, an nRF52 reads an ECG front end (MAX30003, over SPI) and an accelerometer. It publishes the measurements through two GATT services:

- the heart-rate "strain gauge" service;
- the bio-signal service.

On the central side, a client follows one link, discovers the bio-signal service and turns its notifications on. The project models the sequential logic around the BLE stack and the SPI bus:

- **`max30003.dfy` (MAX30003 driver).**
  - The fixed 4-byte register frames and the big-endian assembly of a read.
  - The per-instance data-ready callback table.
  - The ordered register writes of `max30003_init`.
  - The driver's static buffers, the callback table and the transport are classes and arrays updated in place. The transport is a mock that echoes the data bytes of the last write, so a write followed by a read is a round trip.
- **`hrs.dfy` (heart-rate strain-gauge service).**
  - The measurement encoder `[u32 tot_count][u8 timer_period][u8 n][n × u16]`, little-endian. It copies at a running `uint8_t` offset.
  - A reference decoder, with round-trip lemmas.
  - The bounded RR-interval buffer, which evicts its oldest entry, with a specification proved for any run of additions.
  - The connect, disconnect and CCCD-write handlers; `ble_hrs_init`; the send path's error mapping; the sensor-contact setters; the ATT_MTU update.
- **`biosig_svc.dfy` (bio-signal service).**
  - The encoder `[u64 timestamp][u8 n][n × (i16 x, i16 y, i16 z)]` and its decoder.
  - The connection and TX-complete handling.
  - `ble_biosig_svc_init`.
  - The back-pressure rule of the send path. On `NRF_ERROR_RESOURCES` it waits for TX-complete, retries once and returns 1000. The model's wait also ends when the link is lost (see Findings).
- **`biosig_client.dfy` (central-side client).**
  - The link and peer-handle state, with its invalid sentinels.
  - Filtering of notifications by link and value handle.
  - Discovery: the first matching characteristic wins, and it is stored only when no handles are held.
  - Disconnection of the matching link only.
  - The 2-byte CCCD write (Bluetooth Core Specification Vol 3, Part G, section 3.3.3.3).
  - NULL checks of the public entry points, with nullable instances and `Option` arguments.
- **`nrf.dfy`.** The SDK's integer widths, error codes, sentinels and the BLE events the components dispatch on. It also holds the notification-payload rule: ATT_MTU less a 1-byte opcode and a 2-byte handle (Bluetooth Core Specification Vol 3, Part F, section 3.4.7.1), truncated to the width of the field that stores it.
- **`encoding.dfy`.** Little-endian byte strings and the `memcpy(&buf[len], …)` copies at a wrapping `uint8_t` offset. `WriteChunks` specifies what such a run of copies leaves in a buffer.

Both encoders return a `uint8_t` length. With enough samples the running offset wraps past 255, and later copies land at the start of the buffer. The model writes at the wrapped offset and proves what that implies:

- The returned length is `(6 + 2n) mod 256` for the heart-rate encoder and `(9 + 6n) mod 256` for the bio-signal encoder.
- `HrmRoom` and `BiosigRoom` give the exact buffer size the copies need ("fits exactly when" lemmas).
- Without wrap-around, the buffer starts with the wire format.

Both init functions encode their initial value into a MAX_*_LEN stack buffer that is too small for it at common ATT_MTU sizes. The model proves the overrun and then registers a corrected initial value that fits (see Findings).

The stack, the SoftDevice and the application callbacks cannot be seen from this code. Their replies are parameters: `ServiceAddReply`, `CharAddReply`, `HvxReply`, the events delivered while waiting, and the queue's return code. The requests the code makes are returned as values: `StackCall`, `HvxCall`, `GattcWriteReq`, and the raised events.

## Model

| member | source | states |
|---|---|---|
| Nrf.NotificationPayload | nRF5_SDK_17.0.0_9d13099/components/ble/ble_services/ble_hrs/ble_hrs_strain_gauge_v1.c:51-53 | the payload room is ATT_MTU − 3 whenever that fits the field; otherwise it is the value truncated to the field, always within the field's range |
| Encoding.LeRoundTrip | nRF5_SDK_17.0.0_9d13099/components/ble/ble_services/ble_hrs/ble_hrs_strain_gauge_v1.c:188-189 | reading back the n little-endian bytes of a value below 256^n gives the value; the byte string has length n |
| Encoding.LeBytesOfValue | nRF5_SDK_17.0.0_9d13099/components/ble/ble_services/ble_hrs/ble_hrs_strain_gauge_v1.c:188-189 | every byte string is the little-endian encoding of the value it reads as |
| Encoding.LeValueBound | nRF5_SDK_17.0.0_9d13099/components/ble/ble_services/ble_hrs/ble_hrs_strain_gauge_v1.c:188-189 | the value of n bytes is below 256^n |
| Encoding.Uint16Value | nRF5_SDK_17.0.0_9d13099/examples/ble_central/implantable_MA_central/ble_biosig_c.c:275-276 | a 2-byte little-endian field reads as low byte plus 256 × high byte |
| Encoding.Uint32Value | nRF5_SDK_17.0.0_9d13099/components/ble/ble_services/ble_hrs/ble_hrs_strain_gauge_v1.c:188-189 | the `uint32_t` whose 4 little-endian bytes these are |
| Encoding.Uint64Value | nRF5_SDK_17.0.0_9d13099/examples/ble_peripheral/implantable_MA/ble_bio_sig_svc.c:127-128 | the `uint64_t` whose 8 little-endian bytes these are |
| Encoding.IsNotificationEnabled | nRF5_SDK_17.0.0_9d13099/components/ble/ble_services/ble_hrs/ble_hrs_strain_gauge_v1.c:100 | a CCCD value enables notifications exactly when bit 0 of its first byte is set |
| Encoding.Int16Value | nRF5_SDK_17.0.0_9d13099/examples/ble_peripheral/implantable_MA/ble_bio_sig_svc.c:135 | two bytes read as a two's-complement `int16_t` whose encoding gives the bytes back |
| Encoding.Int16RoundTrip | nRF5_SDK_17.0.0_9d13099/examples/ble_peripheral/implantable_MA/ble_bio_sig_svc.c:135 | an `int16_t` encoded in 2 little-endian bytes reads back as itself |
| Encoding.Put | nRF5_SDK_17.0.0_9d13099/components/ble/ble_services/ble_hrs/ble_hrs_strain_gauge_v1.c:188 | one `memcpy` into a buffer: the copied bytes at the offset, every other byte unchanged, the length kept |
| Encoding.WriteChunks | nRF5_SDK_17.0.0_9d13099/components/ble/ble_services/ble_hrs/ble_hrs_strain_gauge_v1.c:188-198 | the buffer after copying the pieces one after another at the running `uint8_t` offset; its length is kept |
| Encoding.WriteChunksShort | nRF5_SDK_17.0.0_9d13099/components/ble/ble_services/ble_hrs/ble_hrs_strain_gauge_v1.c:188-198 | when the pieces total at most 256 bytes and the buffer holds them, every copy fits and the buffer starts with their concatenation |
| Encoding.WriteChunksStep | nRF5_SDK_17.0.0_9d13099/components/ble/ble_services/ble_hrs/ble_hrs_strain_gauge_v1.c:195-196 | one more piece is copied at the wrapped offset of the bytes already written |
| Encoding.OffsetStep | nRF5_SDK_17.0.0_9d13099/components/ble/ble_services/ble_hrs/ble_hrs_strain_gauge_v1.c:189-196 | `len += size` on a `uint8_t` counter: the new offset is the old one plus the piece's length, mod 256 |
| Encoding.FlattenAppend | nRF5_SDK_17.0.0_9d13099/components/ble/ble_services/ble_hrs/ble_hrs_strain_gauge_v1.c:188-198 | the bytes of two runs of copies are the bytes of the first run followed by those of the second |
| Encoding.CopyPiece | nRF5_SDK_17.0.0_9d13099/components/ble/ble_services/ble_hrs/ble_hrs_strain_gauge_v1.c:195-196 | copying piece k at the running offset and advancing it leaves the buffer as the specification of k+1 copies says |
| Encoding.Memcpy | nRF5_SDK_17.0.0_9d13099/components/ble/ble_services/ble_hrs/ble_hrs_strain_gauge_v1.c:188 | `memcpy(&buf[at], src, n)` updates the array in place, as `Put` specifies |
| Max30003.RetCode | nRF5_SDK_17.0.0_9d13099/examples/ble_peripheral/implantable_MA/max30003.c:262-264 | the transport's `int8_t` status stored in a `ret_code_t`: non-negative statuses are kept, and the result is success exactly when the status is 0 |
| Max30003.FrameShape | nRF5_SDK_17.0.0_9d13099/examples/ble_peripheral/implantable_MA/max30003.c:257-260 | both frames are 4 bytes; the command byte holds the direction flag in bit 0 and the register's low 7 bits above it |
| Max30003.WriteDropsTopByte | nRF5_SDK_17.0.0_9d13099/examples/ble_peripheral/implantable_MA/max30003.c:280-283 | bits 31..24 of a written word never reach the bus |
| Max30003.AssembleProperties | nRF5_SDK_17.0.0_9d13099/examples/ble_peripheral/implantable_MA/max30003.c:266-269 | a read's result is below 2^24, does not depend on received byte 0, and its three bytes are received bytes 1..3 |
| Max30003.RtorBound | nRF5_SDK_17.0.0_9d13099/examples/ble_peripheral/implantable_MA/max30003.c:224 | the RTOR field of a 24-bit word is below 2^14 and is the word without its low ten bits |
| Max30003.WriteThenAssemble | nRF5_SDK_17.0.0_9d13099/examples/ble_peripheral/implantable_MA/max30003.c:253-290 | the data bytes of a write frame, assembled as a read assembles them, give the low 24 bits of the word |
| Max30003.MockReceive | nRF5_SDK_17.0.0_9d13099/examples/ble_peripheral/implantable_MA/max30003.c:262-264 | the receive buffer keeps its length and every byte past the `n` filled; with a whole frame filled, bytes 0..3 are the echoed command byte followed by the three latched data bytes |
| Max30003.ReadReply | nRF5_SDK_17.0.0_9d13099/examples/ble_peripheral/implantable_MA/max30003.c:262-264 | the mock answers a read frame with the command byte and the latched data bytes, and leaves the rest of the buffer as it was |
| Max30003.CnfgGenFields | nRF5_SDK_17.0.0_9d13099/examples/ble_peripheral/implantable_MA/max30003.c:93-101 | the CNFG_GEN word holds the field values assigned, and every other bit of the uncleared union passes through |
| Max30003.CnfgEcgFields | nRF5_SDK_17.0.0_9d13099/examples/ble_peripheral/implantable_MA/max30003.c:104-109 | the CNFG_ECG word holds dlpf 1, dhpf 1, gain 3 and rate 1, and other bits pass through |
| Max30003.MngrIntFields | nRF5_SDK_17.0.0_9d13099/examples/ble_peripheral/implantable_MA/max30003.c:121-124 | the MNGR_INT word holds efit 31 and clr_rrint 1, and other bits pass through |
| Max30003.EnIntFields | nRF5_SDK_17.0.0_9d13099/examples/ble_peripheral/implantable_MA/max30003.c:127-132 | the EN_INT union is cleared first, so its word is exactly 0x800003 |
| Max30003.CnfgCalFields | nRF5_SDK_17.0.0_9d13099/examples/ble_peripheral/implantable_MA/max30003.c:135-142 | the CNFG_CAL word holds the six calibration fields assigned, and other bits pass through |
| Max30003.MngrDynFields | nRF5_SDK_17.0.0_9d13099/examples/ble_peripheral/implantable_MA/max30003.c:145-147 | the MNGR_DYN word has fast = 0, and other bits pass through |
| Max30003.CnfgEmuxFields | nRF5_SDK_17.0.0_9d13099/examples/ble_peripheral/implantable_MA/max30003.c:150-156 | the CNFG_EMUX word has its five mux fields cleared, and other bits pass through |
| Max30003.FixedFrames | nRF5_SDK_17.0.0_9d13099/examples/ble_peripheral/implantable_MA/max30003.c:158-249 | the exact bytes of the frames whose words do not depend on memory: SW_RST, SYNCH and FIFO_RST writes of 0, the EN_INT write, and the STATUS, INFO, RTOR and ECG_FIFO reads |
| Max30003.SpiBus.constructor | nRF5_SDK_17.0.0_9d13099/examples/ble_peripheral/implantable_MA/max30003.c:262-264 | a transport with no transfers yet and zero data bytes latched |
| Max30003.SpiBus.Xfer | nRF5_SDK_17.0.0_9d13099/examples/ble_peripheral/implantable_MA/max30003.c:262-264 | each transfer is logged and answered with its status; a write frame's data bytes are latched; the receive buffer gets the echoed command, then the latched bytes |
| Max30003.Driver.constructor | nRF5_SDK_17.0.0_9d13099/examples/ble_peripheral/implantable_MA/max30003.c:54-56 | the static TX and RX buffers and a callback table with every slot NULL |
| Max30003.Driver.ReadReg | nRF5_SDK_17.0.0_9d13099/examples/ble_peripheral/implantable_MA/max30003.c:253-274 | exactly one read transfer of the read frame; the status is returned unchanged; the value is assembled from received bytes 1..3 whatever the status, and is below 2^24 |
| Max30003.Driver.WriteReg | nRF5_SDK_17.0.0_9d13099/examples/ble_peripheral/implantable_MA/max30003.c:276-290 | exactly one transfer of the write frame with nothing received; the status is returned unchanged |
| Max30003.Driver.Reset | nRF5_SDK_17.0.0_9d13099/examples/ble_peripheral/implantable_MA/max30003.c:169-176 | one write of 0 to SW_RST; its status is returned |
| Max30003.Driver.ResetFifo | nRF5_SDK_17.0.0_9d13099/examples/ble_peripheral/implantable_MA/max30003.c:245-251 | one write of 0 to FIFO_RST; its status is returned |
| Max30003.Driver.GetRegister | nRF5_SDK_17.0.0_9d13099/examples/ble_peripheral/implantable_MA/max30003.c:178-234 | the status, info, calibration, interrupt and FIFO getters: one plain read of the register, its status and assembled value |
| Max30003.Driver.GetRtor | nRF5_SDK_17.0.0_9d13099/examples/ble_peripheral/implantable_MA/max30003.c:219-226 | one read of RTOR; the result is the raw value shifted right by RTOR_REG_OFFSET, below 2^14 |
| Max30003.Driver.StartData | nRF5_SDK_17.0.0_9d13099/examples/ble_peripheral/implantable_MA/max30003.c:236-243 | only this instance's callback slot changes, then SYNCH is written with 0 |
| Max30003.Driver.IntbHandler | nRF5_SDK_17.0.0_9d13099/examples/ble_peripheral/implantable_MA/max30003.c:292-296 | exactly this instance's callback is invoked, and none when the slot is NULL |
| Max30003.Driver.Init | nRF5_SDK_17.0.0_9d13099/examples/ble_peripheral/implantable_MA/max30003.c:66-78 | a failed reset is returned at once after the one SW_RST write; otherwise the whole init transfer sequence follows and its last status is returned |
| Max30003.Driver.Configure | nRF5_SDK_17.0.0_9d13099/examples/ble_peripheral/implantable_MA/max30003.c:79-160 | the STATUS, INFO and CNFG_CAL reads, then the writes to CNFG_GEN, CNFG_ECG, MNGR_INT, EN_INT, CNFG_CAL, MNGR_DYN, CNFG_EMUX and SYNCH in that order; only the last write's status is returned |
| Max30003.WriteThenRead | nRF5_SDK_17.0.0_9d13099/examples/ble_peripheral/implantable_MA/max30003.c:253-290 | with the echoing transport, a read after a write of any word returns that word's low 24 bits, whatever the statuses |
| Hrs.SampleChunks | nRF5_SDK_17.0.0_9d13099/components/ble/ble_services/ble_hrs/ble_hrs_strain_gauge_v1.c:194-198 | one 2-byte little-endian piece per sample, in input order |
| Hrs.SampleBytes | nRF5_SDK_17.0.0_9d13099/components/ble/ble_services/ble_hrs/ble_hrs_strain_gauge_v1.c:194-198 | the samples on the wire take two bytes each |
| Hrs.HrmWire | nRF5_SDK_17.0.0_9d13099/components/ble/ble_services/ble_hrs/ble_hrs_strain_gauge_v1.c:188-198 | the measurement format is 6 + 2n bytes long |
| Hrs.SampleValues | nRF5_SDK_17.0.0_9d13099/components/ble/ble_services/ble_hrs/ble_hrs_strain_gauge_v1.c:194-198 | an even-length byte string holds half as many samples |
| Hrs.SampleRoundTrip | nRF5_SDK_17.0.0_9d13099/components/ble/ble_services/ble_hrs/ble_hrs_strain_gauge_v1.c:194-198 | decoding the sample bytes gives the samples back |
| Hrs.SampleBytesOfValues | nRF5_SDK_17.0.0_9d13099/components/ble/ble_services/ble_hrs/ble_hrs_strain_gauge_v1.c:194-198 | every even-length byte string is the encoding of the samples it decodes to |
| Hrs.HrmChunksWire | nRF5_SDK_17.0.0_9d13099/components/ble/ble_services/ble_hrs/ble_hrs_strain_gauge_v1.c:188-198 | the pieces `hrm_encode` copies, concatenated, are tot_count (LE), timer_period, the count and each sample (LE), in order |
| Hrs.SampleChunksBytes | nRF5_SDK_17.0.0_9d13099/components/ble/ble_services/ble_hrs/ble_hrs_strain_gauge_v1.c:194-198 | the sample pieces concatenated are the sample bytes |
| Hrs.HrmRoundTrip | nRF5_SDK_17.0.0_9d13099/components/ble/ble_services/ble_hrs/ble_hrs_strain_gauge_v1.c:188-198 | the reference decoder gives back every encoded measurement |
| Hrs.HrmDecodeSound | nRF5_SDK_17.0.0_9d13099/components/ble/ble_services/ble_hrs/ble_hrs_strain_gauge_v1.c:188-198 | every byte string the decoder accepts is the encoding of what it decodes to |
| Hrs.HrmPrefixLength | nRF5_SDK_17.0.0_9d13099/components/ble/ble_services/ble_hrs/ble_hrs_strain_gauge_v1.c:188-198 | the bytes copied before piece k: 0, 4, 5, then 6 + 2 per sample |
| Hrs.HrmFits | nRF5_SDK_17.0.0_9d13099/components/ble/ble_services/ble_hrs/ble_hrs_strain_gauge_v1.c:188-198 | with `HrmRoom` bytes, every copy at the wrapped offset stays inside the buffer |
| Hrs.HrmOverruns | nRF5_SDK_17.0.0_9d13099/components/ble/ble_services/ble_hrs/ble_hrs_strain_gauge_v1.c:188-198 | with fewer bytes than `HrmRoom`, some copy runs past the end of the buffer |
| Hrs.HrmFitsIff | nRF5_SDK_17.0.0_9d13099/components/ble/ble_services/ble_hrs/ble_hrs_strain_gauge_v1.c:188-198 | the copies stay inside a buffer exactly when it has `HrmRoom` bytes |
| Hrs.HrmEncode | nRF5_SDK_17.0.0_9d13099/components/ble/ble_services/ble_hrs/ble_hrs_strain_gauge_v1.c:166-203 | the buffer holds what copying the pieces at the running `uint8_t` offset leaves, and the returned length is (6 + 2n) mod 256 |
| Hrs.HrmPieceFits | nRF5_SDK_17.0.0_9d13099/components/ble/ble_services/ble_hrs/ble_hrs_strain_gauge_v1.c:195-196 | with the room, piece k lands inside the buffer |
| Hrs.HrmOffset | nRF5_SDK_17.0.0_9d13099/components/ble/ble_services/ble_hrs/ble_hrs_strain_gauge_v1.c:168-202 | the final `uint8_t` offset is (6 + 2n) mod 256 |
| Hrs.HrmEncodeNoWrap | nRF5_SDK_17.0.0_9d13099/components/ble/ble_services/ble_hrs/ble_hrs_strain_gauge_v1.c:188-198 | up to 125 samples the buffer starts with the measurement format |
| Hrs.InitialHrm | nRF5_SDK_17.0.0_9d13099/components/ble/ble_services/ble_hrs/ble_hrs_strain_gauge_v1.c:238 | the 200-sample initial value reports length 150 (wrapped from 406), and its copies fit exactly when the buffer has 256 bytes |
| Hrs.InitialHrmOverruns | nRF5_SDK_17.0.0_9d13099/components/ble/ble_services/ble_hrs/ble_hrs_strain_gauge_v1.c:210-238 | as written, the 200-sample initial value overruns the MAX_HRM_LEN buffer for every ATT_MTU below 259 |
| Hrs.FittingSampleCount | nRF5_SDK_17.0.0_9d13099/components/ble/ble_services/ble_hrs/ble_hrs_strain_gauge_v1.c:238 | the corrected initial sample count: never more than 200 nor more than fit the buffer, 200 whenever those fit, and otherwise one more sample would not fit |
| Hrs.FittingHrmFields | nRF5_SDK_17.0.0_9d13099/components/ble/ble_services/ble_hrs/ble_hrs_strain_gauge_v1.c:238 | the corrected initial value: that many zero samples, count 0 and timer period 5 |
| Hrs.FittingHrmFits | nRF5_SDK_17.0.0_9d13099/components/ble/ble_services/ble_hrs/ble_hrs_strain_gauge_v1.c:210-238 | the corrected initial value fits its MAX_HRM_LEN buffer for every ATT_MTU, and from 259 on it is the source's value |
| Hrs.CccdWriteEvent | nRF5_SDK_17.0.0_9d13099/components/ble/ble_services/ble_hrs/ble_hrs_strain_gauge_v1.c:93-114 | an event is raised exactly when the write is 2 bytes and a handler is set; it is ENABLED exactly when the notification bit is set |
| Hrs.LastN | nRF5_SDK_17.0.0_9d13099/components/ble/ble_services/ble_hrs/ble_hrs_strain_gauge_v1.c:311-324 | the most recent min(k, cap) values |
| Hrs.RrAddAllKeepsLast | nRF5_SDK_17.0.0_9d13099/components/ble/ble_services/ble_hrs/ble_hrs_strain_gauge_v1.c:311-324 | after any number of adds, the buffer holds the last min(k, MAX) values in insertion order |
| Hrs.RrFullAfter | nRF5_SDK_17.0.0_9d13099/components/ble/ble_services/ble_hrs/ble_hrs_strain_gauge_v1.c:311-330 | starting empty, the buffer is full exactly when at least MAX values were added |
| Hrs.HeartRateService.OnBleEvt | nRF5_SDK_17.0.0_9d13099/components/ble/ble_services/ble_hrs/ble_hrs_strain_gauge_v1.c:133-155 | CONNECTED records the link and DISCONNECTED invalidates it; only a write to the measurement CCCD raises an event, the one `CccdWriteEvent` gives |
| Hrs.HeartRateService.Init | nRF5_SDK_17.0.0_9d13099/components/ble/ble_services/ble_hrs/ble_hrs_strain_gauge_v1.c:206-270 | record fields set as in `ble_hrs_init`, no link, empty RR buffer, `max_hrm_len` = MAX_HRM_LEN; registration as `RegisterOutcome` |
| Hrs.HeartRateService.Register | nRF5_SDK_17.0.0_9d13099/components/ble/ble_services/ble_hrs/ble_hrs_strain_gauge_v1.c:221-269 | service, measurement characteristic, then body sensor location only when given; the first stack error is returned and nothing after it is requested |
| Hrs.HeartRateService.InitialHrmParams | nRF5_SDK_17.0.0_9d13099/components/ble/ble_services/ble_hrs/ble_hrs_strain_gauge_v1.c:234-241 | the measurement characteristic: UUID 0x2A37, max length MAX_HRM_LEN, variable length, notify; the initial value is the corrected one, its length the encoder's length for that many samples (150 when all 200 fit), and below 200 samples it starts with the measurement format |
| Hrs.HeartRateService.MeasurementSend | nRF5_SDK_17.0.0_9d13099/components/ble/ble_services/ble_hrs/ble_hrs_strain_gauge_v1.c:273-308 | no link gives INVALID_STATE with no stack call; otherwise one notification of the encoded buffer at the encoded length; stack success with a changed length gives DATA_SIZE, and any other stack code is passed through |
| Hrs.HeartRateService.RrIntervalAdd | nRF5_SDK_17.0.0_9d13099/components/ble/ble_services/ble_hrs/ble_hrs_strain_gauge_v1.c:311-324 | below capacity the value goes at index count and count grows; at capacity the array shifts left by one, the value goes last, and count stays at capacity |
| Hrs.HeartRateService.RrIntervalBufferIsFull | nRF5_SDK_17.0.0_9d13099/components/ble/ble_services/ble_hrs/ble_hrs_strain_gauge_v1.c:327-330 | full exactly when the buffer holds its capacity |
| Hrs.HeartRateService.SensorContactSupportedSet | nRF5_SDK_17.0.0_9d13099/components/ble/ble_services/ble_hrs/ble_hrs_strain_gauge_v1.c:333-345 | disconnected: the flag is updated and SUCCESS returned; connected: INVALID_STATE with the flag unchanged |
| Hrs.HeartRateService.SensorContactDetectedUpdate | nRF5_SDK_17.0.0_9d13099/components/ble/ble_services/ble_hrs/ble_hrs_strain_gauge_v1.c:348-351 | the detected flag takes the new value |
| Hrs.HeartRateService.BodySensorLocationSet | nRF5_SDK_17.0.0_9d13099/components/ble/ble_services/ble_hrs/ble_hrs_strain_gauge_v1.c:354-366 | the one-byte location is written to the location value on the current link; the stack's code is returned |
| Hrs.HeartRateService.OnGattEvt | nRF5_SDK_17.0.0_9d13099/components/ble/ble_services/ble_hrs/ble_hrs_strain_gauge_v1.c:369-376 | only an MTU update on the tracked link changes `max_hrm_len`, to the effective MTU − 3 as a `uint16_t` |
| BiosigSvc.FrameBytes | nRF5_SDK_17.0.0_9d13099/examples/ble_peripheral/implantable_MA/ble_bio_sig_svc.c:135 | each frame contributes 6 bytes |
| BiosigSvc.FrameChunks | nRF5_SDK_17.0.0_9d13099/examples/ble_peripheral/implantable_MA/ble_bio_sig_svc.c:133-139 | one 6-byte piece per frame, in input order |
| BiosigSvc.FramesBytes | nRF5_SDK_17.0.0_9d13099/examples/ble_peripheral/implantable_MA/ble_bio_sig_svc.c:133-139 | the frames take six bytes each on the wire |
| BiosigSvc.BiosigWire | nRF5_SDK_17.0.0_9d13099/examples/ble_peripheral/implantable_MA/ble_bio_sig_svc.c:127-139 | the measurement format is 9 + 6n bytes long |
| BiosigSvc.FrameValues | nRF5_SDK_17.0.0_9d13099/examples/ble_peripheral/implantable_MA/ble_bio_sig_svc.c:133-139 | a byte string of a multiple of 6 bytes holds a sixth as many frames |
| BiosigSvc.FrameRoundTrip | nRF5_SDK_17.0.0_9d13099/examples/ble_peripheral/implantable_MA/ble_bio_sig_svc.c:135 | a frame's x, y, z read back from its six bytes |
| BiosigSvc.FrameBytesOfValue | nRF5_SDK_17.0.0_9d13099/examples/ble_peripheral/implantable_MA/ble_bio_sig_svc.c:135 | every six bytes are the encoding of the frame they decode to |
| BiosigSvc.FramesRoundTrip | nRF5_SDK_17.0.0_9d13099/examples/ble_peripheral/implantable_MA/ble_bio_sig_svc.c:133-139 | decoding the frame bytes gives the frames back |
| BiosigSvc.FramesBytesOfValues | nRF5_SDK_17.0.0_9d13099/examples/ble_peripheral/implantable_MA/ble_bio_sig_svc.c:133-139 | every multiple-of-6 byte string is the encoding of the frames it decodes to |
| BiosigSvc.BiosigRoundTrip | nRF5_SDK_17.0.0_9d13099/examples/ble_peripheral/implantable_MA/ble_bio_sig_svc.c:123-142 | the reference decoder gives back every encoded measurement |
| BiosigSvc.BiosigDecodeSound | nRF5_SDK_17.0.0_9d13099/examples/ble_peripheral/implantable_MA/ble_bio_sig_svc.c:123-142 | every byte string the decoder accepts is the encoding of what it decodes to |
| BiosigSvc.FrameChunksBytes | nRF5_SDK_17.0.0_9d13099/examples/ble_peripheral/implantable_MA/ble_bio_sig_svc.c:133-139 | the frame pieces concatenated are the frame bytes |
| BiosigSvc.BiosigChunksWire | nRF5_SDK_17.0.0_9d13099/examples/ble_peripheral/implantable_MA/ble_bio_sig_svc.c:127-139 | the pieces `biosignal_encode` copies, concatenated, are the timestamp (LE), the count and each frame's x, y, z (LE) |
| BiosigSvc.BiosigRoomIsMax | nRF5_SDK_17.0.0_9d13099/examples/ble_peripheral/implantable_MA/ble_bio_sig_svc.c:127-139 | the room needed is at most a size exactly when the header and every frame's wrapped end fit in it |
| BiosigSvc.BiosigRoomNoWrap | nRF5_SDK_17.0.0_9d13099/examples/ble_peripheral/implantable_MA/ble_bio_sig_svc.c:127-139 | up to 41 frames the room is the encoding's length 9 + 6n |
| BiosigSvc.BiosigRoomWrapped | nRF5_SDK_17.0.0_9d13099/examples/ble_peripheral/implantable_MA/ble_bio_sig_svc.c:127-139 | from 42 frames on, frame 41 is copied at offset 255 and the copies need 261 bytes |
| BiosigSvc.FrameEndBound | nRF5_SDK_17.0.0_9d13099/examples/ble_peripheral/implantable_MA/ble_bio_sig_svc.c:135-137 | no frame copy ends past byte 261 |
| BiosigSvc.BiosigPrefixLength | nRF5_SDK_17.0.0_9d13099/examples/ble_peripheral/implantable_MA/ble_bio_sig_svc.c:127-139 | the bytes copied before piece k: 0, 8, then 9 + 6 per frame |
| BiosigSvc.BiosigFits | nRF5_SDK_17.0.0_9d13099/examples/ble_peripheral/implantable_MA/ble_bio_sig_svc.c:127-139 | with `BiosigRoom` bytes, every copy at the wrapped offset stays inside the buffer |
| BiosigSvc.BiosigOverruns | nRF5_SDK_17.0.0_9d13099/examples/ble_peripheral/implantable_MA/ble_bio_sig_svc.c:127-139 | with fewer bytes than `BiosigRoom`, some copy runs past the end |
| BiosigSvc.BiosigFitsIff | nRF5_SDK_17.0.0_9d13099/examples/ble_peripheral/implantable_MA/ble_bio_sig_svc.c:127-139 | the copies stay inside a buffer exactly when it has `BiosigRoom` bytes |
| BiosigSvc.BiosigPieceFits | nRF5_SDK_17.0.0_9d13099/examples/ble_peripheral/implantable_MA/ble_bio_sig_svc.c:135-137 | with the room, piece k lands inside the buffer |
| BiosigSvc.BiosigOffset | nRF5_SDK_17.0.0_9d13099/examples/ble_peripheral/implantable_MA/ble_bio_sig_svc.c:125-141 | the final `uint8_t` offset is (9 + 6n) mod 256 |
| BiosigSvc.BiosignalEncode | nRF5_SDK_17.0.0_9d13099/examples/ble_peripheral/implantable_MA/ble_bio_sig_svc.c:123-142 | the buffer holds what copying the pieces at the running `uint8_t` offset leaves, and the returned length is (9 + 6n) mod 256 |
| BiosigSvc.BiosigEncodeNoWrap | nRF5_SDK_17.0.0_9d13099/examples/ble_peripheral/implantable_MA/ble_bio_sig_svc.c:127-139 | up to 41 frames the buffer starts with the measurement format |
| BiosigSvc.InitialBiosig | nRF5_SDK_17.0.0_9d13099/examples/ble_peripheral/implantable_MA/ble_bio_sig_svc.c:174 | 38 frames need 237 bytes and report length 237 |
| BiosigSvc.InitialBiosigOverruns | nRF5_SDK_17.0.0_9d13099/examples/ble_peripheral/implantable_MA/ble_bio_sig_svc.c:150-174 | as written, the 38-frame initial value overruns the MAX_BIOSIG_LEN buffer for every ATT_MTU below 240 |
| BiosigSvc.FittingFrameCount | nRF5_SDK_17.0.0_9d13099/examples/ble_peripheral/implantable_MA/ble_bio_sig_svc.c:174 | the corrected initial frame count: never more than 38 nor more than fit the buffer, 38 whenever those fit, and otherwise one more frame would not fit |
| BiosigSvc.FewerFramesFit | nRF5_SDK_17.0.0_9d13099/examples/ble_peripheral/implantable_MA/ble_bio_sig_svc.c:174 | below 237 bytes, (cap − 9) / 6 frames fit and one more frame does not |
| BiosigSvc.FittingBiosigFields | nRF5_SDK_17.0.0_9d13099/examples/ble_peripheral/implantable_MA/ble_bio_sig_svc.c:174 | the corrected initial value: that many zero frames at timestamp 0 |
| BiosigSvc.FittingBiosigFits | nRF5_SDK_17.0.0_9d13099/examples/ble_peripheral/implantable_MA/ble_bio_sig_svc.c:150-174 | the corrected initial value fits its MAX_BIOSIG_LEN buffer for every ATT_MTU, and from 240 on it is the source's value |
| BiosigSvc.FirstTxComplete | nRF5_SDK_17.0.0_9d13099/examples/ble_peripheral/implantable_MA/ble_bio_sig_svc.c:228-229 | the index of the first TX-complete event: it is one, and none comes before it |
| BiosigSvc.WaitStaysSet | nRF5_SDK_17.0.0_9d13099/examples/ble_peripheral/implantable_MA/ble_bio_sig_svc.c:86-108 | with no TX-complete among the events, the handler leaves the wait flag set |
| BiosigSvc.WaitNeverEnds | nRF5_SDK_17.0.0_9d13099/examples/ble_peripheral/implantable_MA/ble_bio_sig_svc.c:224-229 | as written, with no TX-complete the flag the loop polls is set after every prefix of the events, so the loop never ends |
| BiosigSvc.DisconnectDuringWait | nRF5_SDK_17.0.0_9d13099/examples/ble_peripheral/implantable_MA/ble_bio_sig_svc.c:98-100 | a disconnect leaves the flag set and invalidates the link, and it is where the corrected wait ends |
| BiosigSvc.FirstWaitEnd | nRF5_SDK_17.0.0_9d13099/examples/ble_peripheral/implantable_MA/ble_bio_sig_svc.c:224-229 | the index of the first event that ends the corrected wait, with none before it |
| BiosigSvc.WaitEndNoLater | nRF5_SDK_17.0.0_9d13099/examples/ble_peripheral/implantable_MA/ble_bio_sig_svc.c:224-229 | wherever a TX-complete arrives, the corrected wait ends there or earlier |
| BiosigSvc.BioSignalService.constructor | nRF5_SDK_17.0.0_9d13099/examples/ble_peripheral/implantable_MA/ble_bio_sig_svc.c:60 | the zero-initialised record, and the wait flag clear |
| BiosigSvc.BioSignalService.OnBleEvt | nRF5_SDK_17.0.0_9d13099/examples/ble_peripheral/implantable_MA/ble_bio_sig_svc.c:86-108 | CONNECTED records the link, DISCONNECTED invalidates it, TX-complete clears the wait flag, and nothing else changes either |
| BiosigSvc.BioSignalService.Init | nRF5_SDK_17.0.0_9d13099/examples/ble_peripheral/implantable_MA/ble_bio_sig_svc.c:145-188 | handler, no link and `max_biosig_len` = MAX_BIOSIG_LEN (as a `uint8_t`) set before any stack call; service then characteristic; the first stack error is returned without rollback |
| BiosigSvc.BioSignalService.InitialBiosigParams | nRF5_SDK_17.0.0_9d13099/examples/ble_peripheral/implantable_MA/ble_bio_sig_svc.c:168-180 | the measurement characteristic: UUID, max length MAX_BIOSIG_LEN, variable length, notify; the initial value is the corrected one, starting with its measurement format, and its length is the encoder's (237 when all 38 frames fit) |
| BiosigSvc.BioSignalService.MeasurementSend | nRF5_SDK_17.0.0_9d13099/examples/ble_peripheral/implantable_MA/ble_bio_sig_svc.c:191-241 | no link gives INVALID_STATE and no call; otherwise one notification of the encoded buffer; DATA_SIZE on a shortened success; on RESOURCES, wait with the corrected wait, retry once with the same buffer on the link as it then is, and return 1000 whatever the retry gives; the flag is left clear exactly when a TX-complete ended the wait |
| BiosigSvc.BioSignalService.WaitForTxComplete | nRF5_SDK_17.0.0_9d13099/examples/ble_peripheral/implantable_MA/ble_bio_sig_svc.c:226-229 | the loop as written handles events up to and including the first TX-complete, and then stops with the flag clear |
| BiosigSvc.BioSignalService.WaitForTxCompleteOrLinkLoss | nRF5_SDK_17.0.0_9d13099/examples/ble_peripheral/implantable_MA/ble_bio_sig_svc.c:226-229 | the corrected loop handles events up to and including the first TX-complete or loss of the link; it stops with the flag clear after a TX-complete, and otherwise with no link |
| BiosigSvc.BioSignalService.OnGattEvt | nRF5_SDK_17.0.0_9d13099/examples/ble_peripheral/implantable_MA/ble_bio_sig_svc.c:244-251 | only an MTU update on the tracked link changes `max_biosig_len`, to the effective MTU − 3 truncated to a `uint8_t` |
| BiosigClient.FirstMatch | nRF5_SDK_17.0.0_9d13099/examples/ble_central/implantable_MA_central/ble_biosig_c.c:184-195 | the index of the first characteristic with the UUID, with no earlier one matching; none exactly when no characteristic matches |
| BiosigClient.CccdValue | nRF5_SDK_17.0.0_9d13099/examples/ble_central/implantable_MA_central/ble_biosig_c.c:275-276 | a 2-byte CCCD value that enables notifications exactly when asked, reading as 1 when enabling and 0 otherwise |
| BiosigClient.BioSignalClient.GattErrorHandler | nRF5_SDK_17.0.0_9d13099/examples/ble_central/implantable_MA_central/ble_biosig_c.c:61-73 | a queue error is passed to the application's error handler exactly when there is one |
| BiosigClient.BioSignalClient.OnHvx | nRF5_SDK_17.0.0_9d13099/examples/ble_central/implantable_MA_central/ble_biosig_c.c:86-146 | an event is raised exactly when link and value handle match; it carries the instance's link and the event's first data byte, whatever `len` says |
| BiosigClient.BioSignalClient.OnDisconnected | nRF5_SDK_17.0.0_9d13099/examples/ble_central/implantable_MA_central/ble_biosig_c.c:158-166 | on the instance's link, the link and both handles go back to their sentinels; otherwise nothing changes |
| BiosigClient.BioSignalClient.OnDbDiscEvt | nRF5_SDK_17.0.0_9d13099/examples/ble_central/implantable_MA_central/ble_biosig_c.c:169-212 | only a completed discovery of the service with the vendor UUID type counts; it takes the first matching characteristic's handles, stores them only when on a link with both handles invalid, and always reports them with the discovery's link |
| BiosigClient.BioSignalClient.CccdConfigure | nRF5_SDK_17.0.0_9d13099/examples/ble_central/implantable_MA_central/ble_biosig_c.c:265-289 | a write request of the CCCD value to the stored CCCD handle on the instance's link; the queue's code is returned |
| BiosigClient.Init | nRF5_SDK_17.0.0_9d13099/examples/ble_central/implantable_MA_central/ble_biosig_c.c:215-236 | NULL instance or configuration gives NULL; otherwise the link and handles are reset, handlers and queue copied, and the service UUID registered with the discovery module |
| BiosigClient.OnBleEvt | nRF5_SDK_17.0.0_9d13099/examples/ble_central/implantable_MA_central/ble_biosig_c.c:238-260 | NULL context or event does nothing; HVX goes to `OnHvx`, DISCONNECTED to `OnDisconnected`, and any other event changes nothing |
| BiosigClient.NotifEnable | nRF5_SDK_17.0.0_9d13099/examples/ble_central/implantable_MA_central/ble_biosig_c.c:292-297 | NULL is rejected; otherwise the CCCD write that enables notifications |
| BiosigClient.HandlesAssign | nRF5_SDK_17.0.0_9d13099/examples/ble_central/implantable_MA_central/ble_biosig_c.c:300-313 | NULL is rejected; otherwise the link is always set, and the peer handles are replaced only when some are given |

## Left out

- Logging (`printf`, `SEGGER_RTT_printf`, `NRF_LOG`) is not modelled. This includes the read of `p_buffer[30]` in `hrm_encode`, which is only printed.
- `nrf_delay_ms` and the INTB GPIO set-up in `max30003_init` are not modelled. They are timing and pin configuration with no effect on the transfers.
- The commented-out FIFO drain and the floating-point heart-rate conversion of the MAX30003 file are not modelled. They are dead code and floating point.
- `i2c.c`, the SPI example's `main.c` and the hardware set-up in `spi.c` are not part of this model. They are transport plumbing and interrupt signalling.
- The SoftDevice and SDK calls are not modelled, because their code is not visible here: `sd_ble_gatts_service_add`, `characteristic_add`, `sd_ble_gatts_hvx`, `sd_ble_gatts_value_set`, `sd_ble_uuid_vs_add`, `ble_db_discovery_evt_register` and `nrf_ble_gq_*`. Their results are parameters and their requests are returned values.
- Security levels in the init structures are not modelled. The code only forwards them to the stack.
- The application callbacks (`evt_handler`, `error_handler`) are not called. A raised event is the returned value.
- `nrf_pwr_mgmt_run` in the wait loop is not modelled as concurrency. Each wake-up delivers the next BLE event from a given list to the service's handler.
- BiosigSvc.BioSignalService.MeasurementSend requires that, after a RESOURCES reply, some event ends the corrected wait: a TX-complete or the loss of the link. The stack is relied on to deliver one of them.
- BiosigSvc.BioSignalService.WaitForTxComplete models the source's loop as written and requires a TX-complete among the events, so its endless case is left out of that method. `WaitNeverEnds` states that case, and the send path uses the corrected wait (see Findings).
- Hrs.HeartRateService.MeasurementSend requires that the MAX_HRM_LEN stack buffer is at least the room the copies need (`HrmRoom`). The source copies past the end of its buffer otherwise, and that undefined behaviour is excluded.
- Hrs.HeartRateService.Init, Hrs.HeartRateService.Register and Hrs.HeartRateService.InitialHrmParams register the corrected initial value of `FittingSampleCount` zero samples, not the source's 200. The 200 samples wrap the offset, so their copies need 256 bytes and overrun MAX_HRM_LEN below an ATT_MTU of 259 (see Findings). From 259 on the two values are the same.
- BiosigSvc.BioSignalService.MeasurementSend requires that the MAX_BIOSIG_LEN buffer has `BiosigRoom` bytes, so the copies stay inside it.
- BiosigSvc.BioSignalService.Init and BiosigSvc.BioSignalService.InitialBiosigParams register the corrected initial value of `FittingFrameCount` zero frames, not the source's 38. The 38 frames need 237 bytes and overrun MAX_BIOSIG_LEN below an ATT_MTU of 240 (see Findings). From 240 on the two values are the same.
- Max30003.Driver.StartData and Max30003.Driver.IntbHandler require `spi_instance_id` < 2. The id is a `uint8_t` (max30003.h:87) that indexes a 2-entry callback table (max30003.h:91, max30003.c:56) without a check (max30003.c:240 and 294). A larger id stores or reads out of bounds, and that undefined behaviour is excluded.
- BiosigClient.BioSignalClient.OnHvx and BiosigClient.BioSignalClient.OnDbDiscEvt raise their event even when `evtHandler` is `None`. The source copies `evt_handler` at init without a NULL check (ble_biosig_c.c:217-218 and 228) and calls it without a check (ble_biosig_c.c:144 and 210), so the raised event then stands for a call through NULL.
- The uninitialised stack buffers are given as a parameter (`stale`), so their contents are arbitrary but fixed, and bytes the encoder does not write keep them. The initial-value buffers of the two init functions are left to Dafny's default contents.
- The bio-signal encoder's output buffer is `int8_t`. It is modelled as bytes (`uint8`); the bits are the same.
- `hrm_encode` reads its samples as `int16_t` while the send path passes `uint16_t` samples. The samples are modelled as `uint16`; the two bytes copied are the same.
- `struct bmi160_sensor_data` is not part of this model beyond its first three `int16_t` members, which are the six bytes copied per frame.
- BLE_HRS_MAX_BUFFERED_RR_INTERVALS and NRF_SDH_BLE_GATT_MAX_MTU_SIZE come from headers and configuration that are not part of this model. They are constructor parameters.
- The client's base UUID and its service and characteristic UUIDs come from `ble_biosig_c.h`, which is not part of this model. They are constructor parameters. The error of `sd_ble_uuid_vs_add` is ignored, as the code ignores it.
- When no characteristic matches during discovery, the handles reported come from an uninitialised event structure. They are modelled as an arbitrary parameter.
- BiosigSvc.BioSignalService.OnBleEvt: a disconnect leaves `m_wait_ble_tx` as it is (ble_bio_sig_svc.c:86-108), and the model keeps it so.
- Hrs.HeartRateService.Init and BiosigSvc.BioSignalService.Init state the initial characteristic value's length and parameters, not its bytes. `InitialHrmParams` and `InitialBiosigParams` state the bytes where the copies do not wrap, and `HrmEncode` and `BiosignalEncode` specify them in every case.
- Max30003.SpiBus.Xfer is a mock of `spi_xfer` that echoes the last written data bytes. The real transport (`spi.c`) is not modelled.
- The MAX30003 register words of the six uncleared unions start from arbitrary values (`Uninit`). Only the bits the code assigns are determined.

## Findings

| source | as written | input that shows it | evidently intended | confidence | as-written member | corrected member |
|---|---|---|---|---|---|---|
| nRF5_SDK_17.0.0_9d13099/components/ble/ble_services/ble_hrs/ble_hrs_strain_gauge_v1.c:210-238 | `ble_hrs_init` encodes 200 samples into `encoded_initial_hrm[MAX_HRM_LEN]`; the wrapping offset makes the copies reach byte 255 | NRF_SDH_BLE_GATT_MAX_MTU_SIZE of 247 (MAX_HRM_LEN 244), or any value below 259 | an initial value that fits its buffer | not executed | Hrs.InitialHrmOverruns | Hrs.FittingHrmFits |
| nRF5_SDK_17.0.0_9d13099/examples/ble_peripheral/implantable_MA/ble_bio_sig_svc.c:150-174 | `ble_biosig_svc_init` encodes 38 frames, 237 bytes, into `encoded_initial_biosig[MAX_BIOSIG_LEN]` | NRF_SDH_BLE_GATT_MAX_MTU_SIZE of 23 (MAX_BIOSIG_LEN 20), or any value below 240 | an initial value that fits its buffer | not executed | BiosigSvc.InitialBiosigOverruns | BiosigSvc.FittingBiosigFits |
| nRF5_SDK_17.0.0_9d13099/examples/ble_peripheral/implantable_MA/ble_bio_sig_svc.c:224-229 | after a RESOURCES reply the send path polls `m_wait_ble_tx` until a TX-complete clears it; a disconnect does not clear it | a RESOURCES reply, then a disconnect of the link and no TX-complete: the loop never ends | the wait also ends when the link is lost | not executed | BiosigSvc.WaitNeverEnds | BiosigSvc.BioSignalService.WaitForTxCompleteOrLinkLoss |

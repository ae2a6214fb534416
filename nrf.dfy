/** Fixed-width integers, SDK error codes and the BLE stack events that the
    services and the client react to. */
module Nrf {

  type uint8 = x: int | 0 <= x < 0x100
  type uint16 = x: int | 0 <= x < 0x1_0000
  type uint32 = x: int | 0 <= x < 0x1_0000_0000
  type uint64 = x: int | 0 <= x < 0x1_0000_0000_0000_0000
  type int8 = x: int | -0x80 <= x < 0x80
  type int16 = x: int | -0x8000 <= x < 0x8000

  /** An optional value; `None` stands for a NULL argument. */
  datatype Option<T> = None | Some(value: T)

  /** Error codes of the SDK (nrf_error.h). */
  const Success: uint32 := 0
  const ErrorInvalidState: uint32 := 8
  const ErrorDataSize: uint32 := 12
  const ErrorNull: uint32 := 14
  const ErrorResources: uint32 := 19

  /** Sentinels of the BLE stack. */
  const ConnHandleInvalid: uint16 := 0xFFFF
  const GattHandleInvalid: uint16 := 0x0000

  /** Notification type of a handle-value operation (BLE_GATT_HVX_NOTIFICATION). */
  const HvxNotification: uint16 := 0x0001

  /** ATT header of a Handle Value Notification: a 1-byte opcode and a 2-byte
      attribute handle (Bluetooth Core Specification Vol 3, Part F, section 3.4.7.1). */
  const OpcodeLength: nat := 1
  const HandleLength: nat := 2

  /** Payload room of a notification on a link with the given ATT_MTU, stored in
      a field of `width` bits: the C subtraction is done in `int` and then
      truncated to the field, which Dafny's Euclidean `%` reproduces exactly,
      also for an MTU below 3. */
  function NotificationPayload(attMtu: int, modulus: nat): (r: int)
    requires modulus > 0
    ensures 0 <= r < modulus
    ensures attMtu - 3 < modulus && attMtu >= 3 ==> r == attMtu - 3
  {
    (attMtu - OpcodeLength - HandleLength) % modulus
  }

  /** Size of the `data` member of the SoftDevice's HVX event structure, declared
      `uint8_t data[1]` and used as a variable-length tail. */
  const HvxDataFieldLen: nat := 1

  /** The raw bytes behind an HVX event's `data` member: always at least the one
      byte the structure declares. */
  type HvxBuffer = s: seq<uint8> | |s| >= 1 witness [0]

  /** The BLE stack events the modelled components dispatch on. `GattsWrite`
      carries the written bytes, so its `len` is the length of `data`; `GattcHvx`
      carries the declared length and the raw buffer `hvxData` separately, because the
      client copies by the buffer's declared size and not by `len`. */
  datatype BleEvt =
    | GapConnected(connHandle: uint16)
    | GapDisconnected(connHandle: uint16)
    | GattsWrite(connHandle: uint16, handle: uint16, data: seq<uint8>)
    | GattsHvnTxComplete(connHandle: uint16)
    | GattcHvx(connHandle: uint16, handle: uint16, len: uint16, hvxData: HvxBuffer)
    | OtherBleEvt

  /** Events of the GATT module (nrf_ble_gatt). */
  datatype GattEvtId = AttMtuUpdated | DataLengthUpdated
  datatype GattEvt = GattEvt(connHandle: uint16, evtId: GattEvtId, attMtuEffective: uint16)

  /** A 16-bit UUID with its type (BLE_UUID_TYPE_BLE = 1, vendor types from 2 on). */
  datatype Uuid = Uuid(uuid: uint16, uuidType: uint8)
  const UuidTypeBle: uint8 := 1
  const UuidTypeVendorBegin: uint8 := 2

  /** Handles of one characteristic as the stack assigns them. */
  datatype CharHandles = CharHandles(valueHandle: uint16, userDescHandle: uint16, cccdHandle: uint16, sccdHandle: uint16)

  /** What `sd_ble_gatts_hvx` reports: its return code and the value it leaves
      in the in/out length `*p_len`. */
  datatype HvxReply = HvxReply(err: uint32, hvxLen: uint16)

  /** One call of `sd_ble_gatts_hvx`: link, attribute handle, requested length
      (`*p_len` at the time of the call) and the buffer `p_data` points to. */
  datatype HvxCall = HvxCall(connHandle: uint16, handle: uint16, len: uint16, data: seq<uint8>)

  /** What a registration call of the stack (`sd_ble_gatts_service_add`,
      `characteristic_add`) reports: its return code and the handle(s) it fills in. */
  datatype ServiceAddReply = ServiceAddReply(err: uint32, serviceHandle: uint16)
  datatype CharAddReply = CharAddReply(err: uint32, handles: CharHandles)

  /** The characteristic parameters a service hands to `characteristic_add`
      (the fields of `ble_add_char_params_t` the services set). */
  datatype CharParams = CharParams(uuid: uint16, maxLen: uint16, initLen: uint16, initValue: seq<uint8>,
                                   isVarLen: bool, notify: bool, read: bool)

  /** A registration call made by a service's init, in the order made. */
  datatype StackCall =
    | ServiceAdd(serviceUuid: Uuid)
    | CharAdd(serviceHandle: uint16, params: CharParams)
}

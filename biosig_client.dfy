/** The central's bio-signal service client: which link and which peer handles
    an instance follows, how it filters notifications, how it takes over the
    handles found by service discovery, and the CCCD write that turns
    notifications on. */
module BiosigClient {
  import opened Nrf
  import opened Encoding

  /** Identities of the application's callbacks and of the GATT queue;
      `None` stands for NULL. */
  datatype EvtHandler = EvtHandler(id: nat)
  datatype ErrorHandler = ErrorHandler(id: nat)
  datatype GattQueue = GattQueue(id: nat)

  /** `biosig_svc_db_t`: the peer's measurement CCCD and value handles. */
  datatype PeerDb = PeerDb(measCccdHandle: uint16, measHandle: uint16)

  const InvalidPeerDb: PeerDb := PeerDb(GattHandleInvalid, GattHandleInvalid)

  /** The events the client passes to its application handler. A measurement
      notification carries the bytes copied out of the stack's event. */
  datatype ClientEvt =
    | MeasNotification(connHandle: uint16, data: seq<uint8>)
    | DiscoveryComplete(connHandle: uint16, peerDb: PeerDb)

  /** `ble_biosig_svc_c_init_t`. */
  datatype ClientInit = ClientInit(evtHandler: Option<EvtHandler>, errorHandler: Option<ErrorHandler>,
                                   gattQueue: Option<GattQueue>)

  /** What `sd_ble_uuid_vs_add` reports: its return code and the UUID type it assigns. */
  datatype VsAddReply = VsAddReply(err: uint32, uuidType: uint8)

  /** A characteristic found by the database discovery module. */
  datatype DiscoveredChar = DiscoveredChar(uuid: uint16, handleValue: uint16, cccdHandle: uint16)

  /** An event of the database discovery module; only the fields the client reads. */
  datatype DiscEvtType = DiscoveryCompleteEvt | DiscoveryOtherEvt
  datatype DbDiscoveryEvt = DbDiscoveryEvt(evtType: DiscEvtType, connHandle: uint16, srvUuid: Uuid,
                                           chars: seq<DiscoveredChar>)

  /** A GATT client write request queued with `nrf_ble_gq_item_add`. */
  datatype WriteOp = WriteReq | WriteCmd
  datatype GattcWriteReq = GattcWriteReq(connHandle: uint16, handle: uint16, value: seq<uint8>, writeOp: WriteOp)

  /** The index of the first characteristic with the given UUID, if any. */
  function FirstMatch(chars: seq<DiscoveredChar>, uuid: uint16): (r: Option<nat>)
    ensures r.Some? ==> r.value < |chars| && chars[r.value].uuid == uuid &&
                        forall j :: 0 <= j < r.value ==> chars[j].uuid != uuid
    ensures r.None? ==> forall j :: 0 <= j < |chars| ==> chars[j].uuid != uuid
  {
    if chars == [] then None
    else if chars[0].uuid == uuid then Some(0)
    else match FirstMatch(chars[1..], uuid)
      case None => None
      case Some(k) => Some(k + 1)
  }

  /** The peer handles a discovery reports: those of the first matching
      characteristic, or, with none, whatever the uninitialised event held. */
  function DiscoveredPeer(chars: seq<DiscoveredChar>, uuid: uint16, indeterminate: PeerDb): PeerDb
  {
    match FirstMatch(chars, uuid)
    case None => indeterminate
    case Some(i) => PeerDb(chars[i].cccdHandle, chars[i].handleValue)
  }

  /** The CCCD value `cccd_configure` writes: as a server reads it back, it
      enables notifications exactly when the client asked for them, and has no
      other bit set. */
  function CccdValue(enable: bool): (r: seq<uint8>)
    ensures |r| == 2
    ensures IsNotificationEnabled(r) <==> enable
    ensures Uint16Value(r) == if enable then HvxNotification else 0
  {
    var v: uint16 := if enable then HvxNotification else 0;
    [v % 256, v / 256]
  }

  /** `ble_biosig_svc_c_t`. The two UUIDs come from a header that is not part
      of this model, so they are fixed at construction. */
  class BioSignalClient {
    const serviceUuid: uint16
    const measurementCharUuid: uint16
    var uuidType: uint8
    var evtHandler: Option<EvtHandler>
    var errorHandler: Option<ErrorHandler>
    var gattQueue: Option<GattQueue>
    var connHandle: uint16
    var peerDb: PeerDb

    constructor (serviceUuid: uint16, measurementCharUuid: uint16)
      ensures this.serviceUuid == serviceUuid && this.measurementCharUuid == measurementCharUuid
      ensures connHandle == 0 && peerDb == PeerDb(0, 0)
    {
      this.serviceUuid := serviceUuid;
      this.measurementCharUuid := measurementCharUuid;
      uuidType := 0;
      evtHandler := None;
      errorHandler := None;
      gattQueue := None;
      connHandle := 0;
      peerDb := PeerDb(0, 0);
    }

    /** `gatt_error_handler`: a queue error is passed on to the application's
        error handler when it has one. */
    method GattErrorHandler(nrfError: uint32) returns (reported: Option<(ErrorHandler, uint32)>)
      ensures reported.Some? <==> errorHandler.Some?
      ensures reported.Some? ==> reported.value == (errorHandler.value, nrfError)
    {
      if errorHandler.Some? {
        reported := Some((errorHandler.value, nrfError));
      } else {
        reported := None;
      }
    }

    /** `on_hvx`: a notification on this instance's link and for the stored
        measurement handle is reported, with the `sizeof` of the event's
        one-byte `data` member copied, whatever its `len`. */
    method OnHvx(evt: BleEvt) returns (raised: Option<ClientEvt>)
      requires evt.GattcHvx?
      ensures raised.Some? <==> connHandle == evt.connHandle && evt.handle == peerDb.measHandle
      ensures raised.Some? ==> raised.value == MeasNotification(connHandle, evt.hvxData[..HvxDataFieldLen])
    {
      if connHandle != evt.connHandle {
        return None;
      }
      raised := None;
      if evt.handle == peerDb.measHandle {
        raised := Some(MeasNotification(connHandle, evt.hvxData[..HvxDataFieldLen]));
      }
    }

    /** `on_disconnected`: forget the link and the peer handles, for this
        instance's link only. */
    method OnDisconnected(evt: BleEvt)
      requires evt.GapDisconnected?
      modifies this`connHandle, this`peerDb
      ensures old(connHandle) == evt.connHandle ==> connHandle == ConnHandleInvalid && peerDb == InvalidPeerDb
      ensures old(connHandle) != evt.connHandle ==> connHandle == old(connHandle) && peerDb == old(peerDb)
    {
      if connHandle == evt.connHandle {
        connHandle := ConnHandleInvalid;
        peerDb := InvalidPeerDb;
      }
    }

    /** `ble_biosig_svc_on_db_disc_evt`: on a completed discovery of the
        bio-signal service (vendor UUID type), take the handles of the first
        measurement characteristic (`indeterminate` stands for the uninitialised
        event when there is none), store them when the instance is on a link
        and holds no handles yet, and report a discovery-complete event. */
    method OnDbDiscEvt(evt: DbDiscoveryEvt, indeterminate: PeerDb) returns (raised: Option<ClientEvt>)
      modifies this`peerDb
      ensures var relevant := evt.evtType == DiscoveryCompleteEvt && evt.srvUuid.uuid == serviceUuid &&
                              evt.srvUuid.uuidType == UuidTypeVendorBegin;
              var found := DiscoveredPeer(evt.chars, measurementCharUuid, indeterminate);
              (!relevant ==> raised == None && peerDb == old(peerDb)) &&
              (relevant ==> raised == Some(DiscoveryComplete(evt.connHandle, found))) &&
              (relevant && connHandle != ConnHandleInvalid && old(peerDb) == InvalidPeerDb ==> peerDb == found) &&
              (!(connHandle != ConnHandleInvalid && old(peerDb) == InvalidPeerDb) ==> peerDb == old(peerDb))
    {
      raised := None;
      if evt.evtType == DiscoveryCompleteEvt && evt.srvUuid.uuid == serviceUuid &&
         evt.srvUuid.uuidType == UuidTypeVendorBegin
      {
        var found := indeterminate;
        var i := 0;
        while i < |evt.chars|
          invariant 0 <= i <= |evt.chars|
          invariant forall j :: 0 <= j < i ==> evt.chars[j].uuid != measurementCharUuid
          invariant found == indeterminate
        {
          if evt.chars[i].uuid == measurementCharUuid {
            found := PeerDb(evt.chars[i].cccdHandle, evt.chars[i].handleValue);
            break;
          }
          i := i + 1;
        }
        assert found == DiscoveredPeer(evt.chars, measurementCharUuid, indeterminate);
        if connHandle != ConnHandleInvalid {
          if peerDb.measCccdHandle == GattHandleInvalid && peerDb.measHandle == GattHandleInvalid {
            peerDb := found;
          }
        }
        raised := Some(DiscoveryComplete(evt.connHandle, found));
      }
    }

    /** `cccd_configure`: queue a write request of the 2-byte CCCD value to the
        stored CCCD handle on the instance's link; `queueReply` is what
        `nrf_ble_gq_item_add` returns. */
    method CccdConfigure(enable: bool, queueReply: uint32) returns (err: uint32, req: GattcWriteReq)
      ensures req.connHandle == connHandle && req.handle == peerDb.measCccdHandle && req.writeOp == WriteReq
      ensures req.value == CccdValue(enable)
      ensures err == queueReply
    {
      var cccdVal: uint16 := if enable then HvxNotification else 0;
      var cccd := [cccdVal % 256, cccdVal / 256];
      req := GattcWriteReq(connHandle, peerDb.measCccdHandle, cccd, WriteReq);
      err := queueReply;
    }
  }

  /** `ble_biosig_svc_c_init`: reject a NULL instance or configuration; otherwise
      register the vendor base UUID (its error is ignored), reset the link and
      peer handles, copy the callbacks and queue, and register the service UUID
      with the discovery module, returning that registration's result. */
  method Init(c: BioSignalClient?, init: Option<ClientInit>, vsAddReply: VsAddReply, registerReply: uint32)
    returns (err: uint32, registered: Option<Uuid>)
    modifies c
    ensures c == null || init.None? ==> err == ErrorNull && registered == None
    ensures c != null && init.Some? ==>
      err == registerReply && registered == Some(Uuid(c.serviceUuid, vsAddReply.uuidType)) &&
      c.uuidType == vsAddReply.uuidType && c.evtHandler == init.value.evtHandler &&
      c.errorHandler == init.value.errorHandler && c.gattQueue == init.value.gattQueue &&
      c.connHandle == ConnHandleInvalid && c.peerDb == InvalidPeerDb
  {
    if c == null || init.None? {
      return ErrorNull, None;
    }
    c.uuidType := vsAddReply.uuidType;
    var uuid := Uuid(c.serviceUuid, c.uuidType);
    c.evtHandler := init.value.evtHandler;
    c.errorHandler := init.value.errorHandler;
    c.gattQueue := init.value.gattQueue;
    c.connHandle := ConnHandleInvalid;
    c.peerDb := InvalidPeerDb;
    err, registered := registerReply, Some(uuid);
  }

  /** `ble_biosig_svc_c_on_ble_evt`: nothing for a NULL instance or event;
      notifications go to `on_hvx`, disconnections to `on_disconnected`, and
      every other event is ignored. */
  method OnBleEvt(c: BioSignalClient?, evt: Option<BleEvt>) returns (raised: Option<ClientEvt>)
    modifies c
    ensures c == null || evt.None? ==> raised == None
    ensures c != null && evt.Some? && evt.value.GattcHvx? ==>
      c.connHandle == old(c.connHandle) && c.peerDb == old(c.peerDb) &&
      (raised.Some? <==> c.connHandle == evt.value.connHandle && evt.value.handle == c.peerDb.measHandle) &&
      (raised.Some? ==> raised.value == MeasNotification(c.connHandle, evt.value.hvxData[..HvxDataFieldLen]))
    ensures c != null && evt.Some? && evt.value.GapDisconnected? ==>
      raised == None &&
      (old(c.connHandle) == evt.value.connHandle ==> c.connHandle == ConnHandleInvalid && c.peerDb == InvalidPeerDb) &&
      (old(c.connHandle) != evt.value.connHandle ==> c.connHandle == old(c.connHandle) && c.peerDb == old(c.peerDb))
    ensures c != null && evt.Some? && !evt.value.GattcHvx? && !evt.value.GapDisconnected? ==>
      raised == None && c.connHandle == old(c.connHandle) && c.peerDb == old(c.peerDb)
  {
    raised := None;
    if c == null || evt.None? {
      return;
    }
    match evt.value {
      case GattcHvx(_, _, _, _) =>
        raised := c.OnHvx(evt.value);
      case GapDisconnected(_) =>
        c.OnDisconnected(evt.value);
      case _ =>
    }
  }

  /** `ble_biosig_svc_c_biosig_meas_notif_enable`: reject a NULL instance,
      otherwise queue the CCCD write that enables notifications. */
  method NotifEnable(c: BioSignalClient?, queueReply: uint32) returns (err: uint32, req: Option<GattcWriteReq>)
    ensures c == null ==> err == ErrorNull && req == None
    ensures c != null ==>
      err == queueReply && req == Some(GattcWriteReq(c.connHandle, c.peerDb.measCccdHandle, CccdValue(true), WriteReq))
  {
    if c == null {
      return ErrorNull, None;
    }
    var r;
    err, r := c.CccdConfigure(true, queueReply);
    req := Some(r);
  }

  /** `ble_biosig_svc_c_handles_assign`: reject a NULL instance; otherwise
      follow the given link, take the given peer handles when there are any, and
      return what registering the link with the GATT queue returns. */
  method HandlesAssign(c: BioSignalClient?, connHandle: uint16, peerHandles: Option<PeerDb>, registerReply: uint32)
    returns (err: uint32)
    modifies c
    ensures c == null ==> err == ErrorNull
    ensures c != null ==>
      err == registerReply && c.connHandle == connHandle &&
      c.peerDb == (if peerHandles.Some? then peerHandles.value else old(c.peerDb))
  {
    if c == null {
      return ErrorNull;
    }
    c.connHandle := connHandle;
    if peerHandles.Some? {
      c.peerDb := peerHandles.value;
    }
    err := registerReply;
  }
}

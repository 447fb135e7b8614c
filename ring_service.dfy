/** OmniringService.kt: the ring session as a started service (its
    `onBind` returns null). It scans for the ring by its exact name,
    connects, enables notification on the fixed
    telemetry characteristic (writing the configuration descriptor), and
    writes every notification as a timestamped row. */
module RingService {
  import opened Wrappers
  import opened FrameDecoder
  import opened HexFormat
  import opened LogRows
  import opened Gatt

  /** The only advertised name this copy reacts to. */
  const RING_NAME := "PPG_Ring#1"

  class OmniringService {
    var adapterPresent: bool
    var scannerPresent: bool
    var gatt: Option<GattHandle>
    var connectionState: int
    var commands: seq<GattCommand>
    var logEvents: seq<LogEvent>

    /** The connection state only ever holds the two values assigned to it. */
    ghost predicate Valid()
      reads this
    {
      connectionState == STATE_DISCONNECTED || connectionState == STATE_CONNECTED
    }

    constructor ()
      ensures Valid() && connectionState == STATE_DISCONNECTED
      ensures !adapterPresent && !scannerPresent && gatt.None?
      ensures commands == [] && logEvents == []
    {
      adapterPresent, scannerPresent := false, false;
      gatt := None;
      connectionState := STATE_DISCONNECTED;
      commands, logEvents := [], [];
    }

    /** `initialize`: take the default adapter; without one, fail and leave
        the scanner as it was; with one, take its scanner and open a new
        advertisement log file. */
    method Initialize(adapterAvailable: bool, scannerAvailable: bool) returns (ok: bool)
      requires Valid()
      modifies this
      ensures Valid() && ok == adapterAvailable && adapterPresent == adapterAvailable
      ensures scannerPresent == if ok then scannerAvailable else old(scannerPresent)
      ensures logEvents == old(logEvents) + if ok then [NewFile(BluetoothLog)] else []
      ensures gatt == old(gatt) && connectionState == old(connectionState) && commands == old(commands)
    {
      adapterPresent := adapterAvailable;
      if !adapterPresent {
        return false;
      }
      scannerPresent := scannerAvailable;
      logEvents := logEvents + [NewFile(BluetoothLog)];
      return true;
    }

    /** `onStartCommand`: initialise, then scan if a scanner is available. */
    method OnStartCommand(adapterAvailable: bool, scannerAvailable: bool)
      requires Valid()
      modifies this
      ensures Valid() && adapterPresent == adapterAvailable
      ensures scannerPresent == if adapterAvailable then scannerAvailable else old(scannerPresent)
      ensures logEvents == old(logEvents) + if adapterAvailable then [NewFile(BluetoothLog)] else []
      ensures commands == old(commands) + if scannerPresent then [StartScan] else []
      ensures gatt == old(gatt) && connectionState == old(connectionState)
    {
      var _ := Initialize(adapterAvailable, scannerAvailable);
      if scannerPresent {
        commands := commands + [StartScan];
      }
    }

    /** `onConnectionStateChange`: CONNECTED records the state, broadcasts
        it and asks the open connection to discover services; DISCONNECTED
        records and broadcasts; any other state is ignored. */
    method OnConnectionStateChange(newState: int)
      requires Valid()
      modifies this
      ensures Valid()
      ensures adapterPresent == old(adapterPresent) && scannerPresent == old(scannerPresent)
      ensures gatt == old(gatt) && logEvents == old(logEvents)
      ensures newState == STATE_CONNECTED ==>
        && connectionState == STATE_CONNECTED
        && commands == old(commands) + [Broadcast(ACTION_GATT_CONNECTED, None)]
                       + if gatt.Some? then [DiscoverServices] else []
      ensures newState == STATE_DISCONNECTED ==>
        connectionState == STATE_DISCONNECTED
        && commands == old(commands) + [Broadcast(ACTION_GATT_DISCONNECTED, None)]
      ensures newState != STATE_CONNECTED && newState != STATE_DISCONNECTED ==>
        connectionState == old(connectionState) && commands == old(commands)
    {
      if newState == STATE_CONNECTED {
        connectionState := STATE_CONNECTED;
        commands := commands + [Broadcast(ACTION_GATT_CONNECTED, None)];
        if gatt.Some? {
          commands := commands + [DiscoverServices];
        }
      } else if newState == STATE_DISCONNECTED {
        connectionState := STATE_DISCONNECTED;
        commands := commands + [Broadcast(ACTION_GATT_DISCONNECTED, None)];
      }
    }

    /** `enableNotification` / `disableNotification` of this copy: switch
        notification and write the configuration descriptor. */
    method ConfigureNotification(serviceUuid: string, characteristicUuid: string,
                                 services: seq<Service>, enable: bool) returns (outcome: Outcome)
      requires Valid()
      modifies this
      ensures Valid()
      ensures adapterPresent == old(adapterPresent) && scannerPresent == old(scannerPresent)
      ensures gatt == old(gatt) && connectionState == old(connectionState) && logEvents == old(logEvents)
      ensures var effect := NotificationEffect(gatt.Some?, services, serviceUuid, characteristicUuid, enable, true);
        outcome == effect.0 && commands == old(commands) + effect.1
    {
      if gatt.None? {
        return Completed;
      }
      var characteristic := Lookup(services, serviceUuid, characteristicUuid);
      if characteristic.None? {
        return Completed;
      }
      commands := commands + [SetNotification(serviceUuid, characteristicUuid, enable)];
      if CLIENT_CHARACTERISTIC_CONFIG !in characteristic.value.descriptors {
        return Crashed(DescriptorMissing);
      }
      commands := commands + [WriteDescriptor(serviceUuid, characteristicUuid,
                                              CLIENT_CHARACTERISTIC_CONFIG, ConfigValue(enable))];
      return Completed;
    }

    method EnableNotification(serviceUuid: string, characteristicUuid: string, services: seq<Service>)
      returns (outcome: Outcome)
      requires Valid()
      modifies this
      ensures Valid()
      ensures adapterPresent == old(adapterPresent) && scannerPresent == old(scannerPresent)
      ensures gatt == old(gatt) && connectionState == old(connectionState) && logEvents == old(logEvents)
      ensures var effect := NotificationEffect(gatt.Some?, services, serviceUuid, characteristicUuid, true, true);
        outcome == effect.0 && commands == old(commands) + effect.1
    {
      outcome := ConfigureNotification(serviceUuid, characteristicUuid, services, true);
    }

    method DisableNotification(serviceUuid: string, characteristicUuid: string, services: seq<Service>)
      returns (outcome: Outcome)
      requires Valid()
      modifies this
      ensures Valid()
      ensures adapterPresent == old(adapterPresent) && scannerPresent == old(scannerPresent)
      ensures gatt == old(gatt) && connectionState == old(connectionState) && logEvents == old(logEvents)
      ensures var effect := NotificationEffect(gatt.Some?, services, serviceUuid, characteristicUuid, false, true);
        outcome == effect.0 && commands == old(commands) + effect.1
    {
      outcome := ConfigureNotification(serviceUuid, characteristicUuid, services, false);
    }

    /** `onServicesDiscovered`: broadcast only on success, then, whatever
        the status, enable notification on the fixed telemetry
        characteristic of the fixed service. */
    method OnServicesDiscovered(status: int, services: seq<Service>) returns (outcome: Outcome)
      requires Valid()
      modifies this
      ensures Valid()
      ensures adapterPresent == old(adapterPresent) && scannerPresent == old(scannerPresent)
      ensures gatt == old(gatt) && connectionState == old(connectionState) && logEvents == old(logEvents)
      ensures var broadcast := if status == GATT_SUCCESS then [Broadcast(ACTION_GATT_SERVICES_DISCOVERED, None)] else [];
        var effect := NotificationEffect(gatt.Some?, services, OMNIRING_SERVICE_UUID,
                                         OMNIRING_DATA_CHARACTERISTIC_UUID, true, true);
        outcome == effect.0 && commands == old(commands) + broadcast + effect.1
    {
      if status == GATT_SUCCESS {
        commands := commands + [Broadcast(ACTION_GATT_SERVICES_DISCOVERED, None)];
      }
      outcome := EnableNotification(OMNIRING_SERVICE_UUID, OMNIRING_DATA_CHARACTERISTIC_UUID, services);
    }

    /** `onCharacteristicRead`: on success, broadcast the value, with its
        hex text when it is non-empty. */
    method OnCharacteristicRead(status: int, value: Option<seq<byte>>)
      requires Valid()
      modifies this
      ensures Valid()
      ensures adapterPresent == old(adapterPresent) && scannerPresent == old(scannerPresent)
      ensures gatt == old(gatt) && connectionState == old(connectionState) && logEvents == old(logEvents)
      ensures commands == old(commands) +
        if status == GATT_SUCCESS then [Broadcast(ACTION_DATA_AVAILABLE, BroadcastHex(value))] else []
    {
      if status == GATT_SUCCESS {
        commands := commands + [Broadcast(ACTION_DATA_AVAILABLE, BroadcastHex(value))];
      }
    }

    /** `onCharacteristicChanged`: decode the value (a missing one counts as
        empty) and write exactly one row: the receive time, a comma, then
        the values joined by commas. A malformed value throws and nothing is
        written. */
    method OnCharacteristicChanged(value: Option<seq<byte>>, millis: nat, fmt: word32 -> string)
      returns (outcome: Outcome)
      requires Valid()
      modifies this
      ensures Valid()
      ensures adapterPresent == old(adapterPresent) && scannerPresent == old(scannerPresent)
      ensures gatt == old(gatt) && connectionState == old(connectionState) && commands == old(commands)
      ensures match Decode(value.GetOr([]))
        case Success(words) =>
          outcome == Completed && logEvents == old(logEvents) + [Write(OmniRingLog, StampedRow(millis, words, fmt))]
        case Failure(e) =>
          outcome == Crashed(MalformedPayload(e.offset)) && logEvents == old(logEvents)
    {
      var decoded := DecodeByteData(value.GetOr([]));
      match decoded
      case Failure(e) =>
        return Crashed(MalformedPayload(e.offset));
      case Success(words) =>
        logEvents := logEvents + [Write(OmniRingLog, StampedRow(millis, words, fmt))];
        return Completed;
    }

    /** `connect`: open a connection to the address when the adapter is
        initialised and the address well formed; a previous handle is
        replaced without being closed. */
    method Connect(address: string) returns (connected: bool)
      requires Valid()
      modifies this
      ensures Valid()
      ensures connected == Connecting(adapterPresent, address).Some?
      ensures gatt == if connected then Connecting(adapterPresent, address) else old(gatt)
      ensures commands == old(commands) + if connected then [ConnectGatt(address)] else []
      ensures connectionState == old(connectionState) && logEvents == old(logEvents)
      ensures adapterPresent == old(adapterPresent) && scannerPresent == old(scannerPresent)
    {
      if !adapterPresent || !IsValidAddress(address) {
        return false;
      }
      gatt := Some(GattHandle(address));
      commands := commands + [ConnectGatt(address)];
      return true;
    }

    /** `scanCallback.onScanResult`: every advertisement gets one row in the
        advertisement log; only the exact ring name opens a new ring log
        file, and a connection follows unless the bond state reads as
        connected. */
    method OnScanResult(device: Device, rssi: int, millis: nat, hashMac: string -> string)
      requires Valid()
      modifies this
      ensures Valid()
      ensures adapterPresent == old(adapterPresent) && scannerPresent == old(scannerPresent)
      ensures connectionState == old(connectionState)
      ensures var row := Write(BluetoothLog, ScanRow(millis, hashMac(device.address), rssi));
        logEvents == old(logEvents) + [row] + if device.name == Some(RING_NAME) then [NewFile(OmniRingLog)] else []
      ensures device.name == Some(RING_NAME) && device.bondState != STATE_CONNECTED ==>
        var handle := Connecting(adapterPresent, device.address);
        && gatt == (if handle.Some? then handle else old(gatt))
        && commands == old(commands) + if handle.Some? then [ConnectGatt(device.address)] else []
      ensures device.name != Some(RING_NAME) || device.bondState == STATE_CONNECTED ==>
        gatt == old(gatt) && commands == old(commands)
    {
      logEvents := logEvents + [Write(BluetoothLog, ScanRow(millis, hashMac(device.address), rssi))];
      if device.name == Some(RING_NAME) {
        logEvents := logEvents + [NewFile(OmniRingLog)];
        if device.bondState != STATE_CONNECTED {
          var _ := Connect(device.address);
        }
      }
    }

    /** `close`: close and drop an open handle; nothing to do without one. */
    method Close()
      requires Valid()
      modifies this
      ensures Valid() && gatt.None?
      ensures adapterPresent == old(adapterPresent) && scannerPresent == old(scannerPresent)
      ensures commands == old(commands) + if old(gatt).Some? then [CloseGatt] else []
      ensures connectionState == old(connectionState) && logEvents == old(logEvents)
    {
      if gatt.Some? {
        commands := commands + [CloseGatt];
        gatt := None;
      }
    }
  }

  /** The sample ring address passes `checkBluetoothAddress`. */
  lemma SampleAddressValid(address: string)
    requires address == "AA:BB:CC:DD:EE:FF"
    ensures IsValidAddress(address)
  {
    forall i | 0 <= i < 17
      ensures if i % 3 == 2 then address[i] == ':' else address[i] in "0123456789ABCDEF"
    {
      assert i in {0, 1, 2, 3, 4, 5, 6, 7, 8, 9, 10, 11, 12, 13, 14, 15, 16};
    }
  }

  /** The session end to end: a matching advertisement, a connection, the
      discovery of the telemetry service and one 48-byte notification give
      exactly one ring row with twelve values. */
  method ScenarioOneFrame(payload: seq<byte>, fmt: word32 -> string, hashMac: string -> string)
    requires |payload| == 48
  {
    var session := new OmniringService();
    session.OnStartCommand(true, true);
    var address := "AA:BB:CC:DD:EE:FF";
    SampleAddressValid(address);
    var ring := Device(Some(RING_NAME), address, 10);
    session.OnScanResult(ring, -60, 1000, hashMac);
    assert session.gatt == Some(GattHandle(address));
    session.OnConnectionStateChange(STATE_CONNECTED);
    var data := Characteristic(OMNIRING_DATA_CHARACTERISTIC_UUID, [CLIENT_CHARACTERISTIC_CONFIG]);
    var services := [Service(OMNIRING_SERVICE_UUID, [data])];
    assert FindService(services, OMNIRING_SERVICE_UUID) == Some(services[0]);
    assert Lookup(services, OMNIRING_SERVICE_UUID, OMNIRING_DATA_CHARACTERISTIC_UUID) == Some(data);
    var subscribed := session.OnServicesDiscovered(GATT_SUCCESS, services);
    assert subscribed == Completed;
    var before := session.logEvents;
    var received := session.OnCharacteristicChanged(Some(payload), 2000, fmt);
    DecodeOutcome(payload);
    var words := Decode(payload).value;
    assert |words| == 12;
    assert received == Completed && session.logEvents == before + [Write(OmniRingLog, StampedRow(2000, words, fmt))];
  }
}

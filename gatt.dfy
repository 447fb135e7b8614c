/** What the three ring files share about the GATT link: the fixed protocol
    identifiers, the discovered service table, the commands sent to the
    platform and the events sent to the log files. */
module Gatt {
  import opened Wrappers
  import opened FrameDecoder

  /** `BluetoothProfile` connection states (also `BluetoothAdapter.STATE_CONNECTED`). */
  const STATE_DISCONNECTED: int := 0
  const STATE_CONNECTED: int := 2
  const GATT_SUCCESS: int := 0

  const OMNIRING_SERVICE_UUID := "6e400001-b5a3-f393-e0a9-e50e24dcca9e"
  const OMNIRING_DATA_CHARACTERISTIC_UUID := "6e400003-b5a3-f393-e0a9-e50e24dcca9e"
  /** Client Characteristic Configuration descriptor (Bluetooth Core
      Specification, Vol 3, Part G, section 3.3.3.3). */
  const CLIENT_CHARACTERISTIC_CONFIG := "00002902-0000-1000-8000-00805f9b34fb"
  /** Its two-octet little-endian values: bit 0 set enables notification. */
  const ENABLE_NOTIFICATION_VALUE: seq<byte> := [0x01, 0x00]
  const DISABLE_NOTIFICATION_VALUE: seq<byte> := [0x00, 0x00]

  /** Broadcast actions of OmniringService. */
  const ACTION_GATT_CONNECTED := "dev.rbabtista.kmm_phenotyping.external.ACTION_GATT_CONNECTED"
  const ACTION_GATT_DISCONNECTED := "dev.rbabtista.kmm_phenotyping.external.ACTION_GATT_DISCONNECTED"
  const ACTION_GATT_SERVICES_DISCOVERED := "dev.rbabtista.kmm_phenotyping.external.ACTION_GATT_SERVICES_DISCOVERED"
  const ACTION_DATA_AVAILABLE := "dev.rbabtista.kmm_phenotyping.external.ACTION_DATA_AVAILABLE"

  /** UUIDs are kept as their canonical lower-case text. */
  datatype Characteristic = Characteristic(uuid: string, descriptors: seq<string>)
  datatype Service = Service(uuid: string, characteristics: seq<Characteristic>)

  /** The open connection `connectGatt` returned, to the given address. */
  datatype GattHandle = GattHandle(address: string)

  /** What a scan result tells about the advertiser; `name` may be null. */
  datatype Device = Device(name: Option<string>, address: string, bondState: int)

  datatype GattCommand =
    | StartScan
    | ConnectGatt(address: string)
    | DiscoverServices
    | SetNotification(service: string, characteristic: string, enable: bool)
    | WriteDescriptor(service: string, characteristic: string, descriptor: string, value: seq<byte>)
    | ReadCharacteristic(service: string, characteristic: string)
    | CloseGatt
    | Broadcast(action: string, hex: Option<string>)

  datatype LogFile = BluetoothLog | OmniRingLog
  datatype LogEvent = NewFile(file: LogFile) | Write(file: LogFile, row: string)

  /** The exceptions a callback can throw and that the source does not catch. */
  datatype Fault =
    | MalformedPayload(offset: nat)   // copyOfRange past the end of the value
    | DescriptorMissing              // getDescriptor returned null
    | NullDeviceName                 // startsWith on a null name

  datatype Outcome = Completed | Crashed(fault: Fault)

  /** `BluetoothAdapter.checkBluetoothAddress`: six upper-case hex octets
      separated by colons; `getRemoteDevice` throws on anything else. */
  predicate IsValidAddress(address: string)
  {
    && |address| == 17
    && forall i :: 0 <= i < 17 ==>
         if i % 3 == 2 then address[i] == ':' else address[i] in "0123456789ABCDEF"
  }

  /** `services[i]` is the first service with the UUID. */
  ghost predicate FirstAt(services: seq<Service>, uuid: string, i: int, service: Service)
  {
    && 0 <= i < |services| && services[i] == service && service.uuid == uuid
    && forall j :: 0 <= j < i ==> services[j].uuid != uuid
  }

  /** `BluetoothGatt.getService`: the first service with the UUID. */
  function FindService(services: seq<Service>, uuid: string): (found: Option<Service>)
    ensures found.None? <==> forall i :: 0 <= i < |services| ==> services[i].uuid != uuid
    ensures found.Some? ==> found.value.uuid == uuid && exists i :: FirstAt(services, uuid, i, found.value)
  {
    if services == [] then None
    else if services[0].uuid == uuid then
      assert FirstAt(services, uuid, 0, services[0]);
      Some(services[0])
    else
      var found := FindService(services[1..], uuid);
      if found.Some? then
        ghost var i :| FirstAt(services[1..], uuid, i, found.value);
        assert FirstAt(services, uuid, i + 1, found.value);
        found
      else found
  }

  /** `BluetoothGattService.getCharacteristic`: the first with the UUID. */
  function FindCharacteristic(service: Service, uuid: string): (found: Option<Characteristic>)
    ensures found.None? <==> forall i :: 0 <= i < |service.characteristics| ==>
      service.characteristics[i].uuid != uuid
    ensures found.Some? ==> (found.value.uuid == uuid &&
      exists i :: FirstCharacteristicAt(service.characteristics, uuid, i, found.value))
  {
    FirstWithUuid(service.characteristics, uuid)
  }

  /** `chars[i]` is the first characteristic with the UUID. */
  ghost predicate FirstCharacteristicAt(chars: seq<Characteristic>, uuid: string, i: int, c: Characteristic)
  {
    && 0 <= i < |chars| && chars[i] == c && c.uuid == uuid
    && forall j :: 0 <= j < i ==> chars[j].uuid != uuid
  }

  /** The first characteristic of `chars` with the UUID. */
  function FirstWithUuid(chars: seq<Characteristic>, uuid: string): (found: Option<Characteristic>)
    ensures found.None? <==> forall i :: 0 <= i < |chars| ==> chars[i].uuid != uuid
    ensures found.Some? ==> (found.value.uuid == uuid &&
      exists i :: FirstCharacteristicAt(chars, uuid, i, found.value))
  {
    if chars == [] then None
    else if chars[0].uuid == uuid then
      assert FirstCharacteristicAt(chars, uuid, 0, chars[0]);
      Some(chars[0])
    else
      var found := FirstWithUuid(chars[1..], uuid);
      if found.Some? then
        ghost var i :| FirstCharacteristicAt(chars[1..], uuid, i, found.value);
        assert FirstCharacteristicAt(chars, uuid, i + 1, found.value);
        found
      else found
  }

  /** `gatt.getService(s)?.getCharacteristic(c)`. */
  function Lookup(services: seq<Service>, serviceUuid: string, characteristicUuid: string): (found: Option<Characteristic>)
    ensures found.Some? <==>
      && FindService(services, serviceUuid).Some?
      && exists j :: 0 <= j < |FindService(services, serviceUuid).value.characteristics| &&
           FindService(services, serviceUuid).value.characteristics[j].uuid == characteristicUuid
    ensures found.Some? ==> (found.value.uuid == characteristicUuid &&
      exists i :: FirstCharacteristicAt(FindService(services, serviceUuid).value.characteristics,
                                        characteristicUuid, i, found.value))
  {
    match FindService(services, serviceUuid)
    case None => None
    case Some(service) => FindCharacteristic(service, characteristicUuid)
  }

  /** `gatt.services.forEach { it.characteristics.forEach(visit) }`: every
      characteristic of every service, services in order and characteristics
      in order within each, as (service, characteristic) UUID pairs. */
  function AllCharacteristics(services: seq<Service>): (pairs: seq<(string, string)>)
    ensures |pairs| == CharacteristicCount(services)
  {
    if services == [] then []
    else AllCharacteristics(services[..|services| - 1]) + Pairs(services[|services| - 1])
  }

  function Pairs(service: Service): (pairs: seq<(string, string)>)
    ensures |pairs| == |service.characteristics|
    ensures forall j :: 0 <= j < |pairs| ==>
      pairs[j] == (service.uuid, service.characteristics[j].uuid)
  {
    seq(|service.characteristics|, j requires 0 <= j < |service.characteristics| =>
      (service.uuid, service.characteristics[j].uuid))
  }

  /** The number of characteristics over all services. */
  function CharacteristicCount(services: seq<Service>): nat
  {
    if services == [] then 0
    else CharacteristicCount(services[..|services| - 1]) + |services[|services| - 1].characteristics|
  }

  /** Some characteristic of some service has the pair's UUIDs. */
  ghost predicate HasPair(services: seq<Service>, p: (string, string))
  {
    exists i, j :: 0 <= i < |services| && 0 <= j < |services[i].characteristics| && p == (services[i].uuid, services[i].characteristics[j].uuid)
  }

  /** The walk visits every characteristic exactly once: it yields one pair
      per characteristic, each belonging to its service. */
  lemma {:induction false} AllCharacteristicsComplete(services: seq<Service>)
    ensures |AllCharacteristics(services)| == CharacteristicCount(services)
    ensures forall p :: p in AllCharacteristics(services) ==> HasPair(services, p)
    ensures forall i, j :: 0 <= i < |services| && 0 <= j < |services[i].characteristics| ==>
      (services[i].uuid, services[i].characteristics[j].uuid) in AllCharacteristics(services)
  {
    if services != [] {
      var init := services[..|services| - 1];
      var last := services[|services| - 1];
      AllCharacteristicsComplete(init);
      forall p | p in AllCharacteristics(services)
        ensures HasPair(services, p)
      {
        if p in AllCharacteristics(init) {
          var i, j :| 0 <= i < |init| && 0 <= j < |init[i].characteristics|
            && p == (init[i].uuid, init[i].characteristics[j].uuid);
          assert services[i] == init[i];
        } else {
          var j :| 0 <= j < |Pairs(last)| && Pairs(last)[j] == p;
          assert p == (services[|services| - 1].uuid, services[|services| - 1].characteristics[j].uuid);
        }
      }
      forall i, j | 0 <= i < |services| && 0 <= j < |services[i].characteristics|
        ensures (services[i].uuid, services[i].characteristics[j].uuid) in AllCharacteristics(services)
      {
        if i < |init| {
          assert services[i] == init[i];
        } else {
          assert Pairs(last)[j] == (services[i].uuid, services[i].characteristics[j].uuid);
        }
      }
    }
  }

  /** No two services share a UUID. */
  predicate DistinctServiceUuids(services: seq<Service>)
  {
    forall i, j :: 0 <= i < j < |services| ==> services[i].uuid != services[j].uuid
  }

  /** When service UUIDs are distinct, looking a characteristic up by its
      service's UUID and its own UUID always finds one. */
  lemma LookupFindsEveryCharacteristic(services: seq<Service>, i: int, j: int)
    requires DistinctServiceUuids(services)
    requires 0 <= i < |services| && 0 <= j < |services[i].characteristics|
    ensures Lookup(services, services[i].uuid, services[i].characteristics[j].uuid).Some?
  {
    var found := FindService(services, services[i].uuid);
    var k :| FirstAt(services, services[i].uuid, k, found.value);
    assert k == i;
  }

  lemma AllCharacteristicsStep(services: seq<Service>, i: nat)
    requires i < |services|
    ensures AllCharacteristics(services[..i + 1]) == AllCharacteristics(services[..i]) + Pairs(services[i])
  {
    assert services[..i + 1][..i] == services[..i];
  }

  /** `connect(address)`: the handle `connectGatt` returns, or nothing when
      the adapter is not initialised or `getRemoteDevice` rejects the
      address (the exception is caught and `false` returned). */
  function Connecting(adapterPresent: bool, address: string): (handle: Option<GattHandle>)
    ensures handle.Some? <==> adapterPresent && IsValidAddress(address)
    ensures handle.Some? ==> handle.value.address == address
  {
    if adapterPresent && IsValidAddress(address) then Some(GattHandle(address)) else None
  }

  /** The value written to the configuration descriptor. */
  function ConfigValue(enable: bool): seq<byte>
  {
    if enable then ENABLE_NOTIFICATION_VALUE else DISABLE_NOTIFICATION_VALUE
  }

  /** What `enableNotification` / `disableNotification` send on an open (or
      null) connection: nothing when the service or characteristic is
      missing; otherwise the notification switch and, in the copies that
      keep it, the matching value written to the configuration descriptor,
      which throws when the characteristic has no such descriptor. */
  function NotificationEffect(open: bool, services: seq<Service>, serviceUuid: string,
                              characteristicUuid: string, enable: bool, writeDescriptor: bool)
    : (effect: (Outcome, seq<GattCommand>))
    ensures !open || Lookup(services, serviceUuid, characteristicUuid).None? ==> effect == (Completed, [])
    ensures open && Lookup(services, serviceUuid, characteristicUuid).Some? ==>
      |effect.1| >= 1 && effect.1[0] == SetNotification(serviceUuid, characteristicUuid, enable)
    ensures open && Lookup(services, serviceUuid, characteristicUuid).Some? && !writeDescriptor ==>
      effect == (Completed, [SetNotification(serviceUuid, characteristicUuid, enable)])
    ensures open && Lookup(services, serviceUuid, characteristicUuid).Some? && writeDescriptor ==>
      ((CLIENT_CHARACTERISTIC_CONFIG in Lookup(services, serviceUuid, characteristicUuid).value.descriptors) <==>
       (effect.0 == Completed && |effect.1| == 2))
    ensures open && Lookup(services, serviceUuid, characteristicUuid).Some? && writeDescriptor &&
            CLIENT_CHARACTERISTIC_CONFIG in Lookup(services, serviceUuid, characteristicUuid).value.descriptors ==>
      effect == (Completed, [SetNotification(serviceUuid, characteristicUuid, enable),
                             WriteDescriptor(serviceUuid, characteristicUuid, CLIENT_CHARACTERISTIC_CONFIG, ConfigValue(enable))])
    ensures open && Lookup(services, serviceUuid, characteristicUuid).Some? && writeDescriptor &&
            CLIENT_CHARACTERISTIC_CONFIG !in Lookup(services, serviceUuid, characteristicUuid).value.descriptors ==>
      effect == (Crashed(DescriptorMissing), [SetNotification(serviceUuid, characteristicUuid, enable)])
    ensures effect.1 != [] ==> effect.1[0] == SetNotification(serviceUuid, characteristicUuid, enable)
    ensures effect.0.Crashed? ==> effect.0 == Crashed(DescriptorMissing) && |effect.1| == 1 && writeDescriptor
    ensures forall k :: 0 <= k < |effect.1| && effect.1[k].WriteDescriptor? ==>
      && writeDescriptor
      && effect.1[k] == WriteDescriptor(serviceUuid, characteristicUuid, CLIENT_CHARACTERISTIC_CONFIG, ConfigValue(enable))
      && CLIENT_CHARACTERISTIC_CONFIG in Lookup(services, serviceUuid, characteristicUuid).value.descriptors
  {
    if !open then (Completed, [])
    else match Lookup(services, serviceUuid, characteristicUuid)
      case None => (Completed, [])
      case Some(characteristic) =>
        var notify := SetNotification(serviceUuid, characteristicUuid, enable);
        if !writeDescriptor then (Completed, [notify])
        else if CLIENT_CHARACTERISTIC_CONFIG !in characteristic.descriptors then
          (Crashed(DescriptorMissing), [notify])
        else
          (Completed, [notify, WriteDescriptor(serviceUuid, characteristicUuid,
                                               CLIENT_CHARACTERISTIC_CONFIG, ConfigValue(enable))])
  }

  /** Kotlin's case-sensitive `startsWith`. */
  predicate StartsWith(s: string, prefix: string)
  {
    |prefix| <= |s| && s[..|prefix|] == prefix
  }
}

/** OmniringListener.kt: the ring session as a started service. It scans
    for any device whose name starts with "PPG_Ring", connects, and when
    `collecting` is set looks for the telemetry characteristic in every
    discovered service, enabling notification on it without writing the
    configuration descriptor. */
module RingListener {
  import opened Wrappers
  import opened FrameDecoder
  import opened LogRows
  import opened Gatt

  /** The case-sensitive name prefix this copy reacts to. */
  const RING_NAME_PREFIX := "PPG_Ring"

  /** The service UUID `subscribeToNotifications` records after visiting
      `visited` in order, starting from `current`: the service of the last
      visited telemetry characteristic. */
  function LastDataService(visited: seq<(string, string)>, current: string): (uuid: string)
    ensures (forall k :: 0 <= k < |visited| ==> visited[k].1 != OMNIRING_DATA_CHARACTERISTIC_UUID) ==>
      uuid == current
    ensures uuid == current || exists k :: (0 <= k < |visited| &&
      visited[k].1 == OMNIRING_DATA_CHARACTERISTIC_UUID && uuid == visited[k].0)
  {
    if visited == [] then current
    else if visited[|visited| - 1].1 == OMNIRING_DATA_CHARACTERISTIC_UUID then visited[|visited| - 1].0
    else LastDataService(visited[..|visited| - 1], current)
  }

  /** The notification requests sent while visiting `visited`: one lookup
      per telemetry characteristic, by the UUID of the service it was found
      in. */
  function SubscribeCommands(services: seq<Service>, visited: seq<(string, string)>): (cs: seq<GattCommand>)
    ensures |cs| <= |visited|
  {
    if visited == [] then []
    else
      var p := visited[|visited| - 1];
      SubscribeCommands(services, visited[..|visited| - 1]) +
        if p.1 == OMNIRING_DATA_CHARACTERISTIC_UUID
        then NotificationEffect(true, services, p.0, OMNIRING_DATA_CHARACTERISTIC_UUID, true, false).1
        else []
  }

  /** The service holds the telemetry characteristic. */
  predicate HasDataCharacteristic(service: Service)
  {
    exists j :: 0 <= j < |service.characteristics| &&
      service.characteristics[j].uuid == OMNIRING_DATA_CHARACTERISTIC_UUID
  }

  /** Service `i` is the last one holding the telemetry characteristic. */
  ghost predicate LastWithData(services: seq<Service>, i: int)
  {
    && 0 <= i < |services| && HasDataCharacteristic(services[i])
    && forall k :: i < k < |services| ==> !HasDataCharacteristic(services[k])
  }

  lemma LastDataServiceStep(visited: seq<(string, string)>, p: (string, string), current: string)
    ensures LastDataService(visited + [p], current) ==
      if p.1 == OMNIRING_DATA_CHARACTERISTIC_UUID then p.0 else LastDataService(visited, current)
  {
    assert (visited + [p])[..|visited|] == visited;
  }

  /** Visiting `a` then `b` records what visiting `b` records when it
      starts from what `a` left. */
  lemma {:induction false} LastDataServiceAppend(a: seq<(string, string)>, b: seq<(string, string)>, current: string)
    ensures LastDataService(a + b, current) == LastDataService(b, LastDataService(a, current))
    decreases |b|
  {
    if b == [] {
      assert a + b == a;
    } else {
      var init, p := b[..|b| - 1], b[|b| - 1];
      assert a + b == (a + init) + [p];
      assert b == init + [p];
      LastDataServiceStep(a + init, p, current);
      LastDataServiceStep(init, p, LastDataService(a, current));
      LastDataServiceAppend(a, init, current);
    }
  }

  /** Within one service the visit records that service exactly when it
      holds the telemetry characteristic. */
  lemma {:induction false} LastDataServiceInService(service: Service, n: nat, current: string)
    requires n <= |service.characteristics|
    ensures LastDataService(Pairs(service)[..n], current) ==
      if exists j :: 0 <= j < n && service.characteristics[j].uuid == OMNIRING_DATA_CHARACTERISTIC_UUID
      then service.uuid else current
  {
    if n > 0 {
      assert Pairs(service)[..n] == Pairs(service)[..n - 1] + [Pairs(service)[n - 1]];
      LastDataServiceStep(Pairs(service)[..n - 1], Pairs(service)[n - 1], current);
      LastDataServiceInService(service, n - 1, current);
    }
  }

  /** Visiting the whole of `service` records its UUID exactly when it
      holds the telemetry characteristic. */
  lemma VisitService(service: Service, current: string)
    ensures LastDataService(Pairs(service), current) ==
      if HasDataCharacteristic(service) then service.uuid else current
  {
    assert Pairs(service)[..|service.characteristics|] == Pairs(service);
    LastDataServiceInService(service, |service.characteristics|, current);
  }

  /** Without a telemetry characteristic in any service,
      `subscribeToNotifications` leaves the recorded service UUID as it
      was. */
  lemma {:induction false} NoDataServiceKept(services: seq<Service>, current: string)
    requires forall i :: 0 <= i < |services| ==> !HasDataCharacteristic(services[i])
    ensures LastDataService(AllCharacteristics(services), current) == current
  {
    if services != [] {
      var last := |services| - 1;
      var init := services[..last];
      assert forall i :: 0 <= i < |init| ==> init[i] == services[i];
      NoDataServiceKept(init, current);
      LastDataServiceAppend(AllCharacteristics(init), Pairs(services[last]), current);
      VisitService(services[last], current);
    }
  }

  /** `subscribeToNotifications` searches every service, not only the
      first: the recorded service UUID is that of the last service holding
      the telemetry characteristic (the last match wins). */
  lemma {:induction false} SubscribedService(services: seq<Service>, current: string, i: int)
    requires LastWithData(services, i)
    ensures LastDataService(AllCharacteristics(services), current) == services[i].uuid
  {
    var last := |services| - 1;
    var init := services[..last];
    LastDataServiceAppend(AllCharacteristics(init), Pairs(services[last]), current);
    VisitService(services[last], LastDataService(AllCharacteristics(init), current));
    if i < last {
      assert forall k :: 0 <= k < |init| ==> init[k] == services[k];
      assert LastWithData(init, i);
      SubscribedService(init, current, i);
    }
  }

  lemma SubscribeCommandsStep(services: seq<Service>, visited: seq<(string, string)>, p: (string, string))
    ensures SubscribeCommands(services, visited + [p]) == SubscribeCommands(services, visited) +
      if p.1 == OMNIRING_DATA_CHARACTERISTIC_UUID
      then NotificationEffect(true, services, p.0, OMNIRING_DATA_CHARACTERISTIC_UUID, true, false).1
      else []
  {
    assert (visited + [p])[..|visited|] == visited;
  }

  lemma {:induction false} SubscribeCommandsAppend(services: seq<Service>, a: seq<(string, string)>, b: seq<(string, string)>)
    ensures SubscribeCommands(services, a + b) == SubscribeCommands(services, a) + SubscribeCommands(services, b)
    decreases |b|
  {
    if b == [] {
      assert a + b == a;
    } else {
      var init, p := b[..|b| - 1], b[|b| - 1];
      assert a + b == (a + init) + [p];
      assert b == init + [p];
      SubscribeCommandsStep(services, a + init, p);
      SubscribeCommandsStep(services, init, p);
      SubscribeCommandsAppend(services, a, init);
    }
  }

  /** This copy's subscription only ever switches notification on for the
      telemetry characteristic: at most one request per visited pair, no
      descriptor write, and none at all when no telemetry characteristic is
      visited. */
  lemma {:induction false} SubscribeCommandsEnableOnly(services: seq<Service>, visited: seq<(string, string)>)
    ensures var cs := SubscribeCommands(services, visited);
      && |cs| <= |visited|
      && (forall k :: 0 <= k < |cs| ==>
            cs[k].SetNotification? && cs[k].characteristic == OMNIRING_DATA_CHARACTERISTIC_UUID && cs[k].enable)
      && ((forall k :: 0 <= k < |visited| ==> visited[k].1 != OMNIRING_DATA_CHARACTERISTIC_UUID) ==> cs == [])
  {
    if visited != [] {
      var init := visited[..|visited| - 1];
      SubscribeCommandsEnableOnly(services, init);
      forall k | 0 <= k < |init|
        ensures init[k] == visited[k]
      {
      }
    }
  }

  /** One request switching notification on per visited telemetry pair,
      addressed to the pair's service. */
  function EnableRequests(visited: seq<(string, string)>): (cs: seq<GattCommand>)
    ensures |cs| <= |visited|
    ensures forall k :: 0 <= k < |cs| ==>
      cs[k].SetNotification? && cs[k].characteristic == OMNIRING_DATA_CHARACTERISTIC_UUID && cs[k].enable
  {
    if visited == [] then []
    else
      var p := visited[|visited| - 1];
      EnableRequests(visited[..|visited| - 1]) +
        if p.1 == OMNIRING_DATA_CHARACTERISTIC_UUID
        then [SetNotification(p.0, OMNIRING_DATA_CHARACTERISTIC_UUID, true)]
        else []
  }

  /** A visited telemetry pair whose characteristic the lookup finds adds
      exactly one request: notification on, for that service. */
  lemma SubscribeCommandsFound(services: seq<Service>, visited: seq<(string, string)>, p: (string, string))
    requires p.1 == OMNIRING_DATA_CHARACTERISTIC_UUID
    requires Lookup(services, p.0, OMNIRING_DATA_CHARACTERISTIC_UUID).Some?
    ensures SubscribeCommands(services, visited + [p]) ==
      SubscribeCommands(services, visited) + [SetNotification(p.0, OMNIRING_DATA_CHARACTERISTIC_UUID, true)]
  {
    SubscribeCommandsStep(services, visited, p);
  }

  /** When every visited telemetry pair is found by the lookup, the
      subscription sends exactly one request per telemetry pair. */
  lemma {:induction false} SubscribeCommandsResolved(services: seq<Service>, visited: seq<(string, string)>)
    requires forall k :: 0 <= k < |visited| && visited[k].1 == OMNIRING_DATA_CHARACTERISTIC_UUID ==>
      Lookup(services, visited[k].0, OMNIRING_DATA_CHARACTERISTIC_UUID).Some?
    ensures SubscribeCommands(services, visited) == EnableRequests(visited)
  {
    if visited != [] {
      var init, p := visited[..|visited| - 1], visited[|visited| - 1];
      assert visited == init + [p];
      assert forall k :: 0 <= k < |init| ==> init[k] == visited[k];
      SubscribeCommandsResolved(services, init);
      if p.1 == OMNIRING_DATA_CHARACTERISTIC_UUID {
        SubscribeCommandsFound(services, init, p);
      } else {
        SubscribeCommandsStep(services, init, p);
      }
    }
  }

  /** With distinct service UUIDs, `subscribeToNotifications` sends one
      request per telemetry characteristic, each addressed to the service
      that holds it. */
  lemma OneRequestPerDataCharacteristic(services: seq<Service>)
    requires DistinctServiceUuids(services)
    ensures SubscribeCommands(services, AllCharacteristics(services)) == EnableRequests(AllCharacteristics(services))
  {
    var visited := AllCharacteristics(services);
    AllCharacteristicsComplete(services);
    forall k | 0 <= k < |visited| && visited[k].1 == OMNIRING_DATA_CHARACTERISTIC_UUID
      ensures Lookup(services, visited[k].0, OMNIRING_DATA_CHARACTERISTIC_UUID).Some?
    {
      assert HasPair(services, visited[k]);
      var i, j :| 0 <= i < |services| && 0 <= j < |services[i].characteristics| &&
        visited[k] == (services[i].uuid, services[i].characteristics[j].uuid);
      LookupFindsEveryCharacteristic(services, i, j);
    }
    SubscribeCommandsResolved(services, visited);
  }

  /** Visiting the first `i + 1` services is visiting the first `i` and
      then service `i`. */
  lemma VisitNextService(services: seq<Service>, i: nat, current: string)
    requires i < |services|
    ensures LastDataService(AllCharacteristics(services[..i + 1]), current) ==
      LastDataService(Pairs(services[i]), LastDataService(AllCharacteristics(services[..i]), current))
    ensures SubscribeCommands(services, AllCharacteristics(services[..i + 1])) ==
      SubscribeCommands(services, AllCharacteristics(services[..i])) + SubscribeCommands(services, Pairs(services[i]))
  {
    AllCharacteristicsStep(services, i);
    LastDataServiceAppend(AllCharacteristics(services[..i]), Pairs(services[i]), current);
    SubscribeCommandsAppend(services, AllCharacteristics(services[..i]), Pairs(services[i]));
  }

  /** The loop state of `subscribeToNotifications` after service `i`: the
      record and the requests cover the first `i + 1` services. */
  lemma NextServiceState(services: seq<Service>, i: nat, current: string, sent: seq<GattCommand>,
                         record: string, commands: seq<GattCommand>)
    requires i < |services|
    requires record == LastDataService(Pairs(services[i]), LastDataService(AllCharacteristics(services[..i]), current))
    requires commands == sent + SubscribeCommands(services, AllCharacteristics(services[..i])) +
      SubscribeCommands(services, Pairs(services[i]))
    ensures record == LastDataService(AllCharacteristics(services[..i + 1]), current)
    ensures commands == sent + SubscribeCommands(services, AllCharacteristics(services[..i + 1]))
  {
    VisitNextService(services, i, current);
  }

  class OmniringListener {
    var adapterPresent: bool
    var scannerPresent: bool
    var gatt: Option<GattHandle>
    var connectionState: int
    /** `OMNIRING_DATA_SERVICE_UUID`: the service the telemetry
        characteristic was last found in. */
    var dataServiceUuid: string
    var collecting: bool
    var commands: seq<GattCommand>
    var logEvents: seq<LogEvent>

    ghost predicate Valid()
      reads this
    {
      connectionState == STATE_DISCONNECTED || connectionState == STATE_CONNECTED
    }

    constructor ()
      ensures Valid() && connectionState == STATE_DISCONNECTED
      ensures !adapterPresent && !scannerPresent && gatt.None?
      ensures dataServiceUuid == "" && !collecting
      ensures commands == [] && logEvents == []
    {
      adapterPresent, scannerPresent := false, false;
      gatt := None;
      connectionState := STATE_DISCONNECTED;
      dataServiceUuid := "";
      collecting := false;
      commands, logEvents := [], [];
    }

    /** `initialize`: take the adapter and, when there is one, its scanner. */
    method Initialize(adapterAvailable: bool, scannerAvailable: bool) returns (ok: bool)
      requires Valid()
      modifies this
      ensures Valid() && ok == adapterAvailable && adapterPresent == adapterAvailable
      ensures scannerPresent == if ok then scannerAvailable else old(scannerPresent)
      ensures gatt == old(gatt) && connectionState == old(connectionState)
      ensures dataServiceUuid == old(dataServiceUuid) && collecting == old(collecting)
      ensures commands == old(commands) && logEvents == old(logEvents)
    {
      adapterPresent := adapterAvailable;
      if !adapterPresent {
        return false;
      }
      scannerPresent := scannerAvailable;
      return true;
    }

    /** `onStartCommand`: initialise, then scan only if the Bluetooth
        permission check passes and a scanner is available. */
    method OnStartCommand(adapterAvailable: bool, scannerAvailable: bool, permitted: bool)
      requires Valid()
      modifies this
      ensures Valid() && adapterPresent == adapterAvailable
      ensures scannerPresent == if adapterAvailable then scannerAvailable else old(scannerPresent)
      ensures commands == old(commands) + if permitted && scannerPresent then [StartScan] else []
      ensures gatt == old(gatt) && connectionState == old(connectionState) && logEvents == old(logEvents)
      ensures dataServiceUuid == old(dataServiceUuid) && collecting == old(collecting)
    {
      var _ := Initialize(adapterAvailable, scannerAvailable);
      if permitted && scannerPresent {
        commands := commands + [StartScan];
      }
    }

    /** `enableNotification` of this copy: switch notification on, with the
        descriptor write commented out; nothing when the characteristic is
        missing. */
    method EnableNotification(serviceUuid: string, characteristicUuid: string, services: seq<Service>)
      requires Valid()
      modifies this
      ensures Valid()
      ensures commands == old(commands) +
        NotificationEffect(gatt.Some?, services, serviceUuid, characteristicUuid, true, false).1
      ensures gatt == old(gatt) && connectionState == old(connectionState) && logEvents == old(logEvents)
      ensures dataServiceUuid == old(dataServiceUuid) && collecting == old(collecting)
      ensures adapterPresent == old(adapterPresent) && scannerPresent == old(scannerPresent)
    {
      if gatt.None? {
        return;
      }
      var characteristic := Lookup(services, serviceUuid, characteristicUuid);
      if characteristic.Some? {
        commands := commands + [SetNotification(serviceUuid, characteristicUuid, true)];
      }
    }

    /** `disableNotification` of this copy still writes the descriptor. */
    method DisableNotification(serviceUuid: string, characteristicUuid: string, services: seq<Service>)
      returns (outcome: Outcome)
      requires Valid()
      modifies this
      ensures Valid()
      ensures var effect := NotificationEffect(gatt.Some?, services, serviceUuid, characteristicUuid, false, true);
        outcome == effect.0 && commands == old(commands) + effect.1
      ensures gatt == old(gatt) && connectionState == old(connectionState) && logEvents == old(logEvents)
      ensures dataServiceUuid == old(dataServiceUuid) && collecting == old(collecting)
      ensures adapterPresent == old(adapterPresent) && scannerPresent == old(scannerPresent)
    {
      if gatt.None? {
        return Completed;
      }
      var characteristic := Lookup(services, serviceUuid, characteristicUuid);
      if characteristic.None? {
        return Completed;
      }
      commands := commands + [SetNotification(serviceUuid, characteristicUuid, false)];
      if CLIENT_CHARACTERISTIC_CONFIG !in characteristic.value.descriptors {
        return Crashed(DescriptorMissing);
      }
      commands := commands + [WriteDescriptor(serviceUuid, characteristicUuid,
                                              CLIENT_CHARACTERISTIC_CONFIG, DISABLE_NOTIFICATION_VALUE)];
      return Completed;
    }

    /** `subscribeToNotifications`: visit every characteristic of every
        service of the open connection; at each telemetry characteristic
        record its service's UUID and enable notification through it. */
    method SubscribeToNotifications(services: seq<Service>)
      requires Valid()
      modifies this
      ensures Valid()
      ensures gatt.None? ==> commands == old(commands) && dataServiceUuid == old(dataServiceUuid)
      ensures gatt.Some? ==>
        && dataServiceUuid == LastDataService(AllCharacteristics(services), old(dataServiceUuid))
        && commands == old(commands) + SubscribeCommands(services, AllCharacteristics(services))
      ensures gatt == old(gatt) && connectionState == old(connectionState) && logEvents == old(logEvents)
      ensures collecting == old(collecting)
      ensures adapterPresent == old(adapterPresent) && scannerPresent == old(scannerPresent)
    {
      if gatt.None? {
        return;
      }
      var i := 0;
      while i < |services|
        invariant 0 <= i <= |services|
        invariant gatt == old(gatt) && connectionState == old(connectionState) && logEvents == old(logEvents)
        invariant collecting == old(collecting)
        invariant adapterPresent == old(adapterPresent) && scannerPresent == old(scannerPresent)
        invariant dataServiceUuid == LastDataService(AllCharacteristics(services[..i]), old(dataServiceUuid))
        invariant commands == old(commands) + SubscribeCommands(services, AllCharacteristics(services[..i]))
      {
        SubscribeService(services, services[i]);
        NextServiceState(services, i, old(dataServiceUuid), old(commands), dataServiceUuid, commands);
        i := i + 1;
      }
      assert services[..i] == services;
    }

    /** The inner loop of `subscribeToNotifications`, over the
        characteristics of one service. */
    method SubscribeService(services: seq<Service>, service: Service)
      requires Valid() && gatt.Some?
      modifies this
      ensures Valid()
      ensures dataServiceUuid == LastDataService(Pairs(service), old(dataServiceUuid))
      ensures commands == old(commands) + SubscribeCommands(services, Pairs(service))
      ensures gatt == old(gatt) && connectionState == old(connectionState) && logEvents == old(logEvents)
      ensures collecting == old(collecting)
      ensures adapterPresent == old(adapterPresent) && scannerPresent == old(scannerPresent)
    {
      var j := 0;
      while j < |service.characteristics|
        invariant 0 <= j <= |service.characteristics|
        invariant gatt == old(gatt) && connectionState == old(connectionState) && logEvents == old(logEvents)
        invariant collecting == old(collecting)
        invariant adapterPresent == old(adapterPresent) && scannerPresent == old(scannerPresent)
        invariant dataServiceUuid == LastDataService(Pairs(service)[..j], old(dataServiceUuid))
        invariant commands == old(commands) + SubscribeCommands(services, Pairs(service)[..j])
      {
        assert Pairs(service)[..j + 1] == Pairs(service)[..j] + [Pairs(service)[j]];
        LastDataServiceStep(Pairs(service)[..j], Pairs(service)[j], old(dataServiceUuid));
        SubscribeCommandsStep(services, Pairs(service)[..j], Pairs(service)[j]);
        VisitCharacteristic(services, service, j);
        j := j + 1;
      }
      assert Pairs(service)[..j] == Pairs(service);
    }

    /** The body of the inner loop of `subscribeToNotifications`, at the
        `j`-th characteristic of `service`. */
    method VisitCharacteristic(services: seq<Service>, service: Service, j: nat)
      requires Valid() && gatt.Some? && j < |service.characteristics|
      modifies this
      ensures Valid()
      ensures var found := service.characteristics[j].uuid == OMNIRING_DATA_CHARACTERISTIC_UUID;
        && dataServiceUuid == (if found then service.uuid else old(dataServiceUuid))
        && commands == old(commands) +
             if found
             then NotificationEffect(true, services, service.uuid, OMNIRING_DATA_CHARACTERISTIC_UUID, true, false).1
             else []
      ensures gatt == old(gatt) && connectionState == old(connectionState) && logEvents == old(logEvents)
      ensures collecting == old(collecting)
      ensures adapterPresent == old(adapterPresent) && scannerPresent == old(scannerPresent)
    {
      var characteristic := service.characteristics[j];
      if characteristic.uuid == OMNIRING_DATA_CHARACTERISTIC_UUID {
        dataServiceUuid := service.uuid;
        EnableNotification(dataServiceUuid, OMNIRING_DATA_CHARACTERISTIC_UUID, services);
      }
    }

    /** `onServicesDiscovered`: subscribe exactly when collecting, whatever
        the status. */
    method OnServicesDiscovered(status: int, services: seq<Service>)
      requires Valid()
      modifies this
      ensures Valid()
      ensures !collecting || gatt.None? ==> commands == old(commands) && dataServiceUuid == old(dataServiceUuid)
      ensures collecting && gatt.Some? ==>
        && dataServiceUuid == LastDataService(AllCharacteristics(services), old(dataServiceUuid))
        && commands == old(commands) + SubscribeCommands(services, AllCharacteristics(services))
      ensures gatt == old(gatt) && connectionState == old(connectionState) && logEvents == old(logEvents)
      ensures collecting == old(collecting)
      ensures adapterPresent == old(adapterPresent) && scannerPresent == old(scannerPresent)
    {
      if collecting {
        SubscribeToNotifications(services);
      }
    }

    /** `onConnectionStateChange`: CONNECTED records the state and asks the
        open connection to discover services; DISCONNECTED records it; any
        other state is ignored. */
    method OnConnectionStateChange(newState: int)
      requires Valid()
      modifies this
      ensures Valid()
      ensures newState == STATE_CONNECTED ==>
        connectionState == STATE_CONNECTED
        && commands == old(commands) + if gatt.Some? then [DiscoverServices] else []
      ensures newState == STATE_DISCONNECTED ==>
        connectionState == STATE_DISCONNECTED && commands == old(commands)
      ensures newState != STATE_CONNECTED && newState != STATE_DISCONNECTED ==>
        connectionState == old(connectionState) && commands == old(commands)
      ensures gatt == old(gatt) && logEvents == old(logEvents)
      ensures dataServiceUuid == old(dataServiceUuid) && collecting == old(collecting)
      ensures adapterPresent == old(adapterPresent) && scannerPresent == old(scannerPresent)
    {
      if newState == STATE_CONNECTED {
        connectionState := STATE_CONNECTED;
        if gatt.Some? {
          commands := commands + [DiscoverServices];
        }
      } else if newState == STATE_DISCONNECTED {
        connectionState := STATE_DISCONNECTED;
      }
    }

    /** `onCharacteristicChanged`: one timestamped row per notification, or
        the decoder's exception and no row. */
    method OnCharacteristicChanged(value: Option<seq<byte>>, millis: nat, fmt: word32 -> string)
      returns (outcome: Outcome)
      requires Valid()
      modifies this
      ensures Valid()
      ensures match Decode(value.GetOr([]))
        case Success(words) =>
          outcome == Completed && logEvents == old(logEvents) + [Write(OmniRingLog, StampedRow(millis, words, fmt))]
        case Failure(e) =>
          outcome == Crashed(MalformedPayload(e.offset)) && logEvents == old(logEvents)
      ensures gatt == old(gatt) && connectionState == old(connectionState) && commands == old(commands)
      ensures dataServiceUuid == old(dataServiceUuid) && collecting == old(collecting)
      ensures adapterPresent == old(adapterPresent) && scannerPresent == old(scannerPresent)
    {
      var decoded := DecodeByteData(value.GetOr([]));
      match decoded
      case Failure(e) =>
        return Crashed(MalformedPayload(e.offset));
      case Success(words) =>
        logEvents := logEvents + [Write(OmniRingLog, StampedRow(millis, words, fmt))];
        return Completed;
    }

    /** `connect`, as in the service copy. */
    method Connect(address: string) returns (connected: bool)
      requires Valid()
      modifies this
      ensures Valid()
      ensures connected == Connecting(adapterPresent, address).Some?
      ensures gatt == if connected then Connecting(adapterPresent, address) else old(gatt)
      ensures commands == old(commands) + if connected then [ConnectGatt(address)] else []
      ensures connectionState == old(connectionState) && logEvents == old(logEvents)
      ensures dataServiceUuid == old(dataServiceUuid) && collecting == old(collecting)
      ensures adapterPresent == old(adapterPresent) && scannerPresent == old(scannerPresent)
    {
      if !adapterPresent || !IsValidAddress(address) {
        return false;
      }
      gatt := Some(GattHandle(address));
      commands := commands + [ConnectGatt(address)];
      return true;
    }

    /** `scanCallback.onScanResult`: with the permission granted, a device
        whose name starts with the ring prefix opens a new ring log file and
        is connected to unless its bond state reads as connected. A device
        without a name throws once the permission check has passed. */
    method OnScanResult(device: Device, permitted: bool) returns (outcome: Outcome)
      requires Valid()
      modifies this
      ensures Valid()
      ensures outcome == if permitted && device.name.None? then Crashed(NullDeviceName) else Completed
      ensures var matched := permitted && device.name.Some? && StartsWith(device.name.value, RING_NAME_PREFIX);
        && logEvents == old(logEvents) + (if matched then [NewFile(OmniRingLog)] else [])
        && (matched && device.bondState != STATE_CONNECTED ==>
              var handle := Connecting(adapterPresent, device.address);
              && gatt == (if handle.Some? then handle else old(gatt))
              && commands == old(commands) + if handle.Some? then [ConnectGatt(device.address)] else [])
        && (!matched || device.bondState == STATE_CONNECTED ==>
              gatt == old(gatt) && commands == old(commands))
      ensures connectionState == old(connectionState)
      ensures dataServiceUuid == old(dataServiceUuid) && collecting == old(collecting)
      ensures adapterPresent == old(adapterPresent) && scannerPresent == old(scannerPresent)
    {
      if !permitted {
        return Completed;
      }
      if device.name.None? {
        return Crashed(NullDeviceName);
      }
      if StartsWith(device.name.value, RING_NAME_PREFIX) {
        logEvents := logEvents + [NewFile(OmniRingLog)];
        if device.bondState != STATE_CONNECTED {
          var _ := Connect(device.address);
        }
      }
      return Completed;
    }

    /** `close`: close and drop an open handle; nothing to do without one. */
    method Close()
      requires Valid()
      modifies this
      ensures Valid() && gatt.None?
      ensures commands == old(commands) + if old(gatt).Some? then [CloseGatt] else []
      ensures connectionState == old(connectionState) && logEvents == old(logEvents)
      ensures dataServiceUuid == old(dataServiceUuid) && collecting == old(collecting)
      ensures adapterPresent == old(adapterPresent) && scannerPresent == old(scannerPresent)
    {
      if gatt.Some? {
        commands := commands + [CloseGatt];
        gatt := None;
      }
    }
  }

  /** A ring that advertises a longer name than "PPG_Ring#1" is still
      accepted: a new ring log file is opened and a connection follows. */
  method ScenarioLongerName()
  {
    var session := new OmniringListener();
    session.OnStartCommand(true, true, true);
    var address := "AA:BB:CC:DD:EE:FF";
    forall i | 0 <= i < 17
      ensures if i % 3 == 2 then address[i] == ':' else address[i] in "0123456789ABCDEF"
    {
      assert i in {0, 1, 2, 3, 4, 5, 6, 7, 8, 9, 10, 11, 12, 13, 14, 15, 16};
    }
    var ring := Device(Some("PPG_Ring#7"), address, 10);
    var scanned := session.OnScanResult(ring, true);
    assert scanned == Completed && session.logEvents == [NewFile(OmniRingLog)];
    assert session.gatt == Some(GattHandle(address));
  }
}

/** The radio power arbiter of BluetoothListener.kt: it remembers whether the
    app wants the adapter on (`internalBluetoothState`) and whether the rest
    of the device wants it on (`externalBluetoothState`), and asks the
    adapter to power on or off only when the two allow it.

    The adapter's `isEnabled` is an input to each operation that reads it;
    every command sent to the adapter or the OS is appended to `issued`,
    together with the two states at the moment it was sent. */
module RadioArbiter {
  import opened Wrappers

  /** `BluetoothAdapter` state codes carried by `ACTION_STATE_CHANGED`. */
  const ERROR: int := -0x8000_0000
  const STATE_OFF: int := 10
  const STATE_TURNING_ON: int := 11
  const STATE_ON: int := 12
  const STATE_TURNING_OFF: int := 13

  datatype AdapterState = Error | On | TurningOn | TurningOff | OtherState(code: int)

  /** `intent.getIntExtra(EXTRA_STATE, ERROR)`, classified: a missing extra
      reads as ERROR. */
  function StateOf(extra: Option<int>): (s: AdapterState)
    ensures s == Error <==> extra.GetOr(ERROR) == ERROR
    ensures s == On <==> extra == Some(STATE_ON)
    ensures s == TurningOn <==> extra == Some(STATE_TURNING_ON)
    ensures s == TurningOff <==> extra == Some(STATE_TURNING_OFF)
    ensures s.OtherState? ==> s.code == extra.value
  {
    var code := extra.GetOr(ERROR);
    if code == ERROR then Error
    else if code == STATE_ON then On
    else if code == STATE_TURNING_ON then TurningOn
    else if code == STATE_TURNING_OFF then TurningOff
    else OtherState(code)
  }

  /** A command sent out by the listener. The power commands record the
      internal and external states at the moment they were sent. */
  datatype AdapterCommand =
    | Enable(internal: bool, external: bool)
    | Disable(internal: bool, external: bool)
    | StartGattService

  /** The arbiter's rule: power on only for the app and only when the rest of
      the device wants the radio off; power off only when neither wants it. */
  predicate Permitted(c: AdapterCommand)
  {
    match c
    case Enable(internal, external) => internal && !external
    case Disable(internal, external) => !internal && !external
    case StartGattService => true
  }

  class BluetoothListener {
    /** False when the device has no adapter: set once, at construction. */
    const bluetoothExists: bool
    var internalBluetoothState: bool
    var externalBluetoothState: bool
    /** The scan intent (a companion field in the source). */
    var scanActive: bool
    ghost var issued: seq<AdapterCommand>

    /** Every command sent so far obeyed the arbiter's rule, and a device
        without an adapter was never sent a power command. */
    ghost predicate Valid()
      reads this
    {
      && (forall i :: 0 <= i < |issued| ==> Permitted(issued[i]))
      && (!bluetoothExists ==> forall i :: 0 <= i < |issued| ==> issued[i] == StartGattService)
    }

    /** `init`: without an adapter both states are false; with one, both
        start as the adapter's enabled state. */
    constructor (adapterPresent: bool, adapterEnabled: bool, scanActive: bool)
      ensures Valid() && issued == []
      ensures bluetoothExists == adapterPresent
      ensures !adapterPresent ==> !internalBluetoothState && !externalBluetoothState
      ensures adapterPresent ==>
        internalBluetoothState == externalBluetoothState == adapterEnabled
      ensures this.scanActive == scanActive
    {
      bluetoothExists := adapterPresent;
      if !adapterPresent {
        externalBluetoothState := false;
        internalBluetoothState := false;
      } else {
        externalBluetoothState := adapterEnabled;
        internalBluetoothState := adapterEnabled;
      }
      this.scanActive := scanActive;
      issued := [];
    }

    /** `isBluetoothEnabled`: the adapter exists and reports itself on. */
    function IsBluetoothEnabled(adapterEnabled: bool): (enabled: bool)
      reads this
      ensures enabled ==> bluetoothExists
      ensures bluetoothExists ==> enabled == adapterEnabled
    {
      if bluetoothExists then adapterEnabled else false
    }

    /** `enableBluetooth`: the app now wants the radio; power it on only when
        the rest of the device does not already want it on. */
    method EnableBluetooth() returns (poweredOn: bool)
      requires Valid()
      modifies this
      ensures Valid()
      ensures scanActive == old(scanActive)
      ensures externalBluetoothState == old(externalBluetoothState)
      ensures !bluetoothExists ==> !poweredOn && internalBluetoothState == old(internalBluetoothState)
      ensures bluetoothExists ==> internalBluetoothState && poweredOn == !externalBluetoothState
      ensures issued == old(issued) + if poweredOn then [Enable(true, false)] else []
    {
      if !bluetoothExists {
        return false;
      }
      internalBluetoothState := true;
      if !externalBluetoothState {
        issued := issued + [Enable(internalBluetoothState, externalBluetoothState)];
        return true;
      }
      return false;
    }

    /** `disableBluetooth`: the app no longer wants the radio; power it off
        only when the rest of the device agrees it should be off. */
    method DisableBluetooth() returns (poweredOff: bool)
      requires Valid()
      modifies this
      ensures Valid()
      ensures scanActive == old(scanActive)
      ensures externalBluetoothState == old(externalBluetoothState)
      ensures !bluetoothExists ==> !poweredOff && internalBluetoothState == old(internalBluetoothState)
      ensures bluetoothExists ==> !internalBluetoothState && poweredOff == !externalBluetoothState
      ensures issued == old(issued) + if poweredOff then [Disable(false, false)] else []
    {
      if !bluetoothExists {
        return false;
      }
      internalBluetoothState := false;
      if !externalBluetoothState {
        issued := issued + [Disable(internalBluetoothState, externalBluetoothState)];
        return true;
      }
      return false;
    }

    /** `tryScanning`: reaches its "starting a scan" branch exactly when the
        adapter exists and is on; the scan call itself is commented out in
        the source, so nothing is sent and nothing changes. */
    method TryScanning(adapterEnabled: bool) returns (startingScan: bool)
      ensures startingScan <==> bluetoothExists && adapterEnabled
    {
      startingScan := IsBluetoothEnabled(adapterEnabled);
    }

    /** `enableBLEScan`: record the scan intent; scan at once if the radio
        is on, otherwise ask for power and wait for the ON broadcast. */
    method EnableBLEScan(adapterEnabled: bool)
      requires Valid()
      modifies this
      ensures Valid()
      ensures !bluetoothExists ==> unchanged(this)
      ensures bluetoothExists ==> scanActive
      ensures externalBluetoothState == old(externalBluetoothState)
      ensures bluetoothExists && adapterEnabled ==>
        internalBluetoothState == old(internalBluetoothState) && issued == old(issued)
      ensures bluetoothExists && !adapterEnabled ==>
        && internalBluetoothState
        && issued == old(issued) + if old(externalBluetoothState) then [] else [Enable(true, false)]
    {
      if !bluetoothExists {
        return;
      }
      scanActive := true;
      if IsBluetoothEnabled(adapterEnabled) {
        var _ := TryScanning(adapterEnabled);
      } else {
        var _ := EnableBluetooth();
      }
    }

    /** `disableBLEScan`: only clears the scan intent; stopping the scan and
        powering down are commented out in the source. */
    method DisableBLEScan()
      requires Valid()
      modifies this
      ensures Valid()
      ensures !bluetoothExists ==> unchanged(this)
      ensures bluetoothExists ==> !scanActive
      ensures internalBluetoothState == old(internalBluetoothState)
      ensures externalBluetoothState == old(externalBluetoothState)
      ensures issued == old(issued)
    {
      if !bluetoothExists {
        return;
      }
      scanActive := false;
    }

    /** The `ACTION_STATE_CHANGED` branch of `onReceive`. A TURNING_ON the
        app did not ask for means the rest of the device wants the radio; a
        TURNING_OFF while the app wanted it on means the device now wants it
        off. ON starts the GATT service and resumes a pending scan. */
    method OnStateChanged(extra: Option<int>, adapterEnabled: bool)
      requires Valid()
      modifies this
      ensures Valid()
      ensures StateOf(extra) == Error || StateOf(extra).OtherState? ==> unchanged(this)
      ensures StateOf(extra) == TurningOn ==>
        && externalBluetoothState == (old(externalBluetoothState) || !old(internalBluetoothState))
        && internalBluetoothState == old(internalBluetoothState)
        && scanActive == old(scanActive) && issued == old(issued)
      ensures StateOf(extra) == TurningOff ==>
        && externalBluetoothState == (old(externalBluetoothState) && !old(internalBluetoothState))
        && internalBluetoothState == old(internalBluetoothState)
        && scanActive == old(scanActive) && issued == old(issued)
      ensures StateOf(extra) == On && !old(scanActive) ==>
        && internalBluetoothState == old(internalBluetoothState)
        && externalBluetoothState == old(externalBluetoothState)
        && !scanActive && issued == old(issued) + [StartGattService]
      ensures StateOf(extra) == On && old(scanActive) ==>
        && externalBluetoothState == old(externalBluetoothState)
        && scanActive
        && (!bluetoothExists || adapterEnabled ==>
              internalBluetoothState == old(internalBluetoothState)
              && issued == old(issued) + [StartGattService])
        && (bluetoothExists && !adapterEnabled ==>
              internalBluetoothState
              && issued == old(issued) + [StartGattService] +
                           if old(externalBluetoothState) then [] else [Enable(true, false)])
    {
      match StateOf(extra)
      case Error =>
      case On =>
        issued := issued + [StartGattService];
        if scanActive {
          EnableBLEScan(adapterEnabled);
        }
      case TurningOn =>
        if !internalBluetoothState {
          externalBluetoothState := true;
        }
      case TurningOff =>
        if internalBluetoothState {
          externalBluetoothState := false;
        }
      case OtherState(_) =>
    }
  }

  /** The radio was switched on by the user, not the app: a later request
      from the app to power down leaves it on. */
  method ScenarioUserKeepsRadioOn()
  {
    var listener := new BluetoothListener(true, false, false);
    listener.OnStateChanged(Some(STATE_TURNING_ON), false);
    assert listener.externalBluetoothState;
    listener.OnStateChanged(Some(STATE_ON), true);
    var poweredOff := listener.DisableBluetooth();
    assert !poweredOff && listener.issued == [StartGattService];
  }

  /** The app borrows a radio that was off: it powers it on for the scan,
      the scan resumes on ON, and powering down later is the app's to do. */
  method ScenarioAppBorrowsRadio()
  {
    var listener := new BluetoothListener(true, false, false);
    listener.EnableBLEScan(false);
    assert listener.issued == [Enable(true, false)];
    listener.OnStateChanged(Some(STATE_TURNING_ON), false);
    assert !listener.externalBluetoothState;
    listener.OnStateChanged(Some(STATE_ON), true);
    assert listener.scanActive && listener.issued == [Enable(true, false), StartGattService];
    var poweredOff := listener.DisableBluetooth();
    assert poweredOff;
  }
}

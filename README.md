# Beiwe wireless sensing: radio arbiter and OmniRing session

This project models the Bluetooth part of the Beiwe Android client in Dafny.
It covers two things.

- **The radio arbiter** (`BluetoothListener`). It remembers whether the app
  wants the adapter on (`internalBluetoothState`) and whether the rest of the
  device wants it on (`externalBluetoothState`). It powers the adapter on
  when the app wants it on and the rest of the device does not, and powers
  it off only when neither wants it on. It follows adapter state broadcasts
  to keep `externalBluetoothState` current, so no power-off is issued while
  that flag is set. The only call site of `disableBluetooth` is commented
  out in `disableBLEScan`, so the arbiter never powers the radio off in
  practice.
- **The OmniRing session**, which exists as three copies:
  - `OmniringService` is a started service (its `onBind` returns null). It scans for the exact name
    `PPG_Ring#1`. It logs every advertisement, connects, and enables
    notification on the fixed telemetry characteristic, writing the
    configuration descriptor. Each notification becomes one timestamped row.
  - `OmniringListener` is a started service. It accepts any name starting
    with `PPG_Ring` and only scans when the Bluetooth permission is granted.
    When `collecting` is set, it looks for the telemetry characteristic in
    every discovered service. It enables notification without writing the
    descriptor.
  - `OmniRingGattListener` is a process-wide callback object. It reads every
    characteristic after discovery and writes rows without a timestamp. It
    opens a new log file once its counter has passed 1000 rows.

All three share one frame decoder. A characteristic value is regrouped into
4-byte little-endian words, one IEEE 754 binary32 value each. A value whose
length is not a multiple of four makes `copyOfRange` throw at the start of
the incomplete group.

Modules:

- `FrameDecoder`: the decoder. It has a recursive definition and the looping
  method `DecodeByteData`, which is proved equal to that definition. It also
  has an encoder, proved to be the decoder's inverse.
- `Text`: `joinToString` and its inverse (splitting on a character). Also
  base-10 printing with its inverse.
- `HexFormat`: the two hex renderings, each proved to parse back.
- `LogRows`: the three row formats. Each row is proved to split back into
  its fields.
- `Gatt`: shared protocol constants, the discovered service table, service
  and characteristic lookup, the characteristic walk, and the effect of
  enabling or disabling notification.
- `RadioArbiter`: the `BluetoothListener` class.
- `RingService`, `RingListener`, `RingGattCallback`: one class per session
  copy.

Each class records what it sends to the platform (scans, connections, GATT
requests, broadcasts) in `commands`. It records what it sends to the log
files (new file, encrypted row) in `logEvents`. The arbiter records its
adapter commands in the ghost log `issued`. Its invariant `Valid()` says
that every command it ever issued obeyed the rule: power on only for the app
and only while the device wants the radio off; power off only when neither
wants it on.

Inputs from the platform are parameters of the operations: the adapter's
`isEnabled`, the presence of an adapter and a scanner, the permission check,
the receive time in milliseconds, the discovered service table, and scan
results. Exceptions the source does not catch become an `Outcome.Crashed`
result carrying the fault; the state reached before the throw is kept. The
`isBluetoothEnabled` getter is `RadioArbiter.BluetoothListener.IsBluetoothEnabled`.

Three points where the code behaves differently from what a quick reading
suggests. The model follows the code in each:

- `OmniRingGattListener` rotates when the counter is above 1000, read before
  the row is written. So the first file gets 1001 rows, not 1000.
  `RotationSchedule` states the exact schedule.
- The advertisement row separates its fields with `","`, not `", "`. The
  header `"timestamp, hashed MAC, RSSI"` does use `", "`.
- The bond-state guard before connecting compares `bondState` with
  `BluetoothAdapter.STATE_CONNECTED` (2). Bond states are 10, 11 or 12, so
  in practice the guard always passes. The model keeps the comparison as
  written.

## Model

| member | source | states |
|---|---|---|
| FrameDecoder.UnpackWord | app/src/main/java/org/beiwe/app/listeners/OmniringService.kt:142-145 | the word read from a 4-byte group has the first byte as its lowest octet and the last byte as its highest (little-endian order) |
| FrameDecoder.WordBytes | app/src/main/java/org/beiwe/app/listeners/OmniringService.kt:142-145 | the little-endian layout of a 32-bit word is exactly four bytes |
| FrameDecoder.UnpackWordBytes | app/src/main/java/org/beiwe/app/listeners/OmniringService.kt:142-145 | reading a word's own four little-endian bytes gives the word back |
| FrameDecoder.WordBytesUnpack | app/src/main/java/org/beiwe/app/listeners/OmniRingGattListener.kt:73-76 | the read loses nothing: the four bytes of any group are recovered from the word read from them |
| FrameDecoder.Decode | app/src/main/java/org/beiwe/app/listeners/OmniringService.kt:147-154 | a successful decode has one value per four bytes; a failure reports an offset on a group boundary with fewer than four bytes left after it |
| FrameDecoder.DecodeOutcome | app/src/main/java/org/beiwe/app/listeners/OmniRingGattListener.kt:78-85 | decoding succeeds exactly when the length is a multiple of 4, with length/4 values; otherwise it throws at the offset of the last, incomplete group |
| FrameDecoder.DecodeAt | app/src/main/java/org/beiwe/app/listeners/OmniringListener.kt:55-62 | value k of a successful decode is the little-endian word of bytes 4k..4k+3, values in payload order |
| FrameDecoder.DecodeByteData | app/src/main/java/org/beiwe/app/listeners/OmniringService.kt:147-154 | the stepping loop returns exactly the decoder's result: all values in order, or the failure at the offset where `copyOfRange` throws |
| FrameDecoder.Encode | app/src/main/java/org/beiwe/app/listeners/OmniringService.kt:147-154 | the inverse layout of the decoder: four bytes per value |
| FrameDecoder.DecodeEncode | app/src/main/java/org/beiwe/app/listeners/OmniringService.kt:147-154 | decoding the layout of any value list gives that list back |
| FrameDecoder.EncodeDecode | app/src/main/java/org/beiwe/app/listeners/OmniringService.kt:147-154 | every payload whose length is a multiple of 4 decodes, and re-encoding its values gives the payload back |
| Text.Split | app/src/main/java/org/beiwe/app/listeners/OmniringService.kt:127-130 | splitting a row on its separator always gives at least one field |
| Text.Join | app/src/main/java/org/beiwe/app/listeners/OmniringService.kt:129 | joining no parts gives the empty text, one part gives that part, and more parts start with the first part followed by the separator |
| Text.SplitField | app/src/main/java/org/beiwe/app/listeners/OmniringService.kt:127-130 | a text without the separator is a single field |
| Text.SplitFirst | app/src/main/java/org/beiwe/app/listeners/OmniringService.kt:127-130 | a leading field followed by the separator splits off as the first field |
| Text.SplitJoin | app/src/main/java/org/beiwe/app/listeners/OmniringService.kt:129 | `joinToString` of separator-free fields splits back into exactly those fields |
| Text.JoinLength | app/src/main/java/org/beiwe/app/listeners/OmniringService.kt:76-78 | joining n parts of equal width w gives n*w characters plus one separator between each neighbouring pair |
| Text.Decimal | app/src/main/java/org/beiwe/app/listeners/OmniringService.kt:128 | the printed receive time is a non-empty run of digits without a leading zero ("0" only for zero) |
| Text.DecimalValue | app/src/main/java/org/beiwe/app/listeners/OmniringService.kt:128 | the printed receive time reads back as the same number |
| Text.SignedDecimal | app/src/main/java/org/beiwe/app/listeners/OmniringService.kt:236 | the printed RSSI has no comma, starts with '-' exactly when it is negative, and its digits (after the sign) read back as the absolute value of the RSSI |
| HexFormat.ParseHexPair | app/src/main/java/org/beiwe/app/listeners/OmniringService.kt:77 | the two hex digits printed for a byte, in either case, parse back to the byte |
| HexFormat.HexPair | app/src/main/java/org/beiwe/app/listeners/OmniringService.kt:77 | `"%02x"` / `"%02X"` of a byte is two digits of the requested case that parse back to the byte |
| HexFormat.ToHexString | app/src/main/java/org/beiwe/app/listeners/OmniringService.kt:156 | `toHexString` gives two lower-case hex digits per byte |
| HexFormat.ParseToHexString | app/src/main/java/org/beiwe/app/listeners/OmniringListener.kt:64 | the `toHexString` text parses back to the original bytes |
| HexFormat.UpperPairs | app/src/main/java/org/beiwe/app/listeners/OmniringService.kt:76-78 | one pair per byte, in order; each pair is two upper-case hex digits that parse back to its byte |
| HexFormat.HexDump | app/src/main/java/org/beiwe/app/listeners/OmniringService.kt:76-78 | the dump of no bytes is empty; otherwise it has two digits per byte and one space between neighbouring pairs, 3n-1 characters |
| HexFormat.BroadcastHex | app/src/main/java/org/beiwe/app/listeners/OmniringService.kt:74-80 | the broadcast carries hex text exactly when the value is present and non-empty; that text is the space-separated upper-case dump of the value, holds 3n-1 characters for n bytes and parses back to the value |
| HexFormat.ParseUpperPairs | app/src/main/java/org/beiwe/app/listeners/OmniringService.kt:76-78 | the upper-case pairs parse back to the bytes |
| HexFormat.HexDumpRoundTrip | app/src/main/java/org/beiwe/app/listeners/OmniringService.kt:76-78 | the space-separated hex dump of a non-empty value parses back to the value |
| LogRows.Render | app/src/main/java/org/beiwe/app/listeners/OmniringService.kt:129 | one printed text per decoded value, in order: text i is `fmt` of value i |
| LogRows.StampedRow | app/src/main/java/org/beiwe/app/listeners/OmniringService.kt:127-130 | a ring row starts with the receive time and a comma, and is only that for an empty payload |
| LogRows.PlainRow | app/src/main/java/org/beiwe/app/listeners/OmniRingGattListener.kt:59-61 | the callback object's row ends with a line break, and is only that for an empty payload |
| LogRows.ScanRow | app/src/main/java/org/beiwe/app/listeners/OmniringService.kt:234-237 | an advertisement row starts with the receive time and a comma |
| LogRows.ValueFields | app/src/main/java/org/beiwe/app/listeners/OmniringService.kt:129 | the comma-joined values split back into the printed values, or one empty field for an empty payload |
| LogRows.DecimalIsField | app/src/main/java/org/beiwe/app/listeners/OmniringListener.kt:158 | the printed receive time contains no comma |
| LogRows.StampedRowFields | app/src/main/java/org/beiwe/app/listeners/OmniringService.kt:127-130 | a ring row splits into the receive time followed by the printed values, and its first field reads back as the receive time |
| LogRows.PlainRowFields | app/src/main/java/org/beiwe/app/listeners/OmniRingGattListener.kt:59-61 | the callback object's row ends in a line break, and the text before it splits into the printed values |
| LogRows.ScanRowFields | app/src/main/java/org/beiwe/app/listeners/OmniringService.kt:234-237 | an advertisement row splits into exactly three fields: receive time, hashed MAC and RSSI |
| Gatt.FindService | app/src/main/java/org/beiwe/app/listeners/OmniringService.kt:192 | `getService` finds the first service with the UUID, or none when no service has it |
| Gatt.FindCharacteristic | app/src/main/java/org/beiwe/app/listeners/OmniringService.kt:193 | `getCharacteristic` finds the first characteristic of the service with the UUID (none before it has it), or none exactly when the service has none |
| Gatt.FirstWithUuid | app/src/main/java/org/beiwe/app/listeners/OmniringListener.kt:91 | the first characteristic with the UUID: it has the UUID and none before it does; none exactly when none has it |
| Gatt.Lookup | app/src/main/java/org/beiwe/app/listeners/OmniringService.kt:192-193 | a characteristic is found exactly when the first service with the UUID has one with the characteristic UUID, and it is the first such in that service |
| Gatt.LookupFindsEveryCharacteristic | app/src/main/java/org/beiwe/app/listeners/OmniringListener.kt:90-91 | when no two services share a UUID, looking a characteristic up by its service's UUID and its own always finds one |
| Gatt.AllCharacteristics | app/src/main/java/org/beiwe/app/listeners/OmniRingGattListener.kt:30-36 | the walk yields exactly as many pairs as there are characteristics |
| Gatt.Pairs | app/src/main/java/org/beiwe/app/listeners/OmniRingGattListener.kt:32-35 | one (service, characteristic) pair per characteristic of a service, in order |
| Gatt.AllCharacteristicsComplete | app/src/main/java/org/beiwe/app/listeners/OmniRingGattListener.kt:30-36 | the nested walk yields one pair per characteristic, each pair belongs to a discovered service, and every characteristic of every service is visited |
| Gatt.AllCharacteristicsStep | app/src/main/java/org/beiwe/app/listeners/OmniringListener.kt:110-112 | visiting one more service appends that service's pairs to the walk |
| Gatt.Connecting | app/src/main/java/org/beiwe/app/listeners/OmniringService.kt:162-176 | `connect` yields a connection exactly when the adapter was initialised and the address passes `getRemoteDevice`'s check; the connection is to that address |
| Gatt.NotificationEffect | app/src/main/java/org/beiwe/app/listeners/OmniringService.kt:188-223 | with no connection or no such characteristic nothing is sent; when the characteristic is found, notification is switched first; a copy that does not write the descriptor sends only that switch; a copy that writes it completes with exactly two requests, the second writing the matching value, exactly when the characteristic has the configuration descriptor, and otherwise throws right after the switch |
| RadioArbiter.StateOf | app/src/main/java/org/beiwe/app/listeners/BluetoothListener.kt:209-210 | a missing state extra reads as ERROR, and each known state code is told apart from the others |
| RadioArbiter.BluetoothListener.IsBluetoothEnabled | app/src/main/java/org/beiwe/app/listeners/BluetoothListener.kt:85-86 | reports the radio enabled only when an adapter exists, and then exactly as the adapter reports itself |
| RadioArbiter.BluetoothListener.constructor | app/src/main/java/org/beiwe/app/listeners/BluetoothListener.kt:68-82 | without an adapter both states start false; with one, both start as the adapter's enabled state; nothing has been issued |
| RadioArbiter.BluetoothListener.EnableBluetooth | app/src/main/java/org/beiwe/app/listeners/BluetoothListener.kt:115-128 | with an adapter the app now wants the radio on, and powers it on exactly when the device wants it off; the arbiter's rule is kept |
| RadioArbiter.BluetoothListener.DisableBluetooth | app/src/main/java/org/beiwe/app/listeners/BluetoothListener.kt:90-110 | with an adapter the app no longer wants the radio, and powers it off only when the device does not want it either; the rule is kept |
| RadioArbiter.BluetoothListener.TryScanning | app/src/main/java/org/beiwe/app/listeners/BluetoothListener.kt:167-174 | the "starting a scan" branch is taken exactly when an adapter exists and is enabled; the scan call itself is commented out, so nothing is issued and no state changes |
| RadioArbiter.BluetoothListener.EnableBLEScan | app/src/main/java/org/beiwe/app/listeners/BluetoothListener.kt:135-147 | with an adapter the scan intent is set; an enabled adapter goes straight to the scan branch with no power request, otherwise the app's wish becomes "on" and power-on is requested unless the device already wants the radio on; the device's wish is untouched; without an adapter nothing changes |
| RadioArbiter.BluetoothListener.DisableBLEScan | app/src/main/java/org/beiwe/app/listeners/BluetoothListener.kt:155-163 | with an adapter the scan intent is cleared and nothing else changes or is issued |
| RadioArbiter.BluetoothListener.OnStateChanged | app/src/main/java/org/beiwe/app/listeners/BluetoothListener.kt:209-228 | an unrequested TURNING_ON marks the device as wanting the radio; TURNING_OFF while the app wanted it clears that; ON starts the GATT service and resumes a pending scan; ERROR and other codes change nothing; the rule is kept |
| RingGattCallback.NextLineCount | app/src/main/java/org/beiwe/app/listeners/OmniRingGattListener.kt:55-62 | after one row the counter is 1 if the file rotated, otherwise one more than before |
| RingGattCallback.LineCountCycle | app/src/main/java/org/beiwe/app/listeners/OmniRingGattListener.kt:55-62 | from a fresh start the counter stays within 0..1001 and after n rows equals (n-1) mod 1001 + 1 |
| RingGattCallback.RotationSchedule | app/src/main/java/org/beiwe/app/listeners/OmniRingGattListener.kt:55-58 | the row after k rows opens a new file exactly when k is a positive multiple of 1001 |
| RingGattCallback.ReadsOf | app/src/main/java/org/beiwe/app/listeners/OmniRingGattListener.kt:34 | one read request per visited pair, in visiting order |
| RingGattCallback.ReadsOfAppend | app/src/main/java/org/beiwe/app/listeners/OmniRingGattListener.kt:30-36 | the read requests of two consecutive walks are the requests of each, in order |
| RingGattCallback.ReadsOfStep | app/src/main/java/org/beiwe/app/listeners/OmniRingGattListener.kt:32-35 | visiting one more characteristic appends exactly its read request |
| RingGattCallback.ReadsOfNextService | app/src/main/java/org/beiwe/app/listeners/OmniRingGattListener.kt:30-36 | reading one more service appends exactly that service's read requests |
| RingGattCallback.OmniRingGattListener.constructor | app/src/main/java/org/beiwe/app/listeners/OmniRingGattListener.kt:13-15 | the counter starts at zero and nothing has been sent or written |
| RingGattCallback.OmniRingGattListener.OnConnectionStateChange | app/src/main/java/org/beiwe/app/listeners/OmniRingGattListener.kt:18-24 | CONNECTED asks for service discovery; any other state does nothing |
| RingGattCallback.OmniRingGattListener.OnServicesDiscovered | app/src/main/java/org/beiwe/app/listeners/OmniRingGattListener.kt:27-38 | on success every characteristic of every service is read, once each and in order; on failure nothing is sent |
| RingGattCallback.OmniRingGattListener.ReadService | app/src/main/java/org/beiwe/app/listeners/OmniRingGattListener.kt:32-35 | the inner walk over one service sends one read request per characteristic, in order, and changes nothing else |
| RingGattCallback.OmniRingGattListener.OnCharacteristicChanged | app/src/main/java/org/beiwe/app/listeners/OmniRingGattListener.kt:51-63 | rotate when the counter has passed 1000, then write one undated row of the decoded values and count it; a malformed value throws after the rotation, with no row and no count |
| RingService.OmniringService.constructor | app/src/main/java/org/beiwe/app/listeners/OmniringService.kt:22-26 | no adapter, scanner or connection; disconnected; nothing sent or written |
| RingService.OmniringService.Initialize | app/src/main/java/org/beiwe/app/listeners/OmniringService.kt:54-63 | fails without an adapter, leaving the scanner as it was; otherwise takes the scanner and opens a new advertisement log file |
| RingService.OmniringService.OnStartCommand | app/src/main/java/org/beiwe/app/listeners/OmniringService.kt:252-256 | initialise, then scan exactly when a scanner is available |
| RingService.OmniringService.OnConnectionStateChange | app/src/main/java/org/beiwe/app/listeners/OmniringService.kt:85-94 | CONNECTED records the state, broadcasts it and discovers services on an open connection; DISCONNECTED records and broadcasts; other states change nothing |
| RingService.OmniringService.ConfigureNotification | app/src/main/java/org/beiwe/app/listeners/OmniringService.kt:188-223 | switches notification and writes the matching descriptor value, as the shared notification effect describes, including the throw on a missing descriptor |
| RingService.OmniringService.EnableNotification | app/src/main/java/org/beiwe/app/listeners/OmniringService.kt:188-204 | notification on, then the enable value written to the configuration descriptor |
| RingService.OmniringService.DisableNotification | app/src/main/java/org/beiwe/app/listeners/OmniringService.kt:207-223 | notification off, then the disable value written to the configuration descriptor |
| RingService.OmniringService.OnServicesDiscovered | app/src/main/java/org/beiwe/app/listeners/OmniringService.kt:96-106 | broadcasts only on success, then enables notification on the fixed telemetry characteristic whatever the status |
| RingService.OmniringService.OnCharacteristicRead | app/src/main/java/org/beiwe/app/listeners/OmniringService.kt:108-117 | on success broadcasts the value, with its hex dump when it is non-empty; otherwise nothing |
| RingService.OmniringService.OnCharacteristicChanged | app/src/main/java/org/beiwe/app/listeners/OmniringService.kt:119-131 | exactly one timestamped row of the decoded values per notification; a malformed value throws and nothing is written |
| RingService.OmniringService.Connect | app/src/main/java/org/beiwe/app/listeners/OmniringService.kt:162-176 | connects exactly when the adapter is initialised and the address is valid, replacing any previous connection; otherwise nothing changes |
| RingService.OmniringService.OnScanResult | app/src/main/java/org/beiwe/app/listeners/OmniringService.kt:225-244 | every advertisement is logged as one row; only the exact ring name opens a new ring log and connects, unless the bond state reads as connected |
| RingService.OmniringService.Close | app/src/main/java/org/beiwe/app/listeners/OmniringService.kt:258-268 | an open connection is closed and dropped; otherwise nothing happens |
| RingListener.LastDataServiceStep | app/src/main/java/org/beiwe/app/listeners/OmniringListener.kt:115-116 | visiting a telemetry characteristic records its service; any other characteristic leaves the record as it was |
| RingListener.LastDataServiceAppend | app/src/main/java/org/beiwe/app/listeners/OmniringListener.kt:108-128 | the walk's record after two consecutive parts is what the second part leaves, starting from the first part's record |
| RingListener.LastDataServiceInService | app/src/main/java/org/beiwe/app/listeners/OmniringListener.kt:112-126 | within one service, the record becomes that service exactly when a telemetry characteristic has been visited |
| RingListener.VisitService | app/src/main/java/org/beiwe/app/listeners/OmniringListener.kt:112-126 | a whole service is recorded exactly when it holds the telemetry characteristic |
| RingListener.NoDataServiceKept | app/src/main/java/org/beiwe/app/listeners/OmniringListener.kt:108-128 | without a telemetry characteristic in any service, the recorded service UUID is unchanged |
| RingListener.SubscribedService | app/src/main/java/org/beiwe/app/listeners/OmniringListener.kt:108-128 | every service is searched, and the recorded UUID is that of the last service holding the telemetry characteristic |
| RingListener.SubscribeCommandsStep | app/src/main/java/org/beiwe/app/listeners/OmniringListener.kt:115-125 | visiting one more pair appends a notification request exactly when it is the telemetry characteristic |
| RingListener.SubscribeCommandsAppend | app/src/main/java/org/beiwe/app/listeners/OmniringListener.kt:108-128 | the requests of two consecutive parts of the walk are each part's requests, in order |
| RingListener.SubscribeCommandsEnableOnly | app/src/main/java/org/beiwe/app/listeners/OmniringListener.kt:86-102 | subscribing only ever switches notification on for the telemetry characteristic, at most once per visited pair, never writes a descriptor, and sends nothing when no telemetry characteristic is visited |
| RingListener.LastDataService | app/src/main/java/org/beiwe/app/listeners/OmniringListener.kt:115-116 | the record is left as it was when no telemetry characteristic is visited; otherwise it is kept or becomes the service of a visited telemetry characteristic |
| RingListener.SubscribeCommands | app/src/main/java/org/beiwe/app/listeners/OmniringListener.kt:115-125 | at most one notification request per visited pair |
| RingListener.EnableRequests | app/src/main/java/org/beiwe/app/listeners/OmniringListener.kt:115-125 | the reference list: one notification-on request for the telemetry characteristic per visited telemetry pair, so at most one per pair |
| RingListener.SubscribeCommandsFound | app/src/main/java/org/beiwe/app/listeners/OmniringListener.kt:86-95 | a visited telemetry pair whose characteristic the lookup finds adds exactly one request: notification on, for that service and characteristic |
| RingListener.SubscribeCommandsResolved | app/src/main/java/org/beiwe/app/listeners/OmniringListener.kt:108-128 | when the lookup finds every visited telemetry pair, the requests are exactly the reference list: one per telemetry pair, in visiting order |
| RingListener.VisitNextService | app/src/main/java/org/beiwe/app/listeners/OmniringListener.kt:110-127 | visiting one more service extends the record and the requests by what that service's characteristics give |
| RingListener.NextServiceState | app/src/main/java/org/beiwe/app/listeners/OmniringListener.kt:110-127 | after one more service of the walk, the recorded UUID and the requests sent are those of the walk over the services visited so far |
| RingListener.OneRequestPerDataCharacteristic | app/src/main/java/org/beiwe/app/listeners/OmniringListener.kt:104-128 | with distinct service UUIDs, subscribing sends exactly one notification-on request per telemetry characteristic, in visiting order, each addressed to the service holding it |
| RingListener.OmniringListener.constructor | app/src/main/java/org/beiwe/app/listeners/OmniringListener.kt:23-30 | no adapter, scanner or connection; disconnected; empty data service UUID; not collecting |
| RingListener.OmniringListener.Initialize | app/src/main/java/org/beiwe/app/listeners/OmniringListener.kt:209-218 | fails without an adapter, leaving the scanner as it was; otherwise takes the scanner; no log file is opened |
| RingListener.OmniringListener.OnStartCommand | app/src/main/java/org/beiwe/app/listeners/OmniringListener.kt:220-225 | initialise, then scan exactly when the permission check passes and a scanner is available |
| RingListener.OmniringListener.EnableNotification | app/src/main/java/org/beiwe/app/listeners/OmniringListener.kt:86-102 | notification on when the connection and the characteristic exist; no descriptor write |
| RingListener.OmniringListener.DisableNotification | app/src/main/java/org/beiwe/app/listeners/OmniringListener.kt:67-83 | notification off, then the disable value written to the descriptor; a missing descriptor throws |
| RingListener.OmniringListener.SubscribeToNotifications | app/src/main/java/org/beiwe/app/listeners/OmniringListener.kt:104-128 | on an open connection the recorded service UUID is that of the last telemetry characteristic visited, and the requests sent are those the walk specification gives (one per telemetry characteristic when service UUIDs are distinct, by `OneRequestPerDataCharacteristic`); without a connection nothing happens |
| RingListener.OmniringListener.SubscribeService | app/src/main/java/org/beiwe/app/listeners/OmniringListener.kt:112-126 | the inner walk over one service's characteristics leaves the record and the requests the walk specification gives |
| RingListener.OmniringListener.VisitCharacteristic | app/src/main/java/org/beiwe/app/listeners/OmniringListener.kt:115-125 | at a telemetry characteristic the service is recorded and notification is enabled through it; otherwise nothing happens |
| RingListener.OmniringListener.OnServicesDiscovered | app/src/main/java/org/beiwe/app/listeners/OmniringListener.kt:131-136 | subscribes exactly when collecting, whatever the status |
| RingListener.OmniringListener.OnConnectionStateChange | app/src/main/java/org/beiwe/app/listeners/OmniringListener.kt:138-151 | CONNECTED records the state and discovers services on an open connection; DISCONNECTED records it; no broadcasts; other states change nothing |
| RingListener.OmniringListener.OnCharacteristicChanged | app/src/main/java/org/beiwe/app/listeners/OmniringListener.kt:153-161 | exactly one timestamped row of the decoded values per notification; a malformed value throws and nothing is written |
| RingListener.OmniringListener.Connect | app/src/main/java/org/beiwe/app/listeners/OmniringListener.kt:172-187 | connects exactly when the adapter is initialised and the address is valid; otherwise nothing changes |
| RingListener.OmniringListener.OnScanResult | app/src/main/java/org/beiwe/app/listeners/OmniringListener.kt:189-201 | nothing happens without the permission; with it, a null name throws and a name starting with "PPG_Ring" opens a new ring log and connects unless the bond state reads as connected |
| RingListener.OmniringListener.Close | app/src/main/java/org/beiwe/app/listeners/OmniringListener.kt:227-237 | an open connection is closed and dropped; otherwise nothing happens |

## Left out

- Float values: the model keeps each decoded value's 32-bit pattern. Its printed text is the parameter `fmt`, assumed only to contain no comma. Binary32 arithmetic and `Float.toString` are not modelled.
- `EncryptionEngine.hashMAC(device.toString())` is the parameter `hashMac`, applied to the device's address: it stands for `hashMAC` composed with `BluetoothDevice.toString()`, whose text the model does not define. Encryption and file I/O inside `TextFileManager` are reduced to the events "new file" and "write row".
- `System.currentTimeMillis()` and `rssi` are parameters.
- The `PersistentData.bluetoothStart` / `bluetoothStop` timestamps written by `enableBluetooth` / `disableBluetooth` are not modelled: they depend on the wall clock and locale formatting.
- Threading: the `@Synchronized` on `onReceive` and the callback threads of the GATT stack are not modelled. Each operation runs atomically.
- `BluetoothListener.scanActive` is a companion (process-wide) field in the source. The model holds it as a field of the single listener instance.
- The other branches of `BluetoothListener.onReceive` (GATT connected, disconnected, services discovered, data available) only write to the debug log. So does `displayGattServices`, whose service handle is never assigned, so it always receives null.
- The `onDescriptorWrite` callbacks only log. `readCharacteristic` and `getSupportedGattServices` of `OmniringService` are never called within the session. `onCharacteristicRead` of `OmniRingGattListener` has an empty body. None of these has a member.
- `RingService.OmniringService.OnCharacteristicRead`: the broadcast extra also holds the characteristic UUID and the array's identity text (`"${characteristic.uuid} || $data"`). The model keeps only the hex dump part.
- `RingListener.OmniringListener.Connect`: as in `OmniringService`, `connectGatt` is taken to return a connection whenever `getRemoteDevice` accepts the address; a null return is not modelled.
- `Gatt.Connecting`: states the connection both copies of `connect` obtain under the same assumption that `connectGatt` never returns null.
- `RingListener.OmniringListener.SubscribeToNotifications`: when two discovered services share a UUID, `getService` returns the first of them, so a telemetry characteristic held only by a later one is not found and gets no request. The model follows this, and the one-request-per-characteristic property is proved only for distinct service UUIDs.
- `RingService.OmniringService.Connect`: `connectGatt` is taken to return a connection whenever `getRemoteDevice` accepts the address. A null return from the platform is not modelled.
- `RingGattCallback.OmniRingGattListener.OnConnectionStateChange` and `RingGattCallback.OmniRingGattListener.OnServicesDiscovered`: the `gatt` argument is taken to be non-null. In `onConnectionStateChange` the parameter is declared non-null, so a null argument throws a `NullPointerException` on entry (the `?.` in `gatt?.discoverServices()` never applies). In `onServicesDiscovered` the parameter is nullable and a null argument does nothing. The model always sends the discovery request and always has a service table.
- `onBind` and `onDestroy` are not modelled beyond `Close`, which `onDestroy` calls.
- Permission prompts and the Android service lifecycle are not modelled. The permission check is a boolean input.

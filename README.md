# SkipBluetooth core, modelled in Dafny

SkipBluetooth implements Apple's CoreBluetooth API on Android: a `CBCentralManager`
that tracks connected devices, `CBPeripheral` objects that serialize their GATT
requests through a one-at-a-time queue, a `BleGattCallback` that routes Android's
`BluetoothGattCallback` events to the right peripheral and delegate, and `CBUUID`,
which converts between 16-, 32- and 128-bit Bluetooth UUIDs.

This project models that core:

- `Uuids.dfy` models `CBUUID`. It covers short-form expansion and compression
  against the Bluetooth Base UUID, the initializers, `uuidString` and `==`.
- `Gatt.dfy` holds the shared vocabulary. It has the Android constants,
  characteristics, descriptors and the queued `GattOperation`s. It also has the
  delegate and transport calls, which are recorded as trace entries, and the
  Client Characteristic Configuration (CCCD) value that `setNotifyValue` chooses.
- `Peripherals.dfy` models the operation queue. `Drain`, `ProcessNext` and
  `Enqueue` specify it as pure functions, and the `Peripheral` class keeps the
  queue in fields. Its methods are proved to follow those functions and to keep
  the queue invariant.
- `Central.dfy` models the manager's three address-keyed tables, which the
  `CentralManager` class holds. It covers `tryConnect`, `connect`,
  `cancelPeripheralConnection`, `clearConnectedDevice`, the bond-state receiver
  and the two `retrieve*` queries.
- `GattCallbacks.dfy` models `BleGattCallback`. Each GATT event becomes a list of
  effects through a pure routing function. The `GattCallback` class applies the
  effects to the registered peripheral and is proved to match the function. A
  connection-state change updates the registry.
- `Scenarios.dfy` holds concrete runs through the objects above.

Calls on Android that return something become parameters:

- `handle` stands for the `BluetoothGatt` that `connectGatt` returns.
- `accepts` stands for whether the transport started a read.
- `registered` stands for the result of `setCharacteristicNotification`.
- `hasPermission` stands for the permission check.
- `fallback` stands for the random UUID that an invalid string gets.

Calls on the transport and on delegates are appended to ghost traces
(`transport`, `delivered`, `centralCalls`).

## Model

| member | source | states |
|---|---|---|
| Uuids.Upper | Sources/SkipBluetooth/CBUUID.swift:49 | `uppercased()` keeps the length, upper-cases each character and leaves no lower-case letter |
| Uuids.ParseUuid | Sources/SkipBluetooth/CBUUID.swift:100 | a text parses exactly when it is well-formed 8-4-4-4-12 hex, and the value is its upper-cased text |
| Uuids.ExpandShortUUID | Sources/SkipBluetooth/CBUUID.swift:48-67 | the result exists exactly when the trimmed, upper-cased text has 4 or 8 hex digits. It is then well-formed UUID text ending in the base suffix, with those digits zero-padded to 8 in front |
| Uuids.ExtractShortUUID | Sources/SkipBluetooth/CBUUID.swift:73-96 | a short form exists exactly for 36-character text ending in the base suffix. It has 4 digits exactly when the text starts with "0000", otherwise 8, and they are the last digits of the 8-digit prefix |
| Uuids.ExpandThenExtract16 | Sources/SkipBluetooth/CBUUID.swift:48-96 | compressing the expansion of a 16-bit short form gives back the short form, upper-cased |
| Uuids.ExpandThenExtract32 | Sources/SkipBluetooth/CBUUID.swift:48-96 | compressing the expansion of a 32-bit short form gives it back, except that a leading "0000" shortens it to 16 bits |
| Uuids.ExtractThenExpand | Sources/SkipBluetooth/CBUUID.swift:48-96 | expanding the compressed form of well-formed base-pattern text gives back the full upper-cased text |
| Uuids.ExpandIgnoresCase | Sources/SkipBluetooth/CBUUID.swift:49 | expansion does not depend on the case of its input |
| Uuids.ShortFormChars | Sources/SkipBluetooth/CBUUID.swift:73-96 | a short form compressed from UUID text is upper-case hex only |
| Uuids.UuidString | Sources/SkipBluetooth/CBUUID.swift:29-34 | the reported string never contains a lower-case letter. Without a short form it is the 128-bit text; with one it is that short form upper-cased, of the same length |
| Uuids.FromString | Sources/SkipBluetooth/CBUUID.swift:98-116 | all three branches of `init(string:)`: full text (compressed when possible), a valid short form (expanded and remembered upper-cased), or the fallback with no short form. A remembered short form always expands to the stored value |
| Uuids.FromNSUuid | Sources/SkipBluetooth/CBUUID.swift:124-128 | keeps the value and remembers exactly the short form `extractShortUUID` gives, so a base-pattern value gets one, and it expands back to the value |
| Uuids.NSUuidAgreesWithString | Sources/SkipBluetooth/CBUUID.swift:98-128 | `init(nsuuid:)` and `init(string:)` on the same UUID text build the same CBUUID, so they are also `==` |
| Uuids.ShortFormReported | Sources/SkipBluetooth/CBUUID.swift:98-116 | a valid short form is stored as its expansion and reported as its upper-cased self |
| Uuids.LongFormReported | Sources/SkipBluetooth/CBUUID.swift:98-116 | full UUID text is stored upper-cased and reported as its compressed form when it has one |
| Uuids.LongEqualsShort | Sources/SkipBluetooth/CBUUID.swift:131-135 | a base-pattern full UUID is `==` to the CBUUID built from its short form and has the same value |
| Uuids.EqualIsEquivalence | Sources/SkipBluetooth/CBUUID.swift:131-135 | `==` is reflexive, symmetric and transitive |
| Uuids.Examples180A | Sources/SkipBluetooth/CBUUID.swift:69-72 | "180A" equals its full base UUID text, while its 32-bit spelling "0000180A" is not equal to it |
| Uuids.Example180AFull | Sources/SkipBluetooth/CBUUID.swift:71 | the full text 0000180A-0000-1000-8000-00805F9B34FB reports "180A" |
| Uuids.CccdIsBaseExpansion | Sources/SkipBluetooth/Utility.swift:15 | the CCCD UUID text is the base expansion of 16-bit 0x2902 |
| Uuids.PaddedShortFormCounterexample | Sources/SkipBluetooth/CBUUID.swift:104-108 | for every 16-bit short form t (such as "180A"), " " + t and t store the same value but are not `==` |
| Uuids.FromStringTrimmed | Sources/SkipBluetooth/CBUUID.swift:98-116 | corrected initializer: same stored value, and the remembered short form is the trimmed, upper-cased text it expanded |
| Uuids.TrimmedShortFormIgnoresBlanks | Sources/SkipBluetooth/CBUUID.swift:104-108 | with the corrected initializer, blanks around a short form do not change the CBUUID |
| Gatt.WriteTypeRawValue | Sources/SkipBluetooth/CBPeripheral.swift:18-21 | raw value 1 exactly for `withoutResponse`, otherwise 2 |
| Gatt.CccdValue | Sources/SkipBluetooth/CBPeripheral.swift:338-361 | the written CCCD value is one of Android's three constants. The indication bit is set exactly when enabling a characteristic that supports indications; the notification bit exactly when enabling one that does not |
| Gatt.CccdUuidIsShortForm2902 | Sources/SkipBluetooth/Utility.swift:15 | the CCCD UUID Android is given is the 16-bit short form 2902 expanded |
| Peripherals.RawValue | Sources/SkipBluetooth/CBPeripheral.swift:11-16 | raw state values lie in 0..3 |
| Peripherals.RawValueRoundTrip | Sources/SkipBluetooth/CBPeripheral.swift:11-16 | each state's raw value is the Android `STATE_*` constant that reports it back, and no two states share a raw value |
| Peripherals.StateFromProfile | Sources/SkipBluetooth/CBPeripheral.swift:426-453 | a state is reported exactly for the four `STATE_*` values, and its raw value is the profile value |
| Peripherals.Drain | Sources/SkipBluetooth/CBPeripheral.swift:158-231 | with a connection, the operations handed over followed by those left are the queue as it was, and an idle drain leaves nothing. Without a connection nothing is handed over |
| Peripherals.DrainStopsAtAwaited | Sources/SkipBluetooth/CBPeripheral.swift:158-231 | one operation at a time: every operation handed over moves on by itself except possibly the last. The queue stays busy exactly when that last one awaits a callback |
| Peripherals.ProcessNext | Sources/SkipBluetooth/CBPeripheral.swift:158-171 | the history of queued operations is kept. Issued-then-pending is preserved, an idle queue is empty, and without a connection nothing is issued |
| Peripherals.Enqueue | Sources/SkipBluetooth/CBPeripheral.swift:146-155 | the operation joins the history, and the queue invariant is preserved |
| Peripherals.CompleteKeepsInvariant | Sources/SkipBluetooth/CBPeripheral.swift:234-237 | a completion preserves the queue invariant |
| Peripherals.EnqueueWhenIdle | Sources/SkipBluetooth/CBPeripheral.swift:146-155 | queued on an idle, connected queue, an operation is issued at once, and the queue is busy exactly when it awaits a callback |
| Peripherals.EnqueueWhenBusy | Sources/SkipBluetooth/CBPeripheral.swift:146-155 | queued while busy, an operation waits at the tail and nothing is issued |
| Peripherals.CompleteIssuesHead | Sources/SkipBluetooth/CBPeripheral.swift:158-171 | first in, first out: after a completion the head of the pending queue is the next operation issued |
| Peripherals.BusyAwaitsLastIssued | Sources/SkipBluetooth/CBPeripheral.swift:158-231 | while busy, the awaited operation is the last one issued, and it does not move on by itself |
| Peripherals.GattServices.constructor | Sources/SkipBluetooth/Utility.swift:27 | the shared service list starts absent (nil), not as an empty list |
| Peripherals.Peripheral.FromScanResult | Sources/SkipBluetooth/CBPeripheral.swift:104-114 | disconnected, MTU 23 (so a 20-byte write limit), an empty queue, and no connection |
| Peripherals.Peripheral.FromGatt | Sources/SkipBluetooth/CBPeripheral.swift:116-125 | the same initial state, holding the connection and the manager's callback object |
| Peripherals.Peripheral.Services | Sources/SkipBluetooth/CBPeripheral.swift:139-141 | with a callback object it is that object's list, which the whole manager shares; without one there are no services |
| Peripherals.Peripheral.QueueOperation | Sources/SkipBluetooth/CBPeripheral.swift:146-155 | the new state is `Enqueue` of the old one, nothing else changes, and the invariant holds |
| Peripherals.Peripheral.ProcessNextOperation | Sources/SkipBluetooth/CBPeripheral.swift:158-171 | the loop leaves the queue as `ProcessNext` says, and nothing else changes |
| Peripherals.Peripheral.ExecuteOperation | Sources/SkipBluetooth/CBPeripheral.swift:174-231 | moves on exactly without a connection, after a read the transport refused, or after a write without response. The operation reaches the transport only with a connection |
| Peripherals.Peripheral.OnOperationComplete | Sources/SkipBluetooth/CBPeripheral.swift:234-237 | the queue advances as `ProcessNext` says, keeping the invariant |
| Peripherals.Peripheral.CanSendWriteWithoutResponse | Sources/SkipBluetooth/CBPeripheral.swift:245-250 | true exactly when no operation is in progress, and then nothing is pending either |
| Peripherals.Peripheral.MaximumWriteValueLength | Sources/SkipBluetooth/CBPeripheral.swift:305-308 | the MTU less the 3-byte ATT header, for either write type |
| Peripherals.Peripheral.UpdateMtu | Sources/SkipBluetooth/CBPeripheral.swift:311-314 | only the MTU changes, and the write limit follows it |
| Peripherals.Peripheral.ReadValue | Sources/SkipBluetooth/CBPeripheral.swift:292-295 | queues exactly one characteristic read |
| Peripherals.Peripheral.WriteValue | Sources/SkipBluetooth/CBPeripheral.swift:316-319 | queues exactly one characteristic write, with its data and write type |
| Peripherals.Peripheral.SetNotifyValue | Sources/SkipBluetooth/CBPeripheral.swift:321-366 | with a connection, a successful registration and a CCCD, queues one write of `CccdValue`; otherwise changes nothing |
| Peripherals.Peripheral.ReadValueForDescriptor | Sources/SkipBluetooth/CBPeripheral.swift:387-399 | with a connection and an Android descriptor, queues one descriptor read; otherwise changes nothing |
| Peripherals.Peripheral.WriteValueForDescriptor | Sources/SkipBluetooth/CBPeripheral.swift:409-421 | with a connection and an Android descriptor, queues one descriptor write of the data; otherwise changes nothing |
| Peripherals.Peripheral.DiscoverCharacteristics | Sources/SkipBluetooth/CBPeripheral.swift:287-290 | the delegate is told at once, without an error, that the service's characteristics were discovered; the queue and everything else stay as they were |
| Peripherals.Peripheral.DiscoverDescriptors | Sources/SkipBluetooth/CBPeripheral.swift:375-379 | the delegate is told at once, without an error, that the characteristic's descriptors were discovered; the queue and everything else stay as they were |
| Peripherals.Peripheral.Deliver | Sources/SkipBluetooth/Utility.swift:106-133 | a delegate call is appended to the delegate's trace, and nothing else changes |
| Peripherals.Peripheral.StoreServices | Sources/SkipBluetooth/Utility.swift:75-92 | only the peripheral's discovered services change |
| Central.BondTarget | Sources/SkipBluetooth/CBCentralManager.swift:248-281 | a device is connected to exactly for a bond-state broadcast reporting `BOND_BONDED` with a device, and it is that device |
| Central.MatchedIdentifiersSelect | Sources/SkipBluetooth/CBCentralManager.swift:140-144 | the identifiers found are never more than those asked for. An identifier is found exactly when it was asked for and some registered peripheral carries it |
| Central.CloseAll | Sources/SkipBluetooth/CBCentralManager.swift:315-339 | one disconnect-then-close pair per address, in order, on its stored handle |
| Central.CentralManager.constructor | Sources/SkipBluetooth/CBCentralManager.swift:35-42 | all three tables and the transport trace start empty |
| Central.CentralManager.TryConnect | Sources/SkipBluetooth/CBCentralManager.swift:287-301 | a tracked address changes nothing. Otherwise the address is tracked, `connectGatt` is called once and its handle stored, and the registry invariant holds |
| Central.CentralManager.RegisterConnectedPeripheral | Sources/SkipBluetooth/CBCentralManager.swift:304-306 | the peripheral becomes the one registered for the address, and nothing else changes |
| Central.CentralManager.GetPeripheral | Sources/SkipBluetooth/CBCentralManager.swift:309-311 | a peripheral is returned exactly for a registered address, and it is registered under its own address |
| Central.CentralManager.ClearConnectedDevice | Sources/SkipBluetooth/CBCentralManager.swift:315-339 | for one address: it is removed from all three tables, and its handle, if any, is disconnected and closed. For none: every stored handle is disconnected and closed exactly once, and all tables are emptied |
| Central.CentralManager.CloseStoredGatts | Sources/SkipBluetooth/CBCentralManager.swift:330-334 | the loop over the stored handles visits every address exactly once and disconnects and closes its handle, leaving the tables as they were |
| Central.CentralManager.CancelPeripheralConnection | Sources/SkipBluetooth/CBCentralManager.swift:181-202 | closes the stored handle, or else the peripheral's own. The address leaves all three tables, and the peripheral is no longer found |
| Central.CentralManager.Connect | Sources/SkipBluetooth/CBCentralManager.swift:167-179 | without permission nothing changes; with it, as `TryConnect` |
| Central.CentralManager.OnBondStateChanged | Sources/SkipBluetooth/CBCentralManager.swift:248-281 | only the device of a completed bond is connected, with duplicate suppression; anything else changes nothing |
| Central.CentralManager.RetrievePeripherals | Sources/SkipBluetooth/CBCentralManager.swift:140-144 | in request order, one registered peripheral per requested identifier that some registered peripheral carries |
| Central.CentralManager.RetrieveConnectedPeripherals | Sources/SkipBluetooth/CBCentralManager.swift:155-165 | an empty filter lists every registered peripheral once. A non-empty filter lists exactly those whose `services` match, which, the list being shared, is all of them or none |
| Central.CentralManager.RetrieveConnectedPeripheralsPerDevice | Sources/SkipBluetooth/CBCentralManager.swift:155-165 | corrected query: a peripheral is listed exactly when its own discovered services match |
| GattCallbacks.ErrorIf | Sources/SkipBluetooth/Utility.swift:135-153 | an error exactly on failure, carrying the status |
| GattCallbacks.RouteServicesDiscovered | Sources/SkipBluetooth/Utility.swift:75-92 | the delegate hears one discovery, with an error exactly for a failed status. The services are stored, first, exactly on success, and no operation completes |
| GattCallbacks.RouteCharacteristicRead | Sources/SkipBluetooth/Utility.swift:106-133 | the value is reported, with an error exactly for status 241, and the read completes once, last |
| GattCallbacks.RouteCharacteristicWrite | Sources/SkipBluetooth/Utility.swift:135-153 | the write is reported, with an error for every status but success, and it completes once, last |
| GattCallbacks.RouteDescriptorRead | Sources/SkipBluetooth/Utility.swift:167-218 | all four cases of failure or success against CCCD or other descriptors. A CCCD read reports notifying exactly for the enable-notification value, and the read completes once |
| GattCallbacks.RouteDescriptorWrite | Sources/SkipBluetooth/Utility.swift:220-260 | all four cases: a failed CCCD write is reported as a failed characteristic write, and a successful one as notifying. The write completes once |
| GattCallbacks.Route | Sources/SkipBluetooth/Utility.swift:75-320 | events answering a queued operation complete it exactly once, as the last step, and no other event completes anything. At most one delegate call is made per event, and only a successful discovery stores services |
| GattCallbacks.ApplyEffectsDelivers | Sources/SkipBluetooth/Utility.swift:75-320 | the delegate hears exactly the routed calls, in order, and the connection state never changes |
| GattCallbacks.RouteAdvancesQueue | Sources/SkipBluetooth/Utility.swift:106-260 | an answering event advances the queue exactly once and any other event leaves it alone; the queue invariant is preserved |
| GattCallbacks.RouteUpdatesMtuOnSuccess | Sources/SkipBluetooth/Utility.swift:307-320 | the MTU changes only on a successful exchange, and then to the exchanged value |
| GattCallbacks.RouteStoresServicesOnSuccess | Sources/SkipBluetooth/Utility.swift:75-92 | the discovered services change only on a successful discovery, and then to the list discovered |
| GattCallbacks.CccdValueEnabled | Sources/SkipBluetooth/CBPeripheral.swift:338-361 | the written CCCD value has a notification or indication bit set exactly when enabling |
| GattCallbacks.DisableReportedAsNotifying | Sources/SkipBluetooth/Utility.swift:242-250 | the disable value is written, yet its successful write is reported as notifying |
| GattCallbacks.IndicationReportedAsNotNotifying | Sources/SkipBluetooth/Utility.swift:191-199 | a CCCD holding the indication value is reported as not notifying |
| GattCallbacks.RouteDescriptorWriteReporting | Sources/SkipBluetooth/Utility.swift:220-260 | corrected write route: a successful CCCD write reports the state the written value sets; otherwise the same as the original route |
| GattCallbacks.RouteDescriptorReadReporting | Sources/SkipBluetooth/Utility.swift:167-218 | corrected read route: a CCCD read counts indications as notifying |
| GattCallbacks.ReportedStateFollowsRequest | Sources/SkipBluetooth/CBPeripheral.swift:321-366 | with the corrected routes, writing and then reading the CCCD both report the state that was requested |
| GattCallbacks.GattCallback.constructor | Sources/SkipBluetooth/Utility.swift:31-34 | the callback object is tied to its manager and has made no delegate calls |
| GattCallbacks.GattCallback.GetOrCreatePeripheral | Sources/SkipBluetooth/Utility.swift:36-45 | returns the registered peripheral unchanged, or a new one for this connection, in its initial state, registered under the address |
| GattCallbacks.GattCallback.OnConnectionStateChange | Sources/SkipBluetooth/Utility.swift:48-72 | a successful connect registers the peripheral and reports it connected. Any other change clears the device, closing its handle, and reports a disconnection or a failure with its status |
| GattCallbacks.GattCallback.OnPeripheralEvent | Sources/SkipBluetooth/Utility.swift:75-320 | the registered peripheral ends as `ApplyEffects` of `Route` says, and the shared services are replaced on a successful discovery. Unregistered addresses are ignored |
| GattCallbacks.GattCallback.PerformRoute | Sources/SkipBluetooth/Utility.swift:75-320 | performing a routed event's effects in order leaves the peripheral as `ApplyEffects` says. The shared service list changes only on a successful discovery |
| GattCallbacks.GattCallback.Perform | Sources/SkipBluetooth/Utility.swift:75-320 | one effect is applied to the peripheral as `ApplyEffect` says, and the peripheral keeps its queue invariant |
| Scenarios.HeartRateIsNotBattery | Sources/SkipBluetooth/CBUUID.swift:98-135 | "180D" and "180F" report themselves and are not `==` |
| Scenarios.ConnectOne | Sources/SkipBluetooth/Utility.swift:48-72 | a connect event on a new manager registers one fresh peripheral in its initial state and reports it connected |
| Scenarios.ReadThenWrite | Sources/SkipBluetooth/CBPeripheral.swift:146-237 | a write queued behind an awaited read reaches the transport only after the read is answered. The delegate hears both answers in order, and the queue ends idle |
| Scenarios.DisableNotifications | Sources/SkipBluetooth/Utility.swift:242-250 | switching notifications off writes the disable value, and its answer is reported as notifying |
| Scenarios.SharedServicesLost | Sources/SkipBluetooth/CBCentralManager.swift:155-165 | two devices with different services: the query for the first device's service finds nothing, while the per-device query finds exactly that device |
| Scenarios.RepeatedBondBroadcast | Sources/SkipBluetooth/CBCentralManager.swift:248-301 | a bonding broadcast is ignored, and of two bonded broadcasts only the first calls `connectGatt` |
| Scenarios.CancelThenReconnect | Sources/SkipBluetooth/CBCentralManager.swift:167-202 | after a cancel, a connect calls `connectGatt` again and stores the new handle |
| Scenarios.ClearTwice | Sources/SkipBluetooth/CBCentralManager.swift:315-339 | clearing twice has the same effect as clearing once |

## Left out

- Scanning, `BleScanCallback`, `scanForPeripherals`, `stopScan` and advertisement parsing are not part of this model. They pass scan results through and state nothing about the core tables.
- Permission checks are a boolean parameter, and `hasPermission` itself is not modelled.
- `NSLock`-guarded sections and thread interleavings are left out; every operation is modelled as atomic.
- The `SDK_INT` branches and the paired deprecated/current Android overloads are collapsed into one call each.
- The deprecated `getValue() ?? empty` fallback is not modelled: the value an event carries is used.
- The `CBPeer` identifier, an MD5 name-based UUID of the MAC address, is a parameter.
- Logging, `NSError` construction, and whether a delegate is nil are left out: every delegate call is a trace entry.
- The `CBService`, `CBCharacteristic` and `CBDescriptor` wrappers are plain values.
- `readRSSI` and `discoverServices` only call the transport, without touching the queue, so they are left out. Their callbacks are modelled.
- Peripherals.Peripheral.DiscoverCharacteristics: the characteristic filter it sets on the `CBService` is not modelled, because `CBService` is not part of this model. The service is identified by its UUID.
- Peripherals.Peripheral.ExecuteOperation: a with-response write or descriptor write that the transport refuses to start still waits for a completion that never comes. The transport's answer for these is not modelled, because the source ignores it too.
- `setWriteType` on the Android characteristic is not modelled; only the write type recorded in the operation is.
- Uuids.Upper: upper-cases ASCII letters only, with no Unicode case mapping.
- Uuids.Trim: trims spaces and tabs only, not the full Unicode whitespace set.
- Uuids.ParseUuid: accepts only canonical 36-character text, not the variants `java.util.UUID.fromString` tolerates. Lengths are counted in characters.
- Uuids.FromString: the random UUID an invalid string gets is the parameter `fallback`.
- Peripherals.StateFromProfile: `PeripheralStateWatcher` is never registered as a callback, so a peripheral's `state` stays `disconnected`. Only the mapping is modelled.
- The `guard let device = peripheral.device` in `connect` (CBCentralManager.swift:172-175) and the `guard let address = peripheral.address` in `cancelPeripheralConnection` (CBCentralManager.swift:182-185) are left out. Both initializers always set the device and the address (CBPeripheral.swift:107-108, 119-120), so `Central.CentralManager.Connect` and `Central.CentralManager.CancelPeripheralConnection` use the address directly.
- `accepts` is one fixed function per call, so the transport's answer cannot vary between two starts of the same operation.
- The result of `connectGatt` is the parameter `handle`.
- GattCallbacks.GattCallback.OnConnectionStateChange: the temporary unregistered peripheral built for an unknown device's failure or disconnect is represented only by its address in the trace entry.
- Peripherals.Peripheral.StoreServices: the per-device `discoveredServices` list belongs to the corrected query and is stored alongside the shared list, which remains the source's behaviour.
- Central.CentralManager.RegisterConnectedPeripheral: requires that the peripheral carries the address and the manager's callback object, which its only caller, `getOrCreatePeripheral`, guarantees.

## Findings

| source | as written | input that shows it | evidently intended | confidence | as-written member | corrected member |
|---|---|---|---|---|---|---|
| Sources/SkipBluetooth/CBUUID.swift:108 | the short form remembered is the untrimmed input upper-cased, although the expansion used the trimmed text | `CBUUID(string: " 180A")` and `CBUUID(string: "180A")` hold the same UUID, but `uuidString` is " 180A" against "180A", so `==` is false (likewise for any 16-bit short form with a leading blank) | remember the trimmed, upper-cased short form, so that blanks do not affect equality | not executed | Uuids.PaddedShortFormCounterexample | Uuids.FromStringTrimmed |
| Sources/SkipBluetooth/CBCentralManager.swift:155-165 | the filter reads `peripheral.services`, which is the manager-wide `BleGattCallback.services` (CBPeripheral.swift:139-141, Utility.swift:27), so every peripheral reports the last discovery on any device | device A discovers 180D, then device B discovers 180F; `retrieveConnectedPeripherals(withServices: [180D])` returns [] | each peripheral is matched against its own discovered services | not executed | Scenarios.SharedServicesLost | Central.CentralManager.RetrieveConnectedPeripheralsPerDevice |
| Sources/SkipBluetooth/Utility.swift:242-250 | a successful CCCD write always reports `didUpdateNotificationStateFor` with `isNotifying` true | `setNotifyValue(false, for: c)` writes [0x00, 0x00], and the answer reports notifying | report the state the written value sets | not executed | GattCallbacks.DisableReportedAsNotifying | GattCallbacks.RouteDescriptorWriteReporting |
| Sources/SkipBluetooth/Utility.swift:193-199 | a CCCD read reports notifying only for the notification value [0x01, 0x00] | after `setNotifyValue(true, …)` on an indicating characteristic, reading the CCCD gives [0x02, 0x00], reported as not notifying | count indications as notifying too | not executed | GattCallbacks.IndicationReportedAsNotNotifying | GattCallbacks.RouteDescriptorReadReporting |

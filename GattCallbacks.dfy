/**
 * BleGattCallback: the one `BluetoothGattCallback` of a central manager.
 * Connection-state changes update the manager's registry and call the
 * central's delegate. Every other GATT event is routed to the registered
 * peripheral of its device. Events for an unregistered device are dropped.
 *
 * Routing is a pure function from an event to a list of `Effect`s (a
 * delegate call, an MTU update, a service list, an operation completion).
 * `GattCallback.OnPeripheralEvent` performs that list on the peripheral
 * object and is proved to leave it as `ApplyEffects` says.
 */
module GattCallbacks {
  import opened Wrappers
  import opened Uuids
  import opened Gatt
  import opened Peripherals
  import opened Central

  /** A `BluetoothGattCallback` event other than a connection-state change, for one device. */
  datatype GattEvent =
    | ServicesDiscovered(services: seq<CBUuid>, status: int)
    | CharacteristicRead(characteristic: Characteristic, value: Bytes, status: int)
    | CharacteristicWrite(characteristic: Characteristic, status: int)
    | DescriptorRead(descriptor: Descriptor, value: Bytes, status: int)
    | DescriptorWrite(descriptor: Descriptor, status: int)
    | CharacteristicChanged(characteristic: Characteristic, value: Bytes)
    | ReadRemoteRssi(rssi: int, status: int)
    | MtuChanged(mtu: int, status: int)

  /** One step of handling an event on a peripheral. */
  datatype Effect =
    | Notify(callback: PeripheralCallback)
    | SetMtu(mtu: int)
    | SetServices(services: seq<CBUuid>)
    | Complete

  /** The events that answer an operation the peripheral's queue waits for. */
  predicate AnswersOperation(e: GattEvent) {
    e.CharacteristicRead? || e.CharacteristicWrite? || e.DescriptorRead? || e.DescriptorWrite?
  }

  /** The delegate calls among `effects`, in order. */
  function Callbacks(effects: seq<Effect>): seq<PeripheralCallback> {
    if effects == [] then []
    else Callbacks(effects[..|effects| - 1]) + CallbackOf(Last(effects))
  }

  function CallbackOf(effect: Effect): seq<PeripheralCallback> {
    if effect.Notify? then [effect.callback] else []
  }

  /** How many completions `effects` holds. */
  function Completions(effects: seq<Effect>): nat {
    if effects == [] then 0
    else Completions(effects[..|effects| - 1]) + if Last(effects) == Complete then 1 else 0
  }

  /** Appending one effect appends its delegate call and counts its completion. */
  lemma AppendEffect(effects: seq<Effect>, effect: Effect)
    ensures Callbacks(effects + [effect]) == Callbacks(effects) + CallbackOf(effect)
    ensures Completions(effects + [effect]) == Completions(effects) + if effect == Complete then 1 else 0
  {
    assert (effects + [effect])[..|effects|] == effects;
  }

  /** An error carrying `status` when `failed`, and no error otherwise. */
  function ErrorIf(failed: bool, status: int): (error: Option<int>)
    ensures error.Some? <==> failed
    ensures error.Some? ==> error.value == status
  {
    if failed then Some(status) else None
  }

  /** A delegate call, then the completion of the operation it answers. */
  function ReportThenComplete(callback: PeripheralCallback): (effects: seq<Effect>)
    ensures Callbacks(effects) == [callback]
    ensures Completions(effects) == 1 && Last(effects) == Complete
    ensures forall i | 0 <= i < |effects| :: !effects[i].SetServices?
  {
    AppendEffect([], Notify(callback));
    AppendEffect([Notify(callback)], Complete);
    assert [] + [Notify(callback)] == [Notify(callback)];
    assert [Notify(callback)] + [Complete] == [Notify(callback), Complete];
    [Notify(callback), Complete]
  }

  /** A delegate call that answers no operation. */
  function ReportOnly(callback: PeripheralCallback): (effects: seq<Effect>)
    ensures Callbacks(effects) == [callback]
    ensures Completions(effects) == 0
    ensures forall i | 0 <= i < |effects| :: !effects[i].SetServices?
  {
    AppendEffect([], Notify(callback));
    assert [] + [Notify(callback)] == [Notify(callback)];
    [Notify(callback)]
  }

  // ---------------------------------------------------------------------------
  // Routing, one handler at a time
  // ---------------------------------------------------------------------------

  /** `onServicesDiscovered`: on success the list is stored before the delegate hears of it. */
  function RouteServicesDiscovered(services: seq<CBUuid>, status: int): (effects: seq<Effect>)
    ensures Callbacks(effects) == [DidDiscoverServices(ErrorIf(status != GATT_SUCCESS, status))]
    ensures Completions(effects) == 0
    ensures SetServices(services) in effects <==> status == GATT_SUCCESS
    ensures forall i | 0 <= i < |effects| :: effects[i].SetServices? ==> effects[i] == SetServices(services) && i == 0
  {
    if status == GATT_SUCCESS then
      AppendEffect([], SetServices(services));
      AppendEffect([SetServices(services)], Notify(DidDiscoverServices(None)));
      assert [] + [SetServices(services)] == [SetServices(services)];
      assert [SetServices(services)] + [Notify(DidDiscoverServices(None))]
          == [SetServices(services), Notify(DidDiscoverServices(None))];
      [SetServices(services), Notify(DidDiscoverServices(None))]
    else ReportOnly(DidDiscoverServices(Some(status)))
  }

  /**
   * `handleCharacteristicRead`: the value goes to the delegate, with an error
   * only for status 241; the read is complete either way.
   */
  function RouteCharacteristicRead(c: Characteristic, value: Bytes, status: int): (effects: seq<Effect>)
    ensures Callbacks(effects) == [DidUpdateValueForCharacteristic(c, value, ErrorIf(status == APPLE_GENERAL_ERROR, status))]
    ensures Completions(effects) == 1 && Last(effects) == Complete
  {
    if status == APPLE_GENERAL_ERROR then ReportThenComplete(DidUpdateValueForCharacteristic(c, value, Some(status)))
    else ReportThenComplete(DidUpdateValueForCharacteristic(c, value, None))
  }

  /** `onCharacteristicWrite`: an error for every status but success; complete either way. */
  function RouteCharacteristicWrite(c: Characteristic, status: int): (effects: seq<Effect>)
    ensures Callbacks(effects) == [DidWriteValueForCharacteristic(c, ErrorIf(status != GATT_SUCCESS, status))]
    ensures Completions(effects) == 1 && Last(effects) == Complete
  {
    if status == GATT_SUCCESS then ReportThenComplete(DidWriteValueForCharacteristic(c, None))
    else ReportThenComplete(DidWriteValueForCharacteristic(c, Some(status)))
  }

  /**
   * `handleDescriptorRead`. A failed read is reported for any descriptor but
   * the CCCD. A CCCD read reports notifying exactly when the value is the
   * enable-notification value. Any other descriptor reports its value.
   * Complete in every case.
   */
  function RouteDescriptorRead(d: Descriptor, value: Bytes, status: int): (effects: seq<Effect>)
    ensures status != GATT_SUCCESS && IsCccd(d) ==> Callbacks(effects) == []
    ensures status != GATT_SUCCESS && !IsCccd(d) ==>
      Callbacks(effects) == [DidUpdateValueForDescriptor(d, None, Some(status))]
    ensures status == GATT_SUCCESS && IsCccd(d) ==>
      Callbacks(effects) == [DidUpdateNotificationState(d.characteristic, value == ENABLE_NOTIFICATION_VALUE)]
    ensures status == GATT_SUCCESS && !IsCccd(d) ==>
      Callbacks(effects) == [DidUpdateValueForDescriptor(d, Some(value), None)]
    ensures Completions(effects) == 1 && Last(effects) == Complete
  {
    if status != GATT_SUCCESS then
      if d.uuid != CCCD_UUID then ReportThenComplete(DidUpdateValueForDescriptor(d, None, Some(status)))
      else assert [Complete][..0] == []; [Complete]
    else if d.uuid == CCCD_UUID then
      if value == ENABLE_NOTIFICATION_VALUE then ReportThenComplete(DidUpdateNotificationState(d.characteristic, true))
      else ReportThenComplete(DidUpdateNotificationState(d.characteristic, false))
    else ReportThenComplete(DidUpdateValueForDescriptor(d, Some(value), None))
  }

  /**
   * `onDescriptorWrite`. A failed CCCD write is reported as a failed write
   * of its characteristic, and any other failed write as a failed descriptor
   * write. A successful CCCD write reports notifying, whatever value was
   * written. Complete in every case.
   */
  function RouteDescriptorWrite(d: Descriptor, status: int): (effects: seq<Effect>)
    ensures status != GATT_SUCCESS && IsCccd(d) ==>
      Callbacks(effects) == [DidWriteValueForCharacteristic(d.characteristic, Some(status))]
    ensures status != GATT_SUCCESS && !IsCccd(d) ==>
      Callbacks(effects) == [DidWriteValueForDescriptor(d, Some(status))]
    ensures status == GATT_SUCCESS && IsCccd(d) ==>
      Callbacks(effects) == [DidUpdateNotificationState(d.characteristic, true)]
    ensures status == GATT_SUCCESS && !IsCccd(d) ==>
      Callbacks(effects) == [DidWriteValueForDescriptor(d, None)]
    ensures Completions(effects) == 1 && Last(effects) == Complete
  {
    if status != GATT_SUCCESS then
      if d.uuid == CCCD_UUID then ReportThenComplete(DidWriteValueForCharacteristic(d.characteristic, Some(status)))
      else ReportThenComplete(DidWriteValueForDescriptor(d, Some(status)))
    else if d.uuid == CCCD_UUID then ReportThenComplete(DidUpdateNotificationState(d.characteristic, true))
    else ReportThenComplete(DidWriteValueForDescriptor(d, None))
  }

  /** Any route's `Effect` list. */
  function Route(e: GattEvent): (effects: seq<Effect>)
    ensures AnswersOperation(e) ==> Completions(effects) == 1 && Last(effects) == Complete
    ensures !AnswersOperation(e) ==> Completions(effects) == 0
    ensures |Callbacks(effects)| <= 1
    ensures e.ServicesDiscovered? && e.status == GATT_SUCCESS ==> |effects| > 0 && effects[0] == SetServices(e.services)
    ensures forall i | 0 <= i < |effects| :: effects[i].SetServices? ==>
      e.ServicesDiscovered? && e.status == GATT_SUCCESS && i == 0
  {
    match e
    case ServicesDiscovered(services, status) => RouteServicesDiscovered(services, status)
    case CharacteristicRead(c, value, status) => RouteCharacteristicRead(c, value, status)
    case CharacteristicWrite(c, status) => RouteCharacteristicWrite(c, status)
    case DescriptorRead(d, value, status) => RouteDescriptorRead(d, value, status)
    case DescriptorWrite(d, status) => RouteDescriptorWrite(d, status)
    case CharacteristicChanged(c, value) =>
      // `handleCharacteristicChanged`: a notification; no operation was waiting for it
      ReportOnly(DidUpdateValueForCharacteristic(c, value, None))
    case ReadRemoteRssi(rssi, status) =>
      // `onReadRemoteRssi`: the value, with an error for every status but success
      if status == GATT_SUCCESS then ReportOnly(DidReadRssi(rssi, None))
      else ReportOnly(DidReadRssi(rssi, Some(status)))
    case MtuChanged(mtu, status) =>
      // `onMtuChanged`: the new MTU is kept only on success
      if status == GATT_SUCCESS then assert [SetMtu(mtu)][..0] == []; [SetMtu(mtu)] else []
  }

  // ---------------------------------------------------------------------------
  // Performing the effects on a peripheral, as a function on its state
  // ---------------------------------------------------------------------------

  function ApplyEffect(v: PeripheralView, effect: Effect, hasGatt: bool, accepts: GattOperation -> bool): PeripheralView {
    match effect
    case Notify(callback) => v.(delivered := v.delivered + [callback])
    case SetMtu(mtu) => v.(mtu := mtu)
    case SetServices(services) => v.(discoveredServices := Some(services))
    case Complete => v.(queue := ProcessNext(v.queue, hasGatt, accepts))
  }

  function ApplyEffects(v: PeripheralView, effects: seq<Effect>, hasGatt: bool, accepts: GattOperation -> bool): PeripheralView {
    if effects == [] then v
    else ApplyEffect(ApplyEffects(v, effects[..|effects| - 1], hasGatt, accepts), Last(effects), hasGatt, accepts)
  }

  /** The delegate hears exactly the routed callbacks, in order; the connection state never changes. */
  lemma {:induction false} ApplyEffectsDelivers(v: PeripheralView, effects: seq<Effect>, hasGatt: bool,
                                                accepts: GattOperation -> bool)
    ensures ApplyEffects(v, effects, hasGatt, accepts).delivered == v.delivered + Callbacks(effects)
    ensures ApplyEffects(v, effects, hasGatt, accepts).state == v.state
    decreases |effects|
  {
    if effects != [] {
      ApplyEffectsDelivers(v, effects[..|effects| - 1], hasGatt, accepts);
    }
  }

  /** Effects without a completion leave the queue alone. */
  lemma {:induction false} ApplyEffectsWithoutCompletion(v: PeripheralView, effects: seq<Effect>, hasGatt: bool,
                                                         accepts: GattOperation -> bool)
    requires Completions(effects) == 0
    ensures ApplyEffects(v, effects, hasGatt, accepts).queue == v.queue
    decreases |effects|
  {
    if effects != [] {
      ApplyEffectsWithoutCompletion(v, effects[..|effects| - 1], hasGatt, accepts);
    }
  }

  /** Effects ending in their only completion advance the queue exactly once. */
  lemma ApplyEffectsCompletingOnce(v: PeripheralView, effects: seq<Effect>, hasGatt: bool,
                                   accepts: GattOperation -> bool)
    requires Completions(effects) == 1 && effects != [] && Last(effects) == Complete
    ensures ApplyEffects(v, effects, hasGatt, accepts).queue == ProcessNext(v.queue, hasGatt, accepts)
  {
    ApplyEffectsWithoutCompletion(v, effects[..|effects| - 1], hasGatt, accepts);
  }

  /**
   * An event answering a queued operation moves the queue on exactly once;
   * every other event leaves it alone. Either way the queue invariant holds
   * afterwards.
   */
  lemma RouteAdvancesQueue(v: PeripheralView, e: GattEvent, hasGatt: bool, accepts: GattOperation -> bool)
    ensures AnswersOperation(e) ==>
      ApplyEffects(v, Route(e), hasGatt, accepts).queue == ProcessNext(v.queue, hasGatt, accepts)
    ensures !AnswersOperation(e) ==> ApplyEffects(v, Route(e), hasGatt, accepts).queue == v.queue
    ensures QueueInvariant(v.queue, hasGatt) ==>
      QueueInvariant(ApplyEffects(v, Route(e), hasGatt, accepts).queue, hasGatt)
  {
    if AnswersOperation(e) {
      ApplyEffectsCompletingOnce(v, Route(e), hasGatt, accepts);
    } else {
      ApplyEffectsWithoutCompletion(v, Route(e), hasGatt, accepts);
    }
  }

  /** Only the effects list of a successful MTU exchange changes the MTU, to the value it carries. */
  lemma {:induction false} ApplyEffectsMtu(v: PeripheralView, effects: seq<Effect>, hasGatt: bool,
                                           accepts: GattOperation -> bool)
    requires forall i | 0 <= i < |effects| :: !effects[i].SetMtu?
    ensures ApplyEffects(v, effects, hasGatt, accepts).mtu == v.mtu
    decreases |effects|
  {
    if effects != [] {
      ApplyEffectsMtu(v, effects[..|effects| - 1], hasGatt, accepts);
    }
  }

  /** The MTU changes only on a successful exchange, and then to the exchanged value. */
  lemma RouteUpdatesMtuOnSuccess(v: PeripheralView, e: GattEvent, hasGatt: bool, accepts: GattOperation -> bool)
    ensures ApplyEffects(v, Route(e), hasGatt, accepts).mtu ==
      if e.MtuChanged? && e.status == GATT_SUCCESS then e.mtu else v.mtu
  {
    if !(e.MtuChanged? && e.status == GATT_SUCCESS) {
      ApplyEffectsMtu(v, Route(e), hasGatt, accepts);
    } else {
      assert Route(e) == [SetMtu(e.mtu)];
    }
  }

  /** Effects without a service list leave the discovered services alone. */
  lemma {:induction false} ApplyEffectsServices(v: PeripheralView, effects: seq<Effect>, hasGatt: bool,
                                                accepts: GattOperation -> bool)
    requires forall i | 0 <= i < |effects| :: !effects[i].SetServices?
    ensures ApplyEffects(v, effects, hasGatt, accepts).discoveredServices == v.discoveredServices
    decreases |effects|
  {
    if effects != [] {
      ApplyEffectsServices(v, effects[..|effects| - 1], hasGatt, accepts);
    }
  }

  /** The discovered services change only on a successful discovery, and then to the list discovered. */
  lemma RouteStoresServicesOnSuccess(v: PeripheralView, e: GattEvent, hasGatt: bool, accepts: GattOperation -> bool)
    ensures ApplyEffects(v, Route(e), hasGatt, accepts).discoveredServices ==
      if e.ServicesDiscovered? && e.status == GATT_SUCCESS then Some(e.services) else v.discoveredServices
  {
    var effects := Route(e);
    if e.ServicesDiscovered? && e.status == GATT_SUCCESS {
      assert effects == [SetServices(e.services), Notify(DidDiscoverServices(None))];
      assert effects[..1] == [SetServices(e.services)] && effects[..1][..0] == [];
    } else {
      ApplyEffectsServices(v, effects, hasGatt, accepts);
    }
  }

  // ---------------------------------------------------------------------------
  // Notification state as the CCCD says it
  // ---------------------------------------------------------------------------

  /** A CCCD value with notifications or indications switched on. */
  predicate CccdEnabled(v: Bytes) {
    |v| == 2 && (NotificationsBit(v) || IndicationsBit(v))
  }

  /** The value `setNotifyValue` writes is enabled exactly when it was asked to enable. */
  lemma CccdValueEnabled(enabled: bool, properties: bv32)
    ensures CccdEnabled(CccdValue(enabled, properties)) == enabled
  {
  }

  /**
   * A successful CCCD write of the value `setNotifyValue(false, …)` writes is
   * still reported as notifying.
   */
  lemma DisableReportedAsNotifying(d: Descriptor, properties: bv32)
    requires IsCccd(d)
    ensures !CccdEnabled(CccdValue(false, properties))
    ensures Callbacks(RouteDescriptorWrite(d, GATT_SUCCESS)) == [DidUpdateNotificationState(d.characteristic, true)]
  {
  }

  /** A successful read of a CCCD holding the indication value is reported as not notifying. */
  lemma IndicationReportedAsNotNotifying(d: Descriptor)
    requires IsCccd(d)
    ensures CccdEnabled(ENABLE_INDICATION_VALUE)
    ensures Callbacks(RouteDescriptorRead(d, ENABLE_INDICATION_VALUE, GATT_SUCCESS)) ==
      [DidUpdateNotificationState(d.characteristic, false)]
  {
  }

  /**
   * `onDescriptorWrite` reporting the state the written CCCD value sets
   * (`written`, the value of the operation being answered); otherwise as
   * `RouteDescriptorWrite`.
   */
  function RouteDescriptorWriteReporting(d: Descriptor, written: Bytes, status: int): (effects: seq<Effect>)
    ensures status == GATT_SUCCESS && IsCccd(d) ==>
      Callbacks(effects) == [DidUpdateNotificationState(d.characteristic, CccdEnabled(written))]
    ensures !(status == GATT_SUCCESS && IsCccd(d)) ==> effects == RouteDescriptorWrite(d, status)
    ensures Completions(effects) == 1 && Last(effects) == Complete
  {
    if status == GATT_SUCCESS && d.uuid == CCCD_UUID then
      ReportThenComplete(DidUpdateNotificationState(d.characteristic, CccdEnabled(written)))
    else RouteDescriptorWrite(d, status)
  }

  /** `handleDescriptorRead` counting indications as notifying; otherwise as `RouteDescriptorRead`. */
  function RouteDescriptorReadReporting(d: Descriptor, value: Bytes, status: int): (effects: seq<Effect>)
    ensures status == GATT_SUCCESS && IsCccd(d) ==>
      Callbacks(effects) == [DidUpdateNotificationState(d.characteristic, CccdEnabled(value))]
    ensures !(status == GATT_SUCCESS && IsCccd(d)) ==> effects == RouteDescriptorRead(d, value, status)
    ensures Completions(effects) == 1 && Last(effects) == Complete
  {
    if status == GATT_SUCCESS && d.uuid == CCCD_UUID then
      ReportThenComplete(DidUpdateNotificationState(d.characteristic, CccdEnabled(value)))
    else RouteDescriptorRead(d, value, status)
  }

  /**
   * With the corrected routes, switching notifications on or off and then
   * reading the CCCD back both report the state that was asked for.
   */
  lemma ReportedStateFollowsRequest(d: Descriptor, enabled: bool)
    requires IsCccd(d)
    ensures var written := CccdValue(enabled, d.characteristic.properties);
      && Callbacks(RouteDescriptorWriteReporting(d, written, GATT_SUCCESS)) ==
           [DidUpdateNotificationState(d.characteristic, enabled)]
      && Callbacks(RouteDescriptorReadReporting(d, written, GATT_SUCCESS)) ==
           [DidUpdateNotificationState(d.characteristic, enabled)]
  {
    CccdValueEnabled(enabled, d.characteristic.properties);
  }

  // ---------------------------------------------------------------------------
  // The callback object
  // ---------------------------------------------------------------------------

  class GattCallback {
    const central: CentralManager
    /** The calls made on the central manager's delegate, in order. */
    ghost var centralCalls: seq<CentralCallback>

    /** The registry is consistent and every registered peripheral's queue keeps its invariant. */
    ghost predicate Valid()
      reads this, central, central.connectedPeripherals.Values
    {
      && central.Valid()
      && forall p | p in central.connectedPeripherals.Values :: p.Valid()
    }

    constructor (central: CentralManager)
      requires central.Valid() && central.connectedPeripherals == map[]
      ensures this.central == central && centralCalls == []
      ensures Valid()
    {
      this.central := central;
      centralCalls := [];
    }

    /**
     * `getOrCreatePeripheral(for:)`: the registered peripheral of the
     * address, or a new one for this connection, registered under it.
     */
    method GetOrCreatePeripheral(handle: GattHandle, address: Address, identifier: Uuid, name: Option<string>)
      returns (p: Peripheral)
      requires Valid()
      modifies central
      ensures Valid()
      ensures old(central.GetPeripheral(address)).Some? ==>
        p == old(central.GetPeripheral(address)).value && unchanged(central)
      ensures old(central.GetPeripheral(address)).None? ==>
        && fresh(p) && p.address == address && p.gatt == Some(handle) && p.identifier == identifier
        && p.View() == PeripheralView(Disconnected, DEFAULT_MTU, QueueState([], false, [], []), [], None)
        && central.connectedPeripherals == old(central.connectedPeripherals)[address := p]
        && central.connectedDeviceAddresses == old(central.connectedDeviceAddresses)
        && central.connectedGatts == old(central.connectedGatts)
        && central.transport == old(central.transport)
      ensures central.GetPeripheral(address) == Some(p)
    {
      var existing := central.GetPeripheral(address);
      if existing.Some? {
        return existing.value;
      }
      p := new Peripheral.FromGatt(handle, address, identifier, name, central.gattDelegate);
      central.RegisterConnectedPeripheral(p, address);
    }

    /**
     * `onConnectionStateChange`. A successful connect registers the
     * peripheral (if it is new) and reports it connected. A successful
     * change to any other state forgets the device and reports it
     * disconnected. A failure forgets the device and reports the status.
     */
    method OnConnectionStateChange(handle: GattHandle, address: Address, identifier: Uuid, name: Option<string>,
                                   status: int, newState: int)
      requires Valid()
      modifies this, central
      ensures Valid()
      ensures status == GATT_SUCCESS && newState == STATE_CONNECTED ==>
        && centralCalls == old(centralCalls) + [DidConnect(address)]
        && central.GetPeripheral(address).Some?
        && central.connectedDeviceAddresses == old(central.connectedDeviceAddresses)
        && central.connectedGatts == old(central.connectedGatts)
        && central.transport == old(central.transport)
        && (old(central.GetPeripheral(address)).Some? ==>
              central.connectedPeripherals == old(central.connectedPeripherals))
        && (old(central.GetPeripheral(address)).None? ==>
              var p := central.connectedPeripherals[address];
              && fresh(p) && p.gatt == Some(handle) && p.identifier == identifier
              && p.View() == PeripheralView(Disconnected, DEFAULT_MTU, QueueState([], false, [], []), [], None)
              && central.connectedPeripherals == old(central.connectedPeripherals)[address := p])
      ensures !(status == GATT_SUCCESS && newState == STATE_CONNECTED) ==>
        && centralCalls == old(centralCalls) +
             [if status == GATT_SUCCESS then DidDisconnect(address) else DidFailToConnect(address, status)]
        && central.connectedDeviceAddresses == old(central.connectedDeviceAddresses) - {address}
        && central.connectedGatts == old(central.connectedGatts) - {address}
        && central.connectedPeripherals == old(central.connectedPeripherals) - {address}
        && central.transport == old(central.transport) +
             if address in old(central.connectedGatts)
             then [Disconnect(old(central.connectedGatts)[address]), Close(old(central.connectedGatts)[address])]
             else []
    {
      if status == GATT_SUCCESS {
        if newState == STATE_CONNECTED {
          var _ := GetOrCreatePeripheral(handle, address, identifier, name);
          centralCalls := centralCalls + [DidConnect(address)];
        } else {
          ghost var order := central.ClearConnectedDevice(Some(address));
          centralCalls := centralCalls + [DidDisconnect(address)];
        }
      } else {
        ghost var order := central.ClearConnectedDevice(Some(address));
        centralCalls := centralCalls + [DidFailToConnect(address, status)];
      }
    }

    /**
     * Any other GATT event: routed to the registered peripheral of `address`,
     * whose state becomes what `ApplyEffects` says; the manager's shared
     * service list is replaced on a successful discovery. Nothing happens
     * for an address without a registered peripheral.
     */
    method OnPeripheralEvent(address: Address, e: GattEvent, accepts: GattOperation -> bool)
      requires Valid()
      modifies central.gattDelegate,
        if address in central.connectedPeripherals then {central.connectedPeripherals[address]} else {}
      ensures Valid()
      ensures address !in central.connectedPeripherals ==> unchanged(central.gattDelegate)
      ensures address in central.connectedPeripherals ==>
        var p := central.connectedPeripherals[address];
        && p.View() == ApplyEffects(old(p.View()), Route(e), p.gatt.Some?, accepts)
        && central.gattDelegate.services ==
             if e.ServicesDiscovered? && e.status == GATT_SUCCESS then Some(e.services)
             else old(central.gattDelegate.services)
    {
      if address !in central.connectedPeripherals {
        return;
      }
      var p := central.connectedPeripherals[address];
      PerformRoute(p, e, accepts);
    }

    /** The effects `Route` gives for `e`, performed in order on `p`. */
    method PerformRoute(p: Peripheral, e: GattEvent, accepts: GattOperation -> bool)
      requires p.Valid()
      modifies p, central.gattDelegate
      ensures p.Valid()
      ensures p.View() == ApplyEffects(old(p.View()), Route(e), p.gatt.Some?, accepts)
      ensures central.gattDelegate.services ==
        if e.ServicesDiscovered? && e.status == GATT_SUCCESS then Some(e.services)
        else old(central.gattDelegate.services)
    {
      var effects := Route(e);
      for i := 0 to |effects|
        invariant p.View() == ApplyEffects(old(p.View()), effects[..i], p.gatt.Some?, accepts)
        invariant p.Valid()
        invariant central.gattDelegate.services ==
          if e.ServicesDiscovered? && e.status == GATT_SUCCESS && i > 0 then Some(e.services)
          else old(central.gattDelegate.services)
      {
        assert effects[..i + 1][..i] == effects[..i] && Last(effects[..i + 1]) == effects[i];
        Perform(p, effects[i], accepts);
      }
      assert effects[..|effects|] == effects;
    }

    /** One effect on a peripheral, as `ApplyEffect` says; a service list also replaces the shared one. */
    method Perform(p: Peripheral, effect: Effect, accepts: GattOperation -> bool)
      requires p.Valid()
      modifies p, central.gattDelegate
      ensures p.Valid()
      ensures p.View() == ApplyEffect(old(p.View()), effect, p.gatt.Some?, accepts)
      ensures central.gattDelegate.services ==
        if effect.SetServices? then Some(effect.services) else old(central.gattDelegate.services)
    {
      match effect
      case Notify(callback) =>
        p.Deliver(callback);
      case SetMtu(mtu) =>
        p.UpdateMtu(mtu);
      case SetServices(services) =>
        central.gattDelegate.services := Some(services);
        p.StoreServices(services);
      case Complete =>
        p.OnOperationComplete(accepts);
    }
  }
}

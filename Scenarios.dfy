/**
 * Concrete runs through the objects of the model. They show the usual
 * sequences a client of the library goes through, and the inputs that show
 * where the library departs from what it evidently means to do.
 */
module Scenarios {
  import opened Wrappers
  import opened Uuids
  import opened Gatt
  import opened Peripherals
  import opened Central
  import opened GattCallbacks

  /** The 16-bit Heart Rate and Battery service types have different `uuidString`s. */
  lemma HeartRateIsNotBattery(f: Uuid)
    ensures UuidString(FromString("180D", f)) == "180D"
    ensures UuidString(FromString("180F", f)) == "180F"
    ensures !Equal(FromString("180D", f), FromString("180F", f))
  {
    HeartRateAndBatteryDigits();
    ShortFormReportedAsIs("180D", f);
    ShortFormReportedAsIs("180F", f);
  }

  lemma HeartRateAndBatteryDigits()
    ensures AllHex("180D") && NoLowercase("180D") && AllHex("180F") && NoLowercase("180F")
    ensures "180D" != "180F"
  {
    assert "180D"[3] != "180F"[3];
  }

  /** An upper-case short form reports itself. */
  lemma ShortFormReportedAsIs(s: string, f: Uuid)
    requires (|s| == 4 || |s| == 8) && AllHex(s) && NoLowercase(s)
    ensures UuidString(FromString(s, f)) == s
  {
    UpperOfNoLowercase(s);
    ShortFormReported(s, f);
  }

  /** A new manager with one device connected through its callback object. */
  method ConnectOne(address: Address, identifier: Uuid, handle: GattHandle)
    returns (central: CentralManager, callback: GattCallback, p: Peripheral)
    ensures fresh(central) && fresh(central.gattDelegate) && fresh(callback) && fresh(p)
    ensures callback.central == central && callback.Valid()
    ensures central.connectedPeripherals == map[address := p]
    ensures p.address == address && p.gatt == Some(handle) && p.gattDelegate == Some(central.gattDelegate)
    ensures p.View() == PeripheralView(Disconnected, DEFAULT_MTU, QueueState([], false, [], []), [], None)
    ensures central.gattDelegate.services == None
    ensures callback.centralCalls == [DidConnect(address)]
  {
    central := new CentralManager();
    callback := new GattCallback(central);
    callback.OnConnectionStateChange(handle, address, identifier, None, GATT_SUCCESS, STATE_CONNECTED);
    p := central.connectedPeripherals[address];
  }

  /**
   * The view of a peripheral just created for a new connection. Its `state`
   * stays `Disconnected`: no state watcher is registered for it, so nothing
   * moves the reported state on.
   */
  function JustConnected(): (v: PeripheralView)
    ensures QueueInvariant(v.queue, true) && !v.queue.busy
  {
    PeripheralView(Disconnected, DEFAULT_MTU, QueueState([], false, [], []), [], None)
  }

  /** A request queued on a connected peripheral. */
  function Request(v: PeripheralView, op: GattOperation, accepts: GattOperation -> bool): PeripheralView {
    v.(queue := Enqueue(v.queue, op, true, accepts))
  }

  /** A GATT event handled for a connected peripheral. */
  function Answer(v: PeripheralView, e: GattEvent, accepts: GattOperation -> bool): PeripheralView {
    ApplyEffects(v, Route(e), true, accepts)
  }

  /**
   * A read, then a write with response queued while the read is awaited: the
   * write reaches the transport only once the read is answered, the
   * delegate hears the two answers in order, and the queue ends idle.
   */
  lemma ReadThenWrite(c: Characteristic, data: Bytes, value: Bytes, accepts: GattOperation -> bool)
    requires accepts(ReadCharacteristic(c))
    ensures var read := ReadCharacteristic(c);
      var write := WriteCharacteristic(c, data, WithResponse);
      var v1 := Request(JustConnected(), read, accepts);
      var v2 := Request(v1, write, accepts);
      var v3 := Answer(v2, CharacteristicRead(c, value, GATT_SUCCESS), accepts);
      var v4 := Answer(v3, CharacteristicWrite(c, GATT_SUCCESS), accepts);
      && v1.queue.issued == [read] && v1.queue.busy
      && v2.queue.issued == [read] && v2.queue.queue == [write]
      && v3.queue.issued == [read, write] && v3.queue.busy
      && v4.queue.issued == [read, write] && !v4.queue.busy
      && v4.delivered == [DidUpdateValueForCharacteristic(c, value, None), DidWriteValueForCharacteristic(c, None)]
  {
    var read := ReadCharacteristic(c);
    var write := WriteCharacteristic(c, data, WithResponse);
    ReadQueuedThenWrite(c, data, accepts);
    var v2 := Request(Request(JustConnected(), read, accepts), write, accepts);
    ReadAnswered(v2, c, data, value, accepts);
    var v3 := Answer(v2, CharacteristicRead(c, value, GATT_SUCCESS), accepts);
    WriteAnswered(v3, c, data, value, accepts);
  }

  /** The read is issued at once; the write queued behind it waits. */
  lemma ReadQueuedThenWrite(c: Characteristic, data: Bytes, accepts: GattOperation -> bool)
    requires accepts(ReadCharacteristic(c))
    ensures var read := ReadCharacteristic(c);
      var write := WriteCharacteristic(c, data, WithResponse);
      var v1 := Request(JustConnected(), read, accepts);
      var v2 := Request(v1, write, accepts);
      && v1.queue.issued == [read] && v1.queue.busy
      && v2.queue.issued == [read] && v2.queue.queue == [write] && v2.queue.busy
      && v2.delivered == []
  {
    var v0 := JustConnected();
    EnqueueWhenIdle(v0.queue, ReadCharacteristic(c), accepts);
    var v1 := Request(v0, ReadCharacteristic(c), accepts);
    EnqueueWhenBusy(v1.queue, WriteCharacteristic(c, data, WithResponse), true, accepts);
  }

  /** The read's answer is delivered and hands the waiting write to the transport. */
  lemma ReadAnswered(v2: PeripheralView, c: Characteristic, data: Bytes, value: Bytes, accepts: GattOperation -> bool)
    requires v2.queue.issued == [ReadCharacteristic(c)] && v2.queue.busy
    requires v2.queue.queue == [WriteCharacteristic(c, data, WithResponse)] && v2.delivered == []
    ensures var v3 := Answer(v2, CharacteristicRead(c, value, GATT_SUCCESS), accepts);
      && v3.queue.issued == [ReadCharacteristic(c), WriteCharacteristic(c, data, WithResponse)]
      && v3.queue.busy && v3.queue.queue == []
      && v3.delivered == [DidUpdateValueForCharacteristic(c, value, None)]
  {
    var write := WriteCharacteristic(c, data, WithResponse);
    var answer := CharacteristicRead(c, value, GATT_SUCCESS);
    RouteAdvancesQueue(v2, answer, true, accepts);
    ApplyEffectsDelivers(v2, Route(answer), true, accepts);
    assert [write][1..] == [] && Drain([], true, accepts) == Drained([], [], false);
  }

  /** The write's answer is delivered and leaves the queue idle. */
  lemma WriteAnswered(v3: PeripheralView, c: Characteristic, data: Bytes, value: Bytes, accepts: GattOperation -> bool)
    requires v3.queue.issued == [ReadCharacteristic(c), WriteCharacteristic(c, data, WithResponse)]
    requires v3.queue.busy && v3.queue.queue == []
    requires v3.delivered == [DidUpdateValueForCharacteristic(c, value, None)]
    ensures var v4 := Answer(v3, CharacteristicWrite(c, GATT_SUCCESS), accepts);
      && v4.queue.issued == v3.queue.issued && !v4.queue.busy
      && v4.delivered == [DidUpdateValueForCharacteristic(c, value, None), DidWriteValueForCharacteristic(c, None)]
  {
    var written := CharacteristicWrite(c, GATT_SUCCESS);
    RouteAdvancesQueue(v3, written, true, accepts);
    ApplyEffectsDelivers(v3, Route(written), true, accepts);
  }

  /**
   * Switching notifications off: the disable value is written to the CCCD,
   * and its successful write is reported to the delegate as notifying.
   */
  lemma DisableNotifications(c: Characteristic, accepts: GattOperation -> bool)
    ensures var cccd := Descriptor(CCCD_UUID, c);
      var op := WriteDescriptor(cccd, CccdValue(false, c.properties));
      var v1 := Request(JustConnected(), op, accepts);
      var v2 := Answer(v1, DescriptorWrite(cccd, GATT_SUCCESS), accepts);
      && op == WriteDescriptor(cccd, DISABLE_NOTIFICATION_VALUE)
      && v1.queue.issued == [op] && v1.queue.busy
      && v2.queue.issued == [op] && !v2.queue.busy
      && v2.delivered == [DidUpdateNotificationState(c, true)]
  {
    var cccd := Descriptor(CCCD_UUID, c);
    var op := WriteDescriptor(cccd, CccdValue(false, c.properties));
    var v0 := JustConnected();
    EnqueueWhenIdle(v0.queue, op, accepts);
    var v1 := Request(v0, op, accepts);
    var answer := DescriptorWrite(cccd, GATT_SUCCESS);
    RouteAdvancesQueue(v1, answer, true, accepts);
    ApplyEffectsDelivers(v1, Route(answer), true, accepts);
    assert Drain([], true, accepts) == Drained([], [], false);
  }

  /**
   * Two devices whose discoveries found different services (Heart Rate 180D
   * and Battery 180F, say: `HeartRateIsNotBattery`). Asking for the first
   * service finds neither device: both peripherals read the list of the
   * later discovery. Asking each peripheral's own list finds the first.
   */
  method SharedServicesLost(heartRate: CBUuid, battery: CBUuid, idA: Uuid, idB: Uuid)
    returns (asWritten: seq<Peripheral>, perDevice: seq<Peripheral>, deviceA: Peripheral)
    requires !Equal(battery, heartRate)
    ensures asWritten == []
    ensures deviceA in perDevice && forall k | 0 <= k < |perDevice| :: perDevice[k] == deviceA
    ensures deviceA.discoveredServices == Some([heartRate])
  {
    var central, callback, deviceB;
    central, callback, deviceA, deviceB := ConnectTwo(idA, idB);
    Discover(callback, "A", deviceA, [heartRate]);
    Discover(callback, "B", deviceB, [battery]);

    asWritten := central.RetrieveConnectedPeripherals([heartRate]);
    assert !OffersAny(Some([battery]), [heartRate]);

    perDevice := central.RetrieveConnectedPeripheralsPerDevice([heartRate]);
    OnlyFirstOffers(deviceA, deviceB, heartRate, battery, perDevice);
  }

  /** Two devices "A" and "B" connected through one manager. */
  method ConnectTwo(idA: Uuid, idB: Uuid)
    returns (central: CentralManager, callback: GattCallback, a: Peripheral, b: Peripheral)
    ensures fresh(central) && fresh(central.gattDelegate) && fresh(callback) && fresh(a) && fresh(b)
    ensures callback.central == central && callback.Valid()
    ensures central.connectedPeripherals == map["A" := a, "B" := b] && a != b
    ensures a.gatt.Some? && b.gatt.Some?
  {
    central, callback, a := ConnectOne("A", idA, GattHandle(1));
    callback.OnConnectionStateChange(GattHandle(2), "B", idB, None, GATT_SUCCESS, STATE_CONNECTED);
    b := central.connectedPeripherals["B"];
  }

  /** A successful discovery on a registered device. */
  method Discover(callback: GattCallback, address: Address, p: Peripheral, services: seq<CBUuid>)
    requires callback.Valid() && address in callback.central.connectedPeripherals
    requires callback.central.connectedPeripherals[address] == p
    modifies p, callback.central.gattDelegate
    ensures callback.Valid()
    ensures p.discoveredServices == Some(services)
    ensures callback.central.gattDelegate.services == Some(services)
  {
    var accepts := (op: GattOperation) => true;
    var e := ServicesDiscovered(services, GATT_SUCCESS);
    RouteStoresServicesOnSuccess(p.View(), e, p.gatt.Some?, accepts);
    callback.OnPeripheralEvent(address, e, accepts);
  }

  /** Of two peripherals, only the first offers the service: a selection by own services is the first alone. */
  lemma OnlyFirstOffers(a: Peripheral, b: Peripheral, wanted: CBUuid, other: CBUuid, r: seq<Peripheral>)
    requires a.discoveredServices == Some([wanted]) && b.discoveredServices == Some([other])
    requires !Equal(other, wanted)
    requires forall p :: p in r <==> p in {a, b} && OffersAny(p.discoveredServices, [wanted])
    ensures a in r && forall k | 0 <= k < |r| :: r[k] == a
  {
    assert Equal(wanted, [wanted][0]);
    assert InFilter(a.discoveredServices.value[0], [wanted]);
    assert !OffersAny(b.discoveredServices, [wanted]);
    assert a in r;
    forall k | 0 <= k < |r|
      ensures r[k] == a
    {
      assert r[k] in r;
    }
  }

  /**
   * Bond-state broadcasts for one device: bonding in progress is ignored, and
   * of two "bonded" broadcasts only the first connects.
   */
  method RepeatedBondBroadcast(handle: GattHandle) returns (central: CentralManager)
    ensures central.transport == [ConnectGatt("A")]
    ensures central.connectedDeviceAddresses == {"A"} && central.connectedGatts == map["A" := handle]
  {
    central := new CentralManager();
    var bonding := Some(Intent(Some(ACTION_BOND_STATE_CHANGED), Some("A"), BOND_BONDING));
    var bonded := Some(Intent(Some(ACTION_BOND_STATE_CHANGED), Some("A"), BOND_BONDED));
    central.OnBondStateChanged(bonding, Some(handle));
    central.OnBondStateChanged(bonded, Some(handle));
    central.OnBondStateChanged(bonded, Some(handle));
  }

  /** After a cancelled connection the device is no longer tracked, so connecting to it calls the transport again. */
  method CancelThenReconnect(central: CentralManager, peripheral: Peripheral, handle: GattHandle)
    requires central.Valid()
    modifies central
    ensures central.Valid()
    ensures central.GetPeripheral(peripheral.address).None?
    ensures peripheral.address in central.connectedDeviceAddresses
    ensures peripheral.address in central.connectedGatts && central.connectedGatts[peripheral.address] == handle
    ensures |central.transport| > 0 && central.transport[|central.transport| - 1] == ConnectGatt(peripheral.address)
  {
    central.CancelPeripheralConnection(peripheral);
    central.Connect(peripheral, true, Some(handle));
  }

  /** Clearing twice does what clearing once does. */
  method ClearTwice(central: CentralManager, address: Option<Address>) returns (ghost order: seq<Address>)
    requires central.Valid()
    modifies central
    ensures central.Valid()
    ensures forall i | 0 <= i < |order| :: order[i] in old(central.connectedGatts)
    ensures central.transport == old(central.transport) + CloseAll(order, old(central.connectedGatts))
    ensures address.Some? ==>
      && central.connectedDeviceAddresses == old(central.connectedDeviceAddresses) - {address.value}
      && central.connectedGatts == old(central.connectedGatts) - {address.value}
      && central.connectedPeripherals == old(central.connectedPeripherals) - {address.value}
    ensures address.None? ==>
      && Enumerates(order, old(central.connectedGatts).Keys)
      && central.connectedDeviceAddresses == {} && central.connectedGatts == map[]
      && central.connectedPeripherals == map[]
  {
    order := central.ClearConnectedDevice(address);
    ghost var again := central.ClearConnectedDevice(address);
    assert again == [];
  }
}

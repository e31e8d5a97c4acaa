/**
 * The vocabulary shared by the peripheral queue, the connection registry and
 * the GATT event dispatcher: Android constants, the attribute values the
 * callbacks carry, the queued operations, and the delegate callbacks that are
 * recorded instead of being delivered.
 *
 * `BluetoothGatt` connections are uninterpreted handles; the platform's
 * `BluetoothGattCharacteristic` and `BluetoothGattDescriptor` are plain values
 * holding what the model reads from them.
 */
module Gatt {
  import opened Wrappers
  import opened Uuids

  /** A device's MAC address, the key of every registry table. */
  type Address = string

  type Bytes = seq<bv8>

  /** An open `BluetoothGatt` connection, known only by its identity. */
  datatype GattHandle = GattHandle(id: nat)

  // ---------------------------------------------------------------------------
  // Android constants
  // ---------------------------------------------------------------------------

  /** `BluetoothGatt.GATT_SUCCESS`. */
  const GATT_SUCCESS: int := 0

  /** The status Android reports for a read the peripheral rejected (Apple's general error). */
  const APPLE_GENERAL_ERROR: int := 241

  /** `BluetoothProfile.STATE_*`. */
  const STATE_DISCONNECTED: int := 0
  const STATE_CONNECTING: int := 1
  const STATE_CONNECTED: int := 2
  const STATE_DISCONNECTING: int := 3

  /** `BluetoothGattCharacteristic.PROPERTY_NOTIFY` and `PROPERTY_INDICATE`. */
  const PROPERTY_NOTIFY: bv32 := 0x10
  const PROPERTY_INDICATE: bv32 := 0x20

  /** `BluetoothGattDescriptor.*_VALUE`: the two little-endian bytes of a CCCD. */
  const ENABLE_NOTIFICATION_VALUE: Bytes := [0x01, 0x00]
  const ENABLE_INDICATION_VALUE: Bytes := [0x02, 0x00]
  const DISABLE_NOTIFICATION_VALUE: Bytes := [0x00, 0x00]

  /** The Client Characteristic Configuration descriptor, 0x2902 on the base UUID. */
  const CCCD_UUID: Uuid := BaseUuid("00002902")

  /** `BluetoothDevice.ACTION_BOND_STATE_CHANGED` and the bond states it carries. */
  const ACTION_BOND_STATE_CHANGED: string := "android.bluetooth.device.action.BOND_STATE_CHANGED"
  const BOND_NONE: int := 10
  const BOND_BONDING: int := 11
  const BOND_BONDED: int := 12
  /** `BluetoothDevice.ERROR`, the default of a missing integer extra. */
  const ERROR: int := -2147483648

  // ---------------------------------------------------------------------------
  // Attributes and operations
  // ---------------------------------------------------------------------------

  /** A characteristic: its type and its property bit mask. */
  datatype Characteristic = Characteristic(uuid: Uuid, properties: bv32)

  /** A descriptor: its type and the characteristic it belongs to. */
  datatype Descriptor = Descriptor(uuid: Uuid, characteristic: Characteristic)

  predicate IsCccd(d: Descriptor) { d.uuid == CCCD_UUID }

  /** `CBCharacteristicWriteType`, whose raw values are Android's write types. */
  datatype WriteType = WithResponse | WithoutResponse

  function WriteTypeRawValue(t: WriteType): (r: int)
    ensures r == 1 || r == 2
    ensures r == 1 <==> t == WithoutResponse
  {
    match t
    case WithResponse => 2
    case WithoutResponse => 1
  }

  /** `GattOperation`: the requests a peripheral serializes through its queue. */
  datatype GattOperation =
    | ReadCharacteristic(characteristic: Characteristic)
    | WriteCharacteristic(characteristic: Characteristic, data: Bytes, writeType: WriteType)
    | WriteDescriptor(descriptor: Descriptor, value: Bytes)
    | ReadDescriptor(descriptor: Descriptor)
    | WriteDescriptorValue(descriptor: Descriptor, value: Bytes)

  // ---------------------------------------------------------------------------
  // Delegate callbacks and transport calls, as trace entries
  // ---------------------------------------------------------------------------

  /** A `CBPeripheralDelegate` call; an error is the failing GATT status. */
  datatype PeripheralCallback =
    | DidDiscoverServices(error: Option<int>)
    | DidUpdateValueForCharacteristic(characteristic: Characteristic, value: Bytes, error: Option<int>)
    | DidWriteValueForCharacteristic(characteristic: Characteristic, error: Option<int>)
    | DidUpdateValueForDescriptor(descriptor: Descriptor, descriptorValue: Option<Bytes>, error: Option<int>)
    | DidWriteValueForDescriptor(descriptor: Descriptor, error: Option<int>)
    | DidUpdateNotificationState(characteristic: Characteristic, isNotifying: bool)
    | DidReadRssi(rssi: int, error: Option<int>)
    | DidDiscoverCharacteristics(service: CBUuid, error: Option<int>)
    | DidDiscoverDescriptors(characteristic: Characteristic, error: Option<int>)

  /** A `CBCentralManagerDelegate` call, naming the peripheral by address. */
  datatype CentralCallback =
    | DidConnect(address: Address)
    | DidDisconnect(address: Address)
    | DidFailToConnect(address: Address, status: int)

  /** A call the registry makes on the Android transport. */
  datatype TransportCall =
    | ConnectGatt(address: Address)
    | Disconnect(gatt: GattHandle)
    | Close(gatt: GattHandle)

  // ---------------------------------------------------------------------------
  // Client Characteristic Configuration values
  // ---------------------------------------------------------------------------

  /** Bit 0 of a CCCD value: notifications enabled. */
  predicate NotificationsBit(v: Bytes) requires |v| == 2 { v[0] & 0x01 != 0 }

  /** Bit 1 of a CCCD value: indications enabled. */
  predicate IndicationsBit(v: Bytes) requires |v| == 2 { v[0] & 0x02 != 0 }

  predicate SupportsIndicate(properties: bv32) { properties & PROPERTY_INDICATE != 0 }

  predicate SupportsNotify(properties: bv32) { properties & PROPERTY_NOTIFY != 0 }

  /**
   * The CCCD value `setNotifyValue` writes: when enabling, indications if the
   * characteristic supports them and notifications otherwise (even when it
   * supports neither); when disabling, both bits cleared.
   */
  function CccdValue(enabled: bool, properties: bv32): (v: Bytes)
    ensures |v| == 2 && v[1] == 0
    ensures IndicationsBit(v) <==> enabled && SupportsIndicate(properties)
    ensures NotificationsBit(v) <==> enabled && !SupportsIndicate(properties)
    ensures v in {ENABLE_NOTIFICATION_VALUE, ENABLE_INDICATION_VALUE, DISABLE_NOTIFICATION_VALUE}
  {
    if enabled then
      if SupportsIndicate(properties) then ENABLE_INDICATION_VALUE
      else if SupportsNotify(properties) then ENABLE_NOTIFICATION_VALUE
      else ENABLE_NOTIFICATION_VALUE
    else DISABLE_NOTIFICATION_VALUE
  }

  /**
   * The CCCD constant is the value of the lower-case text Android parses, and
   * the base-UUID expansion of the 16-bit form 0x2902.
   */
  lemma CccdUuidIsShortForm2902()
    ensures CCCD_UUID == Upper("00002902-0000-1000-8000-00805f9b34fb")
    ensures ExpandShortUUID(CLIENT_CHARACTERISTIC_CONFIGURATION) == Some(CCCD_UUID)
  {
    CccdTextUpper();
    CccdIsBaseExpansion();
    assert CCCD_UUID == CCCD_UUID[..8] + CCCD_UUID[8..];
  }
}

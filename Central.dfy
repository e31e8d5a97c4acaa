/**
 * CBCentralManager's connection registry: three address-keyed tables, the
 * duplicate-suppressing connect, per-address and global clearing, cancelling
 * a connection, the bond-state receiver, and the two `retrieve*` queries.
 *
 * `connectGatt` is not called: its result is the parameter `handle`, and every
 * call on the transport is appended to the ghost trace `transport`.
 */
module Central {
  import opened Wrappers
  import opened Uuids
  import opened Gatt
  import opened Peripherals

  // ---------------------------------------------------------------------------
  // Bond-state broadcasts
  // ---------------------------------------------------------------------------

  /**
   * A broadcast `Intent`: its action, its `EXTRA_DEVICE` (by address) and its
   * `EXTRA_BOND_STATE`, which reads as `ERROR` when absent.
   */
  datatype Intent = Intent(action: Option<string>, device: Option<Address>, bondState: int)

  /**
   * `BondCallback.onReceive`: the device to connect to. Only a bond-state
   * change to `BOND_BONDED` that names a device leads anywhere.
   */
  function BondTarget(intent: Option<Intent>): (r: Option<Address>)
    ensures r.Some? <==>
      && intent.Some?
      && intent.value.action == Some(ACTION_BOND_STATE_CHANGED)
      && intent.value.bondState == BOND_BONDED
      && intent.value.device.Some?
    ensures r.Some? ==> r == intent.value.device
  {
    match intent
    case None => None
    case Some(i) =>
      if i.action != Some(ACTION_BOND_STATE_CHANGED) then None
      else if i.bondState == BOND_BONDED then
        (match i.device
         case None => None
         case Some(device) => Some(device))
      else None
  }

  // ---------------------------------------------------------------------------
  // Helpers for the queries
  // ---------------------------------------------------------------------------

  predicate Distinct<T(==)>(s: seq<T>) {
    forall i, j | 0 <= i < j < |s| :: s[i] != s[j]
  }

  /** `order` lists every element of `keys` exactly once. */
  predicate Enumerates<T(==)>(order: seq<T>, keys: set<T>) {
    && Distinct(order)
    && (forall i | 0 <= i < |order| :: order[i] in keys)
    && (forall k | k in keys :: k in order)
  }

  /** A filter entry with the same `uuidString` as `u`. */
  predicate InFilter(u: CBUuid, filter: seq<CBUuid>) {
    exists j | 0 <= j < |filter| :: Equal(u, filter[j])
  }

  /** A discovered service list containing a service whose `uuidString` is in the filter. */
  predicate OffersAny(services: Option<seq<CBUuid>>, filter: seq<CBUuid>) {
    services.Some? && exists i | 0 <= i < |services.value| :: InFilter(services.value[i], filter)
  }

  function Identifiers(ps: seq<Peripheral>): (ids: seq<Uuid>)
    ensures |ids| == |ps| && forall k | 0 <= k < |ps| :: ids[k] == ps[k].identifier
  {
    if ps == [] then [] else Identifiers(ps[..|ps| - 1]) + [ps[|ps| - 1].identifier]
  }

  predicate HasIdentifier(candidates: set<Peripheral>, id: Uuid) {
    exists p | p in candidates :: p.identifier == id
  }

  /** The requested identifiers that some candidate carries, in request order. */
  function MatchedIdentifiers(identifiers: seq<Uuid>, candidates: set<Peripheral>): seq<Uuid>
  {
    if identifiers == [] then []
    else
      var id := identifiers[|identifiers| - 1];
      MatchedIdentifiers(identifiers[..|identifiers| - 1], candidates)
        + if HasIdentifier(candidates, id) then [id] else []
  }

  /**
   * The matched identifiers are a selection of the requested ones: never
   * more of them, and an identifier is present exactly when it was
   * requested and some candidate carries it.
   */
  lemma {:induction false} MatchedIdentifiersSelect(identifiers: seq<Uuid>, candidates: set<Peripheral>)
    ensures |MatchedIdentifiers(identifiers, candidates)| <= |identifiers|
    ensures forall id :: id in MatchedIdentifiers(identifiers, candidates)
                     <==> id in identifiers && HasIdentifier(candidates, id)
    decreases |identifiers|
  {
    if identifiers != [] {
      var front := identifiers[..|identifiers| - 1];
      MatchedIdentifiersSelect(front, candidates);
      assert identifiers == front + [identifiers[|identifiers| - 1]];
    }
  }

  /** The disconnect-and-close pairs for the handles stored under `order`, in that order. */
  function CloseAll(order: seq<Address>, gatts: map<Address, GattHandle>): (calls: seq<TransportCall>)
    requires forall i | 0 <= i < |order| :: order[i] in gatts
    ensures |calls| == 2 * |order|
    ensures forall i | 0 <= i < |order| ::
      calls[2 * i] == Disconnect(gatts[order[i]]) && calls[2 * i + 1] == Close(gatts[order[i]])
  {
    if order == [] then []
    else
      var a := order[|order| - 1];
      CloseAll(order[..|order| - 1], gatts) + [Disconnect(gatts[a]), Close(gatts[a])]
  }

  lemma CloseAllAppend(order: seq<Address>, a: Address, gatts: map<Address, GattHandle>)
    requires forall i | 0 <= i < |order| :: order[i] in gatts
    requires a in gatts
    ensures CloseAll(order + [a], gatts) == CloseAll(order, gatts) + [Disconnect(gatts[a]), Close(gatts[a])]
  {
    assert (order + [a])[..|order|] == order;
  }

  // ---------------------------------------------------------------------------
  // The registry
  // ---------------------------------------------------------------------------

  class CentralManager {
    /** The `services` list of the manager's GATT callback object. */
    const gattDelegate: GattServices

    var connectedDeviceAddresses: set<Address>
    var connectedGatts: map<Address, GattHandle>
    var connectedPeripherals: map<Address, Peripheral>

    /** The calls made on the Android transport, in order. */
    ghost var transport: seq<TransportCall>

    /**
     * Every stored handle belongs to an address being tracked, and every
     * registered peripheral is registered under its own address and reads the
     * manager's callback object.
     */
    ghost predicate Valid()
      reads this
    {
      && connectedGatts.Keys <= connectedDeviceAddresses
      && forall a | a in connectedPeripherals ::
           connectedPeripherals[a].address == a && connectedPeripherals[a].gattDelegate == Some(gattDelegate)
    }

    constructor ()
      ensures Valid() && fresh(gattDelegate) && gattDelegate.services == None
      ensures connectedDeviceAddresses == {} && connectedGatts == map[] && connectedPeripherals == map[]
      ensures transport == []
    {
      gattDelegate := new GattServices();
      connectedDeviceAddresses := {};
      connectedGatts := map[];
      connectedPeripherals := map[];
      transport := [];
    }

    /**
     * `tryConnect(to:)`: nothing at all for an address already tracked;
     * otherwise track it, call `connectGatt` once and store the handle it
     * returns (`handle`; none stored when it returns none).
     */
    method TryConnect(address: Address, handle: Option<GattHandle>)
      requires Valid()
      modifies this
      ensures Valid()
      ensures address in old(connectedDeviceAddresses) ==> unchanged(this)
      ensures address !in old(connectedDeviceAddresses) ==>
        && connectedDeviceAddresses == old(connectedDeviceAddresses) + {address}
        && connectedGatts == (if handle.Some? then old(connectedGatts)[address := handle.value]
                              else old(connectedGatts))
        && connectedPeripherals == old(connectedPeripherals)
        && transport == old(transport) + [ConnectGatt(address)]
    {
      if address in connectedDeviceAddresses {
        return;
      }
      connectedDeviceAddresses := connectedDeviceAddresses + {address};
      transport := transport + [ConnectGatt(address)];
      match handle
      case Some(gatt) =>
        connectedGatts := connectedGatts[address := gatt];
      case None =>
        connectedGatts := connectedGatts - {address};
    }

    /** `registerConnectedPeripheral(_:for:)`. */
    method RegisterConnectedPeripheral(peripheral: Peripheral, address: Address)
      requires Valid()
      requires peripheral.address == address && peripheral.gattDelegate == Some(gattDelegate)
      modifies this
      ensures Valid()
      ensures connectedPeripherals == old(connectedPeripherals)[address := peripheral]
      ensures GetPeripheral(address) == Some(peripheral)
      ensures connectedDeviceAddresses == old(connectedDeviceAddresses)
      ensures connectedGatts == old(connectedGatts) && transport == old(transport)
    {
      connectedPeripherals := connectedPeripherals[address := peripheral];
    }

    /** `getPeripheral(for:)`. */
    function GetPeripheral(address: Address): (r: Option<Peripheral>)
      reads this
      ensures r.Some? <==> address in connectedPeripherals
      ensures r.Some? ==> r.value == connectedPeripherals[address]
      ensures Valid() && r.Some? ==> r.value.address == address
    {
      if address in connectedPeripherals then Some(connectedPeripherals[address]) else None
    }

    /**
     * `clearConnectedDevice(address:)`. For one address: forget it in all
     * three tables and disconnect and close its handle if one was stored.
     * For none: disconnect and close every stored handle, in the table's
     * iteration order `order`, then empty all three tables.
     */
    method ClearConnectedDevice(address: Option<Address>) returns (ghost order: seq<Address>)
      requires Valid()
      modifies this
      ensures Valid()
      ensures forall i | 0 <= i < |order| :: order[i] in old(connectedGatts)
      ensures transport == old(transport) + CloseAll(order, old(connectedGatts))
      ensures address.Some? ==>
        && order == (if address.value in old(connectedGatts) then [address.value] else [])
        && connectedDeviceAddresses == old(connectedDeviceAddresses) - {address.value}
        && connectedGatts == old(connectedGatts) - {address.value}
        && connectedPeripherals == old(connectedPeripherals) - {address.value}
      ensures address.None? ==>
        && Enumerates(order, old(connectedGatts).Keys)
        && connectedDeviceAddresses == {} && connectedGatts == map[] && connectedPeripherals == map[]
    {
      match address
      case Some(a) =>
        connectedDeviceAddresses := connectedDeviceAddresses - {a};
        connectedPeripherals := connectedPeripherals - {a};
        if a in connectedGatts {
          var gatt := connectedGatts[a];
          connectedGatts := connectedGatts - {a};
          transport := transport + [Disconnect(gatt), Close(gatt)];
          order := [a];
        } else {
          order := [];
        }
      case None =>
        order := CloseStoredGatts();
        connectedDeviceAddresses := {};
        connectedPeripherals := map[];
        connectedGatts := map[];
    }

    /** Disconnects and closes every stored handle once, in the table's iteration order `order`. */
    method CloseStoredGatts() returns (ghost order: seq<Address>)
      modifies this
      ensures Enumerates(order, connectedGatts.Keys)
      ensures transport == old(transport) + CloseAll(order, connectedGatts)
      ensures connectedDeviceAddresses == old(connectedDeviceAddresses)
      ensures connectedGatts == old(connectedGatts) && connectedPeripherals == old(connectedPeripherals)
    {
      var gatts := connectedGatts;
      order := [];
      ghost var calls: seq<TransportCall> := [];
      ghost var done: set<Address> := {};
      var remaining := gatts.Keys;
      while remaining != {}
        invariant remaining !! done && remaining + done == gatts.Keys
        invariant forall i | 0 <= i < |order| :: order[i] in done
        invariant forall a | a in done :: a in order
        invariant Distinct(order)
        invariant calls == CloseAll(order, gatts)
        invariant unchanged(this)
        decreases remaining
      {
        var a :| a in remaining;
        var gatt := gatts[a];
        CloseAllAppend(order, a, gatts);
        calls := calls + [Disconnect(gatt), Close(gatt)];
        order := order + [a];
        done := done + {a};
        remaining := remaining - {a};
      }
      transport := transport + calls;
    }

    /**
     * `cancelPeripheralConnection(_:)`: disconnect and close the stored
     * handle, or failing that the peripheral's own, then forget the address
     * in all three tables.
     */
    method CancelPeripheralConnection(peripheral: Peripheral)
      requires Valid()
      modifies this
      ensures Valid()
      ensures var a := peripheral.address;
        && transport == old(transport) +
             (if a in old(connectedGatts) then [Disconnect(old(connectedGatts)[a]), Close(old(connectedGatts)[a])]
              else if peripheral.gatt.Some? then [Disconnect(peripheral.gatt.value), Close(peripheral.gatt.value)]
              else [])
        && connectedDeviceAddresses == old(connectedDeviceAddresses) - {a}
        && connectedGatts == old(connectedGatts) - {a}
        && connectedPeripherals == old(connectedPeripherals) - {a}
      ensures GetPeripheral(peripheral.address).None?
    {
      var address := peripheral.address;
      if address in connectedGatts {
        var gatt := connectedGatts[address];
        transport := transport + [Disconnect(gatt), Close(gatt)];
      } else if peripheral.gatt.Some? {
        var gatt := peripheral.gatt.value;
        transport := transport + [Disconnect(gatt), Close(gatt)];
      }
      connectedDeviceAddresses := connectedDeviceAddresses - {address};
      connectedPeripherals := connectedPeripherals - {address};
      connectedGatts := connectedGatts - {address};
    }

    /** `connect(_:options:)`: with the connect permission, `tryConnect` to the peripheral's device. */
    method Connect(peripheral: Peripheral, hasPermission: bool, handle: Option<GattHandle>)
      requires Valid()
      modifies this
      ensures Valid()
      ensures !hasPermission || peripheral.address in old(connectedDeviceAddresses) ==> unchanged(this)
      ensures hasPermission && peripheral.address !in old(connectedDeviceAddresses) ==>
        && connectedDeviceAddresses == old(connectedDeviceAddresses) + {peripheral.address}
        && connectedGatts == (if handle.Some? then old(connectedGatts)[peripheral.address := handle.value]
                              else old(connectedGatts))
        && connectedPeripherals == old(connectedPeripherals)
        && transport == old(transport) + [ConnectGatt(peripheral.address)]
    {
      if !hasPermission {
        return;
      }
      TryConnect(peripheral.address, handle);
    }

    /** The bond receiver: `tryConnect` to the device of a completed bond, and nothing otherwise. */
    method OnBondStateChanged(intent: Option<Intent>, handle: Option<GattHandle>)
      requires Valid()
      modifies this
      ensures Valid()
      ensures BondTarget(intent).None? || BondTarget(intent).value in old(connectedDeviceAddresses) ==> unchanged(this)
      ensures BondTarget(intent).Some? && BondTarget(intent).value !in old(connectedDeviceAddresses) ==>
        var a := BondTarget(intent).value;
        && connectedDeviceAddresses == old(connectedDeviceAddresses) + {a}
        && connectedGatts == (if handle.Some? then old(connectedGatts)[a := handle.value] else old(connectedGatts))
        && connectedPeripherals == old(connectedPeripherals)
        && transport == old(transport) + [ConnectGatt(a)]
    {
      match BondTarget(intent)
      case Some(device) =>
        TryConnect(device, handle);
      case None =>
    }

    /**
     * `retrievePeripherals(withIdentifiers:)`: for each identifier in turn,
     * some registered peripheral carrying it, if any.
     */
    method RetrievePeripherals(identifiers: seq<Uuid>) returns (r: seq<Peripheral>)
      ensures Identifiers(r) == MatchedIdentifiers(identifiers, connectedPeripherals.Values)
      ensures forall k | 0 <= k < |r| :: r[k] in connectedPeripherals.Values
    {
      r := [];
      for n := 0 to |identifiers|
        invariant Identifiers(r) == MatchedIdentifiers(identifiers[..n], connectedPeripherals.Values)
        invariant forall k | 0 <= k < |r| :: r[k] in connectedPeripherals.Values
      {
        var id := identifiers[n];
        assert identifiers[..n + 1][..n] == identifiers[..n];
        if p :| p in connectedPeripherals.Values && p.identifier == id {
          r := r + [p];
        }
        assert Identifiers(r)[..|r|] == Identifiers(r);
      }
      assert identifiers[..|identifiers|] == identifiers;
    }

    /**
     * `retrieveConnectedPeripherals(withServices:)`: every registered
     * peripheral for an empty filter, and otherwise those whose `services`
     * contain one whose `uuidString` is in the filter. As every registered
     * peripheral reads the one list of the manager's callback object, a
     * non-empty filter selects either all of them or none.
     */
    method RetrieveConnectedPeripherals(serviceUUIDs: seq<CBUuid>) returns (r: seq<Peripheral>)
      requires Valid()
      ensures serviceUUIDs == [] ==> Enumerates(r, connectedPeripherals.Values)
      ensures serviceUUIDs != [] ==> Distinct(r) && forall p ::
        p in r <==> p in connectedPeripherals.Values && OffersAny(p.Services(), serviceUUIDs)
      ensures serviceUUIDs != [] ==>
        if OffersAny(gattDelegate.services, serviceUUIDs) then Enumerates(r, connectedPeripherals.Values) else r == []
    {
      r := [];
      var candidates := connectedPeripherals.Values;
      while candidates != {}
        invariant candidates <= connectedPeripherals.Values
        invariant Distinct(r)
        invariant forall p :: p in r ==> p in connectedPeripherals.Values && p !in candidates
        invariant forall p | p in connectedPeripherals.Values && p !in candidates ::
          p in r <==> serviceUUIDs == [] || OffersAny(p.Services(), serviceUUIDs)
        invariant serviceUUIDs != [] && !OffersAny(gattDelegate.services, serviceUUIDs) ==> r == []
        decreases candidates
      {
        var p :| p in candidates;
        if serviceUUIDs == [] || OffersAny(p.Services(), serviceUUIDs) {
          r := r + [p];
        }
        candidates := candidates - {p};
      }
    }

    /**
     * The same query over each peripheral's own discovered services: a
     * peripheral is selected exactly when its own services match.
     */
    method RetrieveConnectedPeripheralsPerDevice(serviceUUIDs: seq<CBUuid>) returns (r: seq<Peripheral>)
      ensures serviceUUIDs == [] ==> Enumerates(r, connectedPeripherals.Values)
      ensures serviceUUIDs != [] ==> Distinct(r) && forall p ::
        p in r <==> p in connectedPeripherals.Values && OffersAny(p.discoveredServices, serviceUUIDs)
    {
      r := [];
      var candidates := connectedPeripherals.Values;
      while candidates != {}
        invariant candidates <= connectedPeripherals.Values
        invariant Distinct(r)
        invariant forall p :: p in r ==> p in connectedPeripherals.Values && p !in candidates
        invariant forall p | p in connectedPeripherals.Values && p !in candidates ::
          p in r <==> serviceUUIDs == [] || OffersAny(p.discoveredServices, serviceUUIDs)
        decreases candidates
      {
        var p :| p in candidates;
        if serviceUUIDs == [] || OffersAny(p.discoveredServices, serviceUUIDs) {
          r := r + [p];
        }
        candidates := candidates - {p};
      }
    }
  }
}

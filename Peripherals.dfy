/**
 * CBPeripheral on Android: a per-peripheral FIFO of GATT operations that hands
 * at most one operation at a time to the transport, the MTU-derived write
 * limit, and the choice of Client Characteristic Configuration value when
 * notifications are switched on or off.
 *
 * The queue is specified by pure functions over `QueueState` (`Drain`,
 * `ProcessNext`, `Enqueue`); the class `Peripheral` keeps the same state in
 * fields and its methods are proved to follow those functions. Whether the
 * transport agrees to start a read is the parameter `accepts`.
 */
module Peripherals {
  import opened Wrappers
  import opened Uuids
  import opened Gatt

  // ---------------------------------------------------------------------------
  // Connection state
  // ---------------------------------------------------------------------------

  /** `CBPeripheralState`. */
  datatype PeripheralState = Disconnected | Connecting | Connected | Disconnecting

  function RawValue(s: PeripheralState): (r: int)
    ensures 0 <= r <= 3
  {
    match s
    case Disconnected => 0
    case Connecting => 1
    case Connected => 2
    case Disconnecting => 3
  }

  /**
   * The raw values are Android's `STATE_*` constants: mapping a state to its
   * raw value and back gives the state, and no two states share a raw value.
   */
  lemma RawValueRoundTrip(s: PeripheralState, t: PeripheralState)
    ensures StateFromProfile(RawValue(s)) == Some(s)
    ensures RawValue(s) == RawValue(t) ==> s == t
  {
  }

  /**
   * `PeripheralStateWatcher`: the state a `BluetoothProfile.STATE_*` value
   * reports, and nothing for any other value.
   */
  function StateFromProfile(newState: int): (r: Option<PeripheralState>)
    ensures r.Some? <==> newState in {STATE_DISCONNECTED, STATE_CONNECTING, STATE_CONNECTED, STATE_DISCONNECTING}
    ensures r.Some? ==> RawValue(r.value) == newState
  {
    if newState == STATE_DISCONNECTED then Some(Disconnected)
    else if newState == STATE_CONNECTING then Some(Connecting)
    else if newState == STATE_CONNECTED then Some(Connected)
    else if newState == STATE_DISCONNECTING then Some(Disconnecting)
    else None
  }

  // ---------------------------------------------------------------------------
  // The operation queue, as pure functions
  // ---------------------------------------------------------------------------

  /** The LE ATT_MTU before any exchange, and the ATT write header (opcode and handle). */
  const DEFAULT_MTU: int := 23
  const ATT_HEADER_LENGTH: int := 3

  /**
   * Whether the queue moves on as soon as `op` has been handed to the
   * transport (`started` is the transport's answer): a read the transport
   * refused and a write without response do; everything else waits for its
   * completion callback.
   */
  predicate MovesOn(op: GattOperation, started: bool) {
    match op
    case ReadCharacteristic(_) => !started
    case WriteCharacteristic(_, _, writeType) => writeType == WithoutResponse
    case WriteDescriptor(_, _) => false
    case ReadDescriptor(_) => !started
    case WriteDescriptorValue(_, _) => false
  }

  function Last<T>(s: seq<T>): T requires s != [] { s[|s| - 1] }

  /** What one run of `processNextOperation` did: the operations handed over, what is left, the flag. */
  datatype Drained = Drained(issued: seq<GattOperation>, rest: seq<GattOperation>, busy: bool)

  /**
   * `processNextOperation` and `executeOperation` calling each other: take the
   * head, execute it, and carry on while it moves on. Without a connection
   * every operation is taken and dropped unexecuted.
   */
  function Drain(q: seq<GattOperation>, hasGatt: bool, accepts: GattOperation -> bool): (d: Drained)
    ensures !d.busy ==> d.rest == []
    ensures hasGatt ==> d.issued + d.rest == q
    ensures !hasGatt ==> d == Drained([], [], false)
    decreases |q|
  {
    if q == [] then Drained([], [], false)
    else if !hasGatt then Drain(q[1..], hasGatt, accepts)
    else if MovesOn(q[0], accepts(q[0])) then
      var d := Drain(q[1..], hasGatt, accepts);
      Drained([q[0]] + d.issued, d.rest, d.busy)
    else Drained([q[0]], q[1..], true)
  }

  /**
   * One operation at a time: every operation a drain hands over moves on by
   * itself except possibly the last, and the queue stays busy exactly when
   * that last one is awaited.
   */
  lemma {:induction false} DrainStopsAtAwaited(q: seq<GattOperation>, hasGatt: bool, accepts: GattOperation -> bool)
    ensures var d := Drain(q, hasGatt, accepts);
      && (forall i | 0 <= i < |d.issued| - 1 :: MovesOn(d.issued[i], accepts(d.issued[i])))
      && (d.busy <==> d.issued != [] && !MovesOn(Last(d.issued), accepts(Last(d.issued))))
    decreases |q|
  {
    if q != [] && hasGatt && MovesOn(q[0], accepts(q[0])) {
      DrainStopsAtAwaited(q[1..], hasGatt, accepts);
      var d := Drain(q[1..], hasGatt, accepts);
      var e := Drain(q, hasGatt, accepts);
      assert e.issued == [q[0]] + d.issued;
      forall i | 0 <= i < |e.issued| - 1
        ensures MovesOn(e.issued[i], accepts(e.issued[i]))
      {
        if i > 0 {
          assert e.issued[i] == d.issued[i - 1];
        }
      }
      if d.issued != [] {
        assert Last(e.issued) == Last(d.issued);
      }
    } else if q != [] && !hasGatt {
      DrainStopsAtAwaited(q[1..], hasGatt, accepts);
    }
  }

  /**
   * The queue of one peripheral: pending operations, `isOperationInProgress`,
   * and two histories, everything ever queued and everything handed to the
   * transport.
   */
  datatype QueueState = QueueState(
    queue: seq<GattOperation>, busy: bool, enqueued: seq<GattOperation>, issued: seq<GattOperation>)

  /**
   * An idle queue is empty; with a connection the transport has seen exactly
   * a prefix of what was queued, in order, and the rest is pending; without
   * one nothing is ever handed over.
   */
  predicate QueueInvariant(s: QueueState, hasGatt: bool) {
    && (!s.busy ==> s.queue == [])
    && (hasGatt ==> s.issued + s.queue == s.enqueued)
    && (!hasGatt ==> !s.busy && s.issued == [])
  }

  /** `processNextOperation` on a queue state. */
  function ProcessNext(s: QueueState, hasGatt: bool, accepts: GattOperation -> bool): (r: QueueState)
    ensures r.enqueued == s.enqueued
    ensures !r.busy ==> r.queue == []
    ensures hasGatt ==> r.issued + r.queue == s.issued + s.queue
    ensures !hasGatt ==> r.issued == s.issued && !r.busy
  {
    var d := Drain(s.queue, hasGatt, accepts);
    QueueState(d.rest, d.busy, s.enqueued, s.issued + d.issued)
  }

  /** `queueOperation`: append at the tail; process only if nothing was in progress. */
  function Enqueue(s: QueueState, op: GattOperation, hasGatt: bool, accepts: GattOperation -> bool): (r: QueueState)
    ensures r.enqueued == s.enqueued + [op]
    ensures QueueInvariant(s, hasGatt) ==> QueueInvariant(r, hasGatt)
  {
    var appended := s.(queue := s.queue + [op], enqueued := s.enqueued + [op]);
    if s.busy then appended else ProcessNext(appended, hasGatt, accepts)
  }

  /** `onOperationComplete` keeps the invariant. */
  lemma CompleteKeepsInvariant(s: QueueState, hasGatt: bool, accepts: GattOperation -> bool)
    requires QueueInvariant(s, hasGatt)
    ensures QueueInvariant(ProcessNext(s, hasGatt, accepts), hasGatt)
  {
  }

  /** Queued while idle, an operation is handed to the transport at once, and the flag says whether it is awaited. */
  lemma EnqueueWhenIdle(s: QueueState, op: GattOperation, accepts: GattOperation -> bool)
    requires QueueInvariant(s, true) && !s.busy
    ensures var r := Enqueue(s, op, true, accepts);
      && r.issued == s.issued + [op]
      && r.queue == []
      && (r.busy <==> !MovesOn(op, accepts(op)))
  {
    assert s.queue + [op] == [op] && [op][1..] == [];
    assert Drain([], true, accepts) == Drained([], [], false);
    var d := Drain([op], true, accepts);
    assert d.issued == [op] && (d.busy <==> !MovesOn(op, accepts(op)));
  }

  /** Queued while another operation is in progress, an operation waits at the tail and nothing is issued. */
  lemma EnqueueWhenBusy(s: QueueState, op: GattOperation, hasGatt: bool, accepts: GattOperation -> bool)
    requires s.busy
    ensures var r := Enqueue(s, op, hasGatt, accepts);
      && r.issued == s.issued
      && r.queue == s.queue + [op]
      && r.busy
  {
  }

  /** A completion hands over the head of the pending queue next (first in, first out). */
  lemma {:induction false} CompleteIssuesHead(s: QueueState, accepts: GattOperation -> bool)
    requires s.queue != []
    ensures var r := ProcessNext(s, true, accepts);
      && |r.issued| > |s.issued|
      && r.issued[..|s.issued| + 1] == s.issued + [s.queue[0]]
  {
    var d := Drain(s.queue, true, accepts);
    assert d.issued != [] && d.issued[0] == s.queue[0];
    var r := ProcessNext(s, true, accepts);
    assert r.issued == s.issued + d.issued;
    assert r.issued[..|s.issued| + 1] == s.issued + [d.issued[0]];
  }

  /** While the flag is set, the operation awaited is the last one handed over and it does not move on by itself. */
  lemma BusyAwaitsLastIssued(s: QueueState, hasGatt: bool, accepts: GattOperation -> bool)
    ensures var r := ProcessNext(s, hasGatt, accepts);
      r.busy ==> hasGatt && |r.issued| > |s.issued| && !MovesOn(Last(r.issued), accepts(Last(r.issued)))
  {
    var d := Drain(s.queue, hasGatt, accepts);
    DrainStopsAtAwaited(s.queue, hasGatt, accepts);
    if d.busy {
      assert Last(s.issued + d.issued) == Last(d.issued);
    }
  }

  // ---------------------------------------------------------------------------
  // The peripheral object
  // ---------------------------------------------------------------------------

  /**
   * `BleGattCallback.services`: the services last discovered through the
   * manager's one GATT callback object, which every peripheral it created
   * reads as its own `services`.
   */
  class GattServices {
    var services: Option<seq<CBUuid>>

    constructor ()
      ensures services == None
    {
      services := None;
    }
  }

  /** Everything of a peripheral that its methods change, as one value. */
  datatype PeripheralView = PeripheralView(
    state: PeripheralState, mtu: int, queue: QueueState,
    delivered: seq<PeripheralCallback>, discoveredServices: Option<seq<CBUuid>>)

  class Peripheral {
    const address: Address
    /** The `CBPeer` identifier, a name-based hash of the address computed by the platform. */
    const identifier: Uuid
    const name: Option<string>
    const gatt: Option<GattHandle>
    const gattDelegate: Option<GattServices>

    var state: PeripheralState
    var mtu: int
    var operationQueue: seq<GattOperation>
    var isOperationInProgress: bool
    /** The services discovered on this peripheral's own connection. */
    var discoveredServices: Option<seq<CBUuid>>

    /** Every operation ever queued, and every operation handed to the transport. */
    ghost var enqueued: seq<GattOperation>
    ghost var issued: seq<GattOperation>
    /** The calls made on this peripheral's delegate, in order. */
    ghost var delivered: seq<PeripheralCallback>

    ghost function Queue(): QueueState
      reads this
    {
      QueueState(operationQueue, isOperationInProgress, enqueued, issued)
    }

    ghost function View(): PeripheralView
      reads this
    {
      PeripheralView(state, mtu, Queue(), delivered, discoveredServices)
    }

    ghost predicate Valid()
      reads this
    {
      QueueInvariant(Queue(), gatt.Some?)
    }

    /** `init(result:)`: a peripheral seen in a scan, not connected. */
    constructor FromScanResult(address: Address, identifier: Uuid, name: Option<string>)
      ensures this.address == address && this.identifier == identifier && this.name == name
      ensures gatt.None? && gattDelegate.None?
      ensures View() == PeripheralView(Disconnected, DEFAULT_MTU, QueueState([], false, [], []), [], None)
      ensures forall t :: MaximumWriteValueLength(t) == 20
      ensures Valid()
    {
      this.address := address;
      this.identifier := identifier;
      this.name := name;
      gatt := None;
      gattDelegate := None;
      state := Disconnected;
      mtu := DEFAULT_MTU;
      operationQueue := [];
      isOperationInProgress := false;
      discoveredServices := None;
      enqueued := [];
      issued := [];
      delivered := [];
    }

    /** `init(gatt:gattDelegate:)`: the peripheral of an open connection. */
    constructor FromGatt(handle: GattHandle, address: Address, identifier: Uuid, name: Option<string>,
                         delegate: GattServices)
      ensures this.address == address && this.identifier == identifier && this.name == name
      ensures gatt == Some(handle) && gattDelegate == Some(delegate)
      ensures View() == PeripheralView(Disconnected, DEFAULT_MTU, QueueState([], false, [], []), [], None)
      ensures forall t :: MaximumWriteValueLength(t) == 20
      ensures Valid()
    {
      this.address := address;
      this.identifier := identifier;
      this.name := name;
      gatt := Some(handle);
      gattDelegate := Some(delegate);
      state := Disconnected;
      mtu := DEFAULT_MTU;
      operationQueue := [];
      isOperationInProgress := false;
      discoveredServices := None;
      enqueued := [];
      issued := [];
      delivered := [];
    }

    /** `services`: the list the manager's callback object holds, or nothing without one. */
    function Services(): (r: Option<seq<CBUuid>>)
      reads if gattDelegate.Some? then {gattDelegate.value} else {}
      ensures gattDelegate.None? ==> r.None?
      ensures gattDelegate.Some? ==> r == gattDelegate.value.services
    {
      if gattDelegate.Some? then gattDelegate.value.services else None
    }

    /** `queueOperation`. */
    method QueueOperation(op: GattOperation, accepts: GattOperation -> bool)
      requires Valid()
      modifies this
      ensures View() == old(View()).(queue := Enqueue(old(Queue()), op, gatt.Some?, accepts))
      ensures Valid()
    {
      operationQueue := operationQueue + [op];
      enqueued := enqueued + [op];
      var shouldProcess := !isOperationInProgress;
      if shouldProcess {
        ProcessNextOperation(accepts);
      }
    }

    /** `processNextOperation`, with the recursion through `executeOperation` as a loop. */
    method ProcessNextOperation(accepts: GattOperation -> bool)
      modifies this
      ensures View() == old(View()).(queue := ProcessNext(old(Queue()), gatt.Some?, accepts))
    {
      while true
        invariant View() == old(View()).(queue := Queue())
        invariant ProcessNext(Queue(), gatt.Some?, accepts) == ProcessNext(old(Queue()), gatt.Some?, accepts)
        decreases |operationQueue|
      {
        if operationQueue == [] {
          isOperationInProgress := false;
          return;
        }
        isOperationInProgress := true;
        var op := operationQueue[0];
        operationQueue := operationQueue[1..];
        var movesOn := ExecuteOperation(op, accepts);
        if !movesOn {
          return;
        }
      }
    }

    /** `executeOperation`: hand `op` to the transport; the result says whether to move on. */
    method ExecuteOperation(op: GattOperation, accepts: GattOperation -> bool) returns (movesOn: bool)
      modifies this
      ensures movesOn == (gatt.None? || MovesOn(op, accepts(op)))
      ensures View() == old(View()).(queue := old(Queue()).(issued := old(issued) + if gatt.Some? then [op] else []))
    {
      if gatt.None? {
        return true;
      }
      issued := issued + [op];
      match op
      case ReadCharacteristic(_) =>
        movesOn := !accepts(op);
      case WriteCharacteristic(_, _, writeType) =>
        movesOn := writeType == WithoutResponse;
      case WriteDescriptor(_, _) =>
        movesOn := false;
      case ReadDescriptor(_) =>
        movesOn := !accepts(op);
      case WriteDescriptorValue(_, _) =>
        movesOn := false;
    }

    /** `onOperationComplete`: the awaited operation finished; move on. */
    method OnOperationComplete(accepts: GattOperation -> bool)
      requires Valid()
      modifies this
      ensures View() == old(View()).(queue := ProcessNext(old(Queue()), gatt.Some?, accepts))
      ensures Valid()
    {
      ProcessNextOperation(accepts);
    }

    /** `canSendWriteWithoutResponse`: nothing is in flight, and then nothing is pending either. */
    function CanSendWriteWithoutResponse(): (r: bool)
      reads this
      ensures r <==> !isOperationInProgress
      ensures Valid() && r ==> operationQueue == []
    {
      !isOperationInProgress
    }

    /**
     * `maximumWriteValueLength(for:)`: the MTU less the ATT header, for either
     * write type. The documented default of 20 is stated by both constructors,
     * and `UpdateMtu` states that the limit follows a new MTU.
     */
    function MaximumWriteValueLength(writeType: WriteType): (r: int)
      reads this
      ensures r + ATT_HEADER_LENGTH == mtu
    {
      mtu - ATT_HEADER_LENGTH
    }

    /** `updateMtu`. */
    method UpdateMtu(newMtu: int)
      modifies this
      ensures View() == old(View()).(mtu := newMtu)
      ensures forall t :: MaximumWriteValueLength(t) == newMtu - ATT_HEADER_LENGTH
    {
      mtu := newMtu;
    }

    /** `readValue(for:)` on a characteristic. */
    method ReadValue(characteristic: Characteristic, accepts: GattOperation -> bool)
      requires Valid()
      modifies this
      ensures View() == old(View()).(queue := Enqueue(old(Queue()), ReadCharacteristic(characteristic), gatt.Some?, accepts))
      ensures Valid()
    {
      QueueOperation(ReadCharacteristic(characteristic), accepts);
    }

    /** `writeValue(_:for:type:)` on a characteristic. */
    method WriteValue(data: Bytes, characteristic: Characteristic, writeType: WriteType,
                      accepts: GattOperation -> bool)
      requires Valid()
      modifies this
      ensures View() == old(View()).(queue := Enqueue(old(Queue()),
                 WriteCharacteristic(characteristic, data, writeType), gatt.Some?, accepts))
      ensures Valid()
    {
      QueueOperation(WriteCharacteristic(characteristic, data, writeType), accepts);
    }

    /**
     * `setNotifyValue(_:for:)`: with a connection, a successful local
     * registration (`registered`) and the characteristic's CCCD (`cccd`), one
     * descriptor write of the chosen CCCD value is queued; otherwise nothing.
     */
    method SetNotifyValue(enabled: bool, characteristic: Characteristic, registered: bool,
                          cccd: Option<Descriptor>, accepts: GattOperation -> bool)
      requires Valid()
      requires cccd.Some? ==> IsCccd(cccd.value) && cccd.value.characteristic == characteristic
      modifies this
      ensures gatt.Some? && registered && cccd.Some? ==>
        View() == old(View()).(queue := Enqueue(old(Queue()),
          WriteDescriptor(cccd.value, CccdValue(enabled, characteristic.properties)), gatt.Some?, accepts))
      ensures !(gatt.Some? && registered && cccd.Some?) ==> View() == old(View())
      ensures Valid()
    {
      if gatt.None? {
        return;
      }
      if !registered {
        return;
      }
      if cccd.None? {
        return;
      }
      var value := CccdValue(enabled, characteristic.properties);
      QueueOperation(WriteDescriptor(cccd.value, value), accepts);
    }

    /** `readValue(for:)` on a descriptor; `descriptor` is its Android object, if it has one. */
    method ReadValueForDescriptor(descriptor: Option<Descriptor>, accepts: GattOperation -> bool)
      requires Valid()
      modifies this
      ensures gatt.Some? && descriptor.Some? ==>
        View() == old(View()).(queue := Enqueue(old(Queue()), ReadDescriptor(descriptor.value), gatt.Some?, accepts))
      ensures !(gatt.Some? && descriptor.Some?) ==> View() == old(View())
      ensures Valid()
    {
      if gatt.None? || descriptor.None? {
        return;
      }
      QueueOperation(ReadDescriptor(descriptor.value), accepts);
    }

    /** `writeValue(_:for:)` on a descriptor. */
    method WriteValueForDescriptor(data: Bytes, descriptor: Option<Descriptor>, accepts: GattOperation -> bool)
      requires Valid()
      modifies this
      ensures gatt.Some? && descriptor.Some? ==>
        View() == old(View()).(queue := Enqueue(old(Queue()), WriteDescriptorValue(descriptor.value, data), gatt.Some?, accepts))
      ensures !(gatt.Some? && descriptor.Some?) ==> View() == old(View())
      ensures Valid()
    {
      if gatt.None? || descriptor.None? {
        return;
      }
      QueueOperation(WriteDescriptorValue(descriptor.value, data), accepts);
    }

    /**
     * `discoverCharacteristics`: the characteristics arrive with the services
     * on Android, so the delegate is answered at once, without an error, and
     * the queue is not touched.
     */
    method DiscoverCharacteristics(service: CBUuid)
      modifies this
      ensures View() == old(View()).(delivered := old(delivered) + [DidDiscoverCharacteristics(service, None)])
      ensures Queue() == old(Queue())
    {
      Deliver(DidDiscoverCharacteristics(service, None));
    }

    /** `discoverDescriptors`: answered at once, like `DiscoverCharacteristics`. */
    method DiscoverDescriptors(characteristic: Characteristic)
      modifies this
      ensures View() == old(View()).(delivered := old(delivered) + [DidDiscoverDescriptors(characteristic, None)])
      ensures Queue() == old(Queue())
    {
      Deliver(DidDiscoverDescriptors(characteristic, None));
    }

    /** A call on the peripheral's delegate. */
    method Deliver(callback: PeripheralCallback)
      modifies this
      ensures View() == old(View()).(delivered := old(delivered) + [callback])
    {
      delivered := delivered + [callback];
    }

    /** Records the services discovered on this peripheral's connection. */
    method StoreServices(services: seq<CBUuid>)
      modifies this
      ensures View() == old(View()).(discoveredServices := Some(services))
    {
      discoveredServices := Some(services);
    }
  }
}

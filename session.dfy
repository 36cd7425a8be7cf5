/**
 * The scan and connection flags of the activity: `isScanning` and the GATT
 * handle `bluetoothGatt`, with the Bluetooth platform calls the activity
 * issues recorded, in order, in `calls`.  Each permission check is a boolean
 * input read at the point where the code reads it, and every callback is one
 * serialized call of a method.
 */
module Session {
  import opened Wrappers

  const TARGET_DEVICE_NAME := "DSD TECH"
  /** The name reported for a device whose name may not be read. */
  const PERMISSION_DENIED_NAME := "Permission Denied"
  const GATT_SUCCESS := 0
  const STATE_DISCONNECTED := 0
  const STATE_CONNECTED := 2

  /** Identity of a connection handle returned by connectGatt. */
  type Handle = nat

  /** A call the activity makes into the Bluetooth stack. */
  datatype PlatformCall =
    | StartScan
    | StopScan
    | ConnectGatt(handle: Handle)
    | DiscoverServices(handle: Handle)
    | CloseHandle(handle: Handle)

  /** The stopScan call stopScanning issues: only while scanning, allowed to, and with a scanner. */
  function StopScanCalls(wasScanning: bool, stopGranted: bool, hasScanner: bool): seq<PlatformCall> {
    if wasScanning && stopGranted && hasScanner then [StopScan] else []
  }

  /** getDeviceName: the reported name, or a fixed text when the name may not be read. */
  function DeviceName(reported: Option<string>, nameGranted: bool): (r: Option<string>)
    ensures r == Some(TARGET_DEVICE_NAME) <==> nameGranted && reported == Some(TARGET_DEVICE_NAME)
    // a name that may not be read is the fixed text, never null
    ensures !nameGranted ==> r == Some(PERMISSION_DENIED_NAME)
    ensures r == None ==> nameGranted && reported == None
  {
    if nameGranted then reported else Some(PERMISSION_DENIED_NAME)
  }

  /**
   * The handle bookkeeping: every handle was issued by a connectGatt before
   * it was closed, the held handle has not been closed, and no handle has
   * been closed twice.
   */
  ghost predicate HandlesKept(gatt: Option<Handle>, nextHandle: Handle, calls: seq<PlatformCall>) {
    && (gatt.Some? ==>
          gatt.value < nextHandle && ConnectGatt(gatt.value) in calls && CloseHandle(gatt.value) !in calls)
    && (forall i :: 0 <= i < |calls| && calls[i].CloseHandle? ==>
          calls[i].handle < nextHandle && ConnectGatt(calls[i].handle) in calls[..i])
    && (forall i, j :: 0 <= i < j < |calls| && calls[i].CloseHandle? ==> calls[j] != calls[i])
  }

  /** A call that neither connects nor closes leaves the bookkeeping intact. */
  lemma AppendOther(gatt: Option<Handle>, nextHandle: Handle, calls: seq<PlatformCall>, call: PlatformCall)
    requires HandlesKept(gatt, nextHandle, calls)
    requires !call.ConnectGatt? && !call.CloseHandle?
    ensures HandlesKept(gatt, nextHandle, calls + [call])
  {
    var extended := calls + [call];
    forall i | 0 <= i < |extended| && extended[i].CloseHandle?
      ensures ConnectGatt(extended[i].handle) in extended[..i]
    {
      assert extended[..i] == calls[..i];
    }
  }

  /** connectGatt hands out a handle never seen before, which is then the held one. */
  lemma AppendConnect(gatt: Option<Handle>, nextHandle: Handle, calls: seq<PlatformCall>)
    requires HandlesKept(gatt, nextHandle, calls)
    ensures HandlesKept(Some(nextHandle), nextHandle + 1, calls + [ConnectGatt(nextHandle)])
  {
    var extended := calls + [ConnectGatt(nextHandle)];
    forall i | 0 <= i < |extended| && extended[i].CloseHandle?
      ensures ConnectGatt(extended[i].handle) in extended[..i]
    {
      assert extended[..i] == calls[..i];
    }
  }

  /** Closing the held handle, which was never closed, keeps every handle closed at most once. */
  lemma AppendClose(held: Handle, nextHandle: Handle, calls: seq<PlatformCall>)
    requires HandlesKept(Some(held), nextHandle, calls)
    ensures HandlesKept(None, nextHandle, calls + [CloseHandle(held)])
  {
    var extended := calls + [CloseHandle(held)];
    forall i | 0 <= i < |extended| && extended[i].CloseHandle?
      ensures ConnectGatt(extended[i].handle) in extended[..i]
    {
      assert extended[..i] == calls[..i];
    }
    forall i, j | 0 <= i < j < |extended| && extended[i].CloseHandle?
      ensures extended[j] != extended[i]
    {
      if j == |calls| {
        assert extended[i] == calls[i];
      }
    }
  }

  class BleSession {
    /** Whether the adapter provided an LE scanner (bluetoothLeScanner != null). */
    const hasScanner: bool
    var isScanning: bool
    var bluetoothGatt: Option<Handle>
    /** The handle the next connectGatt returns. */
    var nextHandle: Handle
    /** The platform calls issued so far, oldest first. */
    var calls: seq<PlatformCall>

    /** Scanning needs a scanner, and the handle bookkeeping holds. */
    ghost predicate Valid()
      reads this
    {
      && (isScanning ==> hasScanner)
      && HandlesKept(bluetoothGatt, nextHandle, calls)
    }

    constructor (hasScanner: bool)
      ensures Valid()
      ensures this.hasScanner == hasScanner
      ensures !isScanning && bluetoothGatt == None && calls == []
    {
      this.hasScanner := hasScanner;
      isScanning := false;
      bluetoothGatt := None;
      nextHandle := 0;
      calls := [];
    }

    /**
     * stopScanning (lines 198-215): nothing at all when not scanning;
     * otherwise the flag always drops, while stopScan is issued only when
     * permitted and a scanner exists.  The scan timeout is a call of this
     * method too.
     */
    method StopScanning(stopGranted: bool)
      requires Valid()
      modifies this
      ensures Valid()
      ensures !isScanning
      ensures !old(isScanning) ==> unchanged(this)
      ensures calls == old(calls) + StopScanCalls(old(isScanning), stopGranted, hasScanner)
      ensures bluetoothGatt == old(bluetoothGatt) && nextHandle == old(nextHandle)
    {
      if !isScanning {
        return;
      }
      if stopGranted && hasScanner {
        AppendOther(bluetoothGatt, nextHandle, calls, StopScan);
        calls := calls + [StopScan];
      }
      isScanning := false;
    }

    /**
     * scanLeDevice (lines 171-188): without a scanner nothing happens; a start
     * without scan permission changes nothing, otherwise it raises the flag
     * and issues startScan (whether or not a scan is already running); a stop
     * is stopScanning.
     */
    method ScanLeDevice(enable: bool, scanGranted: bool, stopGranted: bool)
      requires Valid()
      modifies this
      ensures Valid()
      ensures !hasScanner ==> unchanged(this)
      ensures hasScanner && enable && !scanGranted ==> unchanged(this)
      ensures hasScanner && enable && scanGranted ==>
                isScanning && calls == old(calls) + [StartScan]
      ensures hasScanner && !enable ==>
                !isScanning && calls == old(calls) + StopScanCalls(old(isScanning), stopGranted, hasScanner)
      ensures bluetoothGatt == old(bluetoothGatt) && nextHandle == old(nextHandle)
    {
      if !hasScanner {
        return;
      }
      if enable {
        if !scanGranted {
          return;
        }
        isScanning := true;
        AppendOther(bluetoothGatt, nextHandle, calls, StartScan);
        calls := calls + [StartScan];
      } else {
        StopScanning(stopGranted);
      }
    }

    /**
     * onScanResult (lines 219-237): a sighting whose name is not the target
     * changes nothing.  The target first stops the scan, then, when connecting
     * is permitted, connects and holds the new handle.  The flag is checked
     * nowhere, so a second sighting of the target connects again and the
     * handle held before is replaced without being closed.
     */
    method OnScanResult(reportedName: Option<string>, nameGranted: bool, stopGranted: bool,
                        connectGranted: bool)
      requires Valid()
      modifies this
      ensures Valid()
      ensures DeviceName(reportedName, nameGranted) != Some(TARGET_DEVICE_NAME) ==> unchanged(this)
      ensures DeviceName(reportedName, nameGranted) == Some(TARGET_DEVICE_NAME) ==>
                && !isScanning
                && calls == old(calls) + StopScanCalls(old(isScanning), stopGranted, hasScanner)
                            + (if connectGranted then [ConnectGatt(old(nextHandle))] else [])
                && bluetoothGatt == (if connectGranted then Some(old(nextHandle)) else old(bluetoothGatt))
                && nextHandle == (if connectGranted then old(nextHandle) + 1 else old(nextHandle))
      // the connect is the last call made, and the scan is already stopped when it is made
      ensures bluetoothGatt != old(bluetoothGatt) ==>
                && !isScanning
                && calls[|calls| - 1] == ConnectGatt(bluetoothGatt.value)
                && (StopScan in calls[|old(calls)|..|calls| - 1] <==> old(isScanning) && stopGranted && hasScanner)
      // a handle held before a repeated connect is dropped without a close
      ensures old(bluetoothGatt).Some? && bluetoothGatt != old(bluetoothGatt) ==>
                CloseHandle(old(bluetoothGatt).value) !in calls
    {
      var name := DeviceName(reportedName, nameGranted);
      if name == Some(TARGET_DEVICE_NAME) {
        ScanLeDevice(false, false, stopGranted);
        if !connectGranted {
          return;
        }
        ghost var stopped := calls;
        AppendConnect(bluetoothGatt, nextHandle, calls);
        var handle := nextHandle;
        nextHandle := nextHandle + 1;
        calls := calls + [ConnectGatt(handle)];
        bluetoothGatt := Some(handle);
        assert calls[|old(calls)|..|calls| - 1] == stopped[|old(calls)|..];
      }
    }

    /**
     * onConnectionStateChange (lines 247-266): a successful connect asks the
     * callback's handle to discover services when permitted; a disconnect or
     * any failed status closes the held handle; any other state changes
     * nothing.
     */
    method OnConnectionStateChange(gatt: Handle, status: int, newState: int, connectGranted: bool)
      requires Valid()
      modifies this
      ensures Valid()
      ensures status == GATT_SUCCESS && newState == STATE_CONNECTED ==>
                && calls == old(calls) + (if connectGranted then [DiscoverServices(gatt)] else [])
                && bluetoothGatt == old(bluetoothGatt)
      ensures status == GATT_SUCCESS && newState != STATE_CONNECTED && newState != STATE_DISCONNECTED ==>
                unchanged(this)
      ensures status != GATT_SUCCESS || newState == STATE_DISCONNECTED ==>
                if old(bluetoothGatt).Some? && connectGranted
                then bluetoothGatt == None && calls == old(calls) + [CloseHandle(old(bluetoothGatt).value)]
                else unchanged(this)
      ensures isScanning == old(isScanning) && nextHandle == old(nextHandle)
    {
      if status == GATT_SUCCESS {
        if newState == STATE_CONNECTED {
          if !connectGranted {
            return;
          }
          AppendOther(bluetoothGatt, nextHandle, calls, DiscoverServices(gatt));
          calls := calls + [DiscoverServices(gatt)];
        } else if newState == STATE_DISCONNECTED {
          CloseGatt(connectGranted);
        }
      } else {
        CloseGatt(connectGranted);
      }
    }

    /**
     * closeGatt (lines 366-374): without a handle, or without permission,
     * nothing changes (so a denied close keeps the handle); otherwise the
     * handle is closed and dropped, which with Valid() means it is closed
     * exactly once.
     */
    method CloseGatt(connectGranted: bool)
      requires Valid()
      modifies this
      ensures Valid()
      ensures old(bluetoothGatt).None? || !connectGranted ==> unchanged(this)
      ensures old(bluetoothGatt).Some? && connectGranted ==>
                && bluetoothGatt == None
                && calls == old(calls) + [CloseHandle(old(bluetoothGatt).value)]
                && CloseHandle(old(bluetoothGatt).value) !in old(calls)
      ensures isScanning == old(isScanning) && nextHandle == old(nextHandle)
    {
      if bluetoothGatt.None? {
        return;
      }
      if !connectGranted {
        return;
      }
      var handle := bluetoothGatt.value;
      AppendClose(handle, nextHandle, calls);
      calls := calls + [CloseHandle(handle)];
      bluetoothGatt := None;
    }

  }

  /** Stopping a scan twice does no more than stopping it once. */
  method StopScanningIsIdempotent(session: BleSession, firstGranted: bool, secondGranted: bool)
    requires session.Valid()
    modifies session
    ensures session.Valid() && !session.isScanning
    ensures session.calls == old(session.calls)
                             + StopScanCalls(old(session.isScanning), firstGranted, session.hasScanner)
    ensures session.bluetoothGatt == old(session.bluetoothGatt)
    ensures session.nextHandle == old(session.nextHandle)
  {
    session.StopScanning(firstGranted);
    session.StopScanning(secondGranted);
  }

  /** Once a close has gone through, closing again issues nothing more. */
  method CloseGattIsIdempotent(session: BleSession, firstGranted: bool, secondGranted: bool)
    requires session.Valid()
    modifies session
    ensures session.Valid()
    ensures old(session.bluetoothGatt).Some? && firstGranted ==>
              && session.bluetoothGatt == None
              && session.calls == old(session.calls) + [CloseHandle(old(session.bluetoothGatt).value)]
    ensures session.isScanning == old(session.isScanning) && session.nextHandle == old(session.nextHandle)
  {
    session.CloseGatt(firstGranted);
    session.CloseGatt(secondGranted);
  }
}

/**
 * The downstream device registry of the USB host side (usb_host.c): a 4-slot table of MIDI devices,
 * filled first-free-slot on mount and cleared by address on unmount, with a count of active devices.
 */
module UsbHost {
  import opened Common

  /** MIHASHI_MIDI_MAX_DEVICES */
  const MAX_DEVICES: nat := 4

  /** midi_device_t */
  datatype MidiDevice = MidiDevice(devAddr: uint8, instance: uint8, numCablesRx: uint8, numCablesTx: uint8, connected: bool)

  /** An all-zero slot, as memset leaves it. */
  const CLEARED := MidiDevice(0, 0, 0, 0, false)

  /** Number of connected slots. */
  function ConnectedCount(s: seq<MidiDevice>): (r: nat)
    ensures r <= |s|
  {
    if s == [] then 0 else ConnectedCount(s[..|s| - 1]) + (if s[|s| - 1].connected then 1 else 0)
  }

  /** Replacing one slot changes the count by the change in that slot's connected flag. */
  lemma {:induction false} ConnectedCountUpdate(s: seq<MidiDevice>, i: nat, d: MidiDevice)
    requires i < |s|
    ensures ConnectedCount(s[i := d]) ==
            ConnectedCount(s) - (if s[i].connected then 1 else 0) + (if d.connected then 1 else 0)
  {
    var n := |s| - 1;
    if i == n {
      assert s[i := d][..n] == s[..n];
    } else {
      assert s[i := d][..n] == s[..n][i := d];
      ConnectedCountUpdate(s[..n], i, d);
    }
  }

  /** The count reaches the table size exactly when every slot is connected. */
  lemma {:induction false} ConnectedCountFull(s: seq<MidiDevice>)
    ensures ConnectedCount(s) == |s| <==> forall i :: 0 <= i < |s| ==> s[i].connected
  {
    if s != [] {
      var n := |s| - 1;
      ConnectedCountFull(s[..n]);
      assert forall i :: 0 <= i < n ==> s[..n][i] == s[i];
    }
  }

  /** A table with no connected slot counts zero. */
  lemma {:induction false} ConnectedCountEmpty(s: seq<MidiDevice>)
    requires forall i :: 0 <= i < |s| ==> !s[i].connected
    ensures ConnectedCount(s) == 0
  {
    if s != [] {
      var n := |s| - 1;
      assert forall i :: 0 <= i < n ==> s[..n][i] == s[i];
      ConnectedCountEmpty(s[..n]);
    }
  }

  /** A connected slot makes the count positive. */
  lemma {:induction false} ConnectedCountPositive(s: seq<MidiDevice>, i: nat)
    requires i < |s| && s[i].connected
    ensures ConnectedCount(s) > 0
  {
    var n := |s| - 1;
    if i < n {
      assert s[..n][i] == s[i];
      ConnectedCountPositive(s[..n], i);
    }
  }

  /** The lowest index of a slot that is not connected, or |s| when there is none: where mount registers. */
  function FirstFree(s: seq<MidiDevice>): (r: nat)
    ensures r <= |s|
    ensures r < |s| ==> !s[r].connected
    ensures forall j :: 0 <= j < r ==> s[j].connected
  {
    if s == [] then 0
    else
      var r := FirstFree(s[..|s| - 1]);
      if r < |s| - 1 then r else if !s[|s| - 1].connected then |s| - 1 else |s|
  }

  /** The lowest index of a connected slot recording addr, or |s| when there is none: what unmount clears. */
  function FirstMatch(s: seq<MidiDevice>, addr: uint8): (r: nat)
    ensures r <= |s|
    ensures r < |s| ==> s[r].connected && s[r].devAddr == addr
    ensures forall j :: 0 <= j < r ==> !(s[j].connected && s[j].devAddr == addr)
  {
    if s == [] then 0
    else
      var r := FirstMatch(s[..|s| - 1], addr);
      if r < |s| - 1 then r
      else if s[|s| - 1].connected && s[|s| - 1].devAddr == addr then |s| - 1
      else |s|
  }

  /** The registration mount writes into slot i. */
  function Registered(i: nat, addr: uint8, numCablesRx: uint8, numCablesTx: uint8): MidiDevice
    requires i < MAX_DEVICES
  {
    MidiDevice(addr, i, numCablesRx, numCablesTx, true)
  }

  /** The "no available device slots" condition as the mount callback tests it: the count after the scan is zero. */
  function NoSlotErrorAsWritten(countAfter: uint8): bool {
    countAfter == 0
  }

  /** The condition the message describes: the scan found no free slot in the table before the mount. */
  function NoSlotError(before: seq<MidiDevice>): (r: bool)
    ensures r <==> ConnectedCount(before) == |before|
  {
    ConnectedCountFull(before);
    FirstFree(before) == |before|
  }

  /** On a full table the as-written test stays silent although no slot was free. */
  lemma FullTableGoesUnreported(s: seq<MidiDevice>)
    requires |s| == MAX_DEVICES && forall i :: 0 <= i < |s| ==> s[i].connected
    ensures NoSlotError(s)
    ensures !NoSlotErrorAsWritten(ConnectedCount(s))
  {
    ConnectedCountFull(s);
  }

  /**
   * Mounting an address the table does not hold and then unmounting it gives back the slot that was
   * claimed and restores every connected flag and the count.
   */
  lemma MountThenUnmount(s: seq<MidiDevice>, addr: uint8, numCablesRx: uint8, numCablesTx: uint8)
    requires |s| == MAX_DEVICES && FirstFree(s) < MAX_DEVICES && FirstMatch(s, addr) == MAX_DEVICES
    ensures var i := FirstFree(s);
            var mounted := s[i := Registered(i, addr, numCablesRx, numCablesTx)];
            var unmounted := mounted[i := mounted[i].(connected := false)];
            && FirstMatch(mounted, addr) == i
            && ConnectedCount(mounted) == ConnectedCount(s) + 1
            && ConnectedCount(unmounted) == ConnectedCount(s)
            && forall j :: 0 <= j < |s| ==> unmounted[j].connected == s[j].connected
  {
    var i := FirstFree(s);
    var mounted := s[i := Registered(i, addr, numCablesRx, numCablesTx)];
    var unmounted := mounted[i := mounted[i].(connected := false)];
    ConnectedCountUpdate(s, i, Registered(i, addr, numCablesRx, numCablesTx));
    ConnectedCountUpdate(mounted, i, mounted[i].(connected := false));
  }

  /** The statics of usb_host.c: midi_devices and active_midi_devices. */
  class Registry {
    const devices: array<MidiDevice>
    var activeCount: uint8

    /** The count matches the connected slots, and a connected slot's instance is its own index. */
    ghost predicate Valid()
      reads this`activeCount, devices
    {
      && devices.Length == MAX_DEVICES
      && activeCount == ConnectedCount(devices[..])
      && forall i :: 0 <= i < MAX_DEVICES && devices[i].connected ==> devices[i].instance == i
    }

    /** The zero-initialised statics. */
    constructor ()
      ensures Valid() && fresh(devices) && activeCount == 0
      ensures forall i :: 0 <= i < MAX_DEVICES ==> devices[i] == CLEARED
    {
      devices := new MidiDevice[MAX_DEVICES](_ => CLEARED);
      activeCount := 0;
      new;
      ConnectedCountEmpty(devices[..]);
    }

    /** usb_host_init: clear every slot and the count (the TinyUSB start-up is not part of this model). */
    method Init()
      requires devices.Length == MAX_DEVICES
      modifies this`activeCount, devices
      ensures Valid()
      ensures forall i :: 0 <= i < MAX_DEVICES ==> devices[i] == CLEARED
      ensures activeCount == 0 && ConnectedCount(devices[..]) == 0
    {
      forall i | 0 <= i < devices.Length {
        devices[i] := CLEARED;
      }
      activeCount := 0;
      ConnectedCountEmpty(devices[..]);
    }

    /**
     * tuh_midi_mount_cb: register the device in the lowest slot that is not connected and count it; with
     * no free slot nothing changes. slot is the slot claimed. errorLogged is whether the "no available
     * device slots" message is printed, which the source decides by testing the count after the scan
     * for zero; it is never printed.
     */
    method Mount(devAddr: uint8, numCablesRx: uint8, numCablesTx: uint8) returns (slot: Option<nat>, errorLogged: bool)
      requires Valid()
      modifies this`activeCount, devices
      ensures Valid()
      ensures slot == if FirstFree(old(devices[..])) < MAX_DEVICES then Some(FirstFree(old(devices[..]))) else None
      ensures slot.None? == NoSlotError(old(devices[..]))
      ensures slot.Some? ==>
                slot.value < MAX_DEVICES &&
                devices[..] == old(devices[..])[slot.value := Registered(slot.value, devAddr, numCablesRx, numCablesTx)] &&
                activeCount == old(activeCount) + 1
      ensures slot.None? ==> devices[..] == old(devices[..]) && activeCount == old(activeCount)
      ensures errorLogged == NoSlotErrorAsWritten(activeCount)
      ensures !errorLogged
    {
      slot := None;
      var i := 0;
      while i < MAX_DEVICES
        invariant i <= MAX_DEVICES
        invariant forall j :: 0 <= j < i ==> devices[j].connected
        invariant devices[..] == old(devices[..]) && activeCount == old(activeCount)
      {
        if !devices[i].connected {
          var entry := Registered(i, devAddr, numCablesRx, numCablesTx);
          ConnectedCountUpdate(devices[..], i, entry);
          devices[i] := entry;
          activeCount := activeCount + 1;
          slot := Some(i);
          break;
        }
        i := i + 1;
      }
      if slot.None? {
        ConnectedCountFull(devices[..]);
      }
      errorLogged := activeCount == 0;
    }

    /**
     * tuh_midi_unmount_cb: clear the connected flag of the lowest connected slot recording devAddr and
     * uncount it; an address the table does not hold changes nothing. slot is the slot cleared.
     */
    method Unmount(devAddr: uint8) returns (slot: Option<nat>)
      requires Valid()
      modifies this`activeCount, devices
      ensures Valid()
      ensures slot == if FirstMatch(old(devices[..]), devAddr) < MAX_DEVICES then Some(FirstMatch(old(devices[..]), devAddr)) else None
      ensures slot.Some? ==>
                slot.value < MAX_DEVICES &&
                devices[..] == old(devices[..])[slot.value := old(devices[slot.value]).(connected := false)] &&
                activeCount == old(activeCount) - 1
      ensures slot.None? ==> devices[..] == old(devices[..]) && activeCount == old(activeCount)
    {
      slot := None;
      var i := 0;
      while i < MAX_DEVICES
        invariant i <= MAX_DEVICES
        invariant forall j :: 0 <= j < i ==> !(devices[j].connected && devices[j].devAddr == devAddr)
        invariant devices[..] == old(devices[..]) && activeCount == old(activeCount)
      {
        if devices[i].connected && devices[i].devAddr == devAddr {
          var entry := devices[i].(connected := false);
          ConnectedCountUpdate(devices[..], i, entry);
          devices[i] := entry;
          activeCount := activeCount - 1;
          slot := Some(i);
          break;
        }
        i := i + 1;
      }
    }

    /** usb_host_get_active_devices: the number of connected slots, at most 4. */
    function GetActiveDevices(): (r: uint8)
      reads this`activeCount, devices
      requires Valid()
      ensures r == ConnectedCount(devices[..]) && r <= MAX_DEVICES
    {
      activeCount
    }

    /** usb_host_is_device_connected: false for an instance past the table, else that slot's flag; a connected slot is counted. */
    function IsDeviceConnected(instance: uint8): (r: bool)
      reads this`activeCount, devices
      requires Valid()
      ensures r <==> instance < MAX_DEVICES && devices[..][instance].connected
      ensures r ==> GetActiveDevices() > 0
    {
      if instance >= MAX_DEVICES then false
      else
        if devices[instance].connected then ConnectedCountPositive(devices[..], instance); true
        else false
    }
  }
}

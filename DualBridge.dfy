/**
 * The combined bridge of the dual-USB firmware (main_dual.c): one 256-slot ring of tagged packets
 * shared by both directions, the drain task that dispatches each packet on its direction tag and
 * bumps the status counters, and the single-device record kept by the host mount callbacks.
 */
module DualBridge {
  import opened Common
  import opened Ring

  /** MIHASHI_BRIDGE_BUFSIZE */
  const BRIDGE_BUFSIZE: nat := 256

  /** midi_packet_t: payload, capture time, and direction tag (0 = device to host, otherwise host to device). */
  datatype MidiPacket = MidiPacket(data: Packet4, timestamp: uint32, direction: uint8)

  /** Payloads of the host-to-device packets of s, in queue order: what the drain writes to the USB Device side. */
  function ToDevice(s: seq<MidiPacket>): seq<Packet4> {
    if s == [] then []
    else ToDevice(s[..|s| - 1]) + (if s[|s| - 1].direction != 0 then [s[|s| - 1].data] else [])
  }

  /** Number of device-to-host packets in s. */
  function ToHostCount(s: seq<MidiPacket>): nat {
    if s == [] then 0 else ToHostCount(s[..|s| - 1]) + (if s[|s| - 1].direction == 0 then 1 else 0)
  }

  /** Every packet is routed one way or the other: the two directions partition the queue. */
  lemma {:induction false} DirectionsPartition(s: seq<MidiPacket>)
    ensures ToHostCount(s) + |ToDevice(s)| == |s|
  {
    if s != [] {
      DirectionsPartition(s[..|s| - 1]);
    }
  }

  /** Dispatching one more packet extends the routed sequences by that packet alone. */
  lemma DispatchSnoc(s: seq<MidiPacket>, p: MidiPacket)
    ensures ToDevice(s + [p]) == ToDevice(s) + (if p.direction != 0 then [p.data] else [])
    ensures ToHostCount(s + [p]) == ToHostCount(s) + (if p.direction == 0 then 1 else 0)
  {
    assert (s + [p])[..|s|] == s;
  }

  /** messages_host_to_device after dispatching s, starting from c: one increment per host-to-device packet. */
  function HostToDeviceAfter(c: uint32, s: seq<MidiPacket>): uint32 {
    if s == [] then c else Bump(HostToDeviceAfter(c, s[..|s| - 1]), s[|s| - 1].direction != 0)
  }

  /** messages_device_to_host after dispatching s, starting from c: one increment per device-to-host packet while addr > 0. */
  function DeviceToHostAfter(c: uint32, s: seq<MidiPacket>, addr: uint8): uint32 {
    if s == [] then c else Bump(DeviceToHostAfter(c, s[..|s| - 1], addr), s[|s| - 1].direction == 0 && addr > 0)
  }

  /** Draining s advances the host-to-device counter by the number of packets written to the device, modulo 2^32. */
  lemma {:induction false} HostToDeviceCounts(c: uint32, s: seq<MidiPacket>)
    ensures HostToDeviceAfter(c, s) == Add32(c, |ToDevice(s)|)
  {
    if s != [] {
      var init, last := s[..|s| - 1], s[|s| - 1];
      assert s == init + [last];
      HostToDeviceCounts(c, init);
      DispatchSnoc(init, last);
    }
  }

  /** Draining s advances the device-to-host counter by its device-to-host packets if a host device is recorded, else not at all. */
  lemma {:induction false} DeviceToHostCounts(c: uint32, s: seq<MidiPacket>, addr: uint8)
    ensures DeviceToHostAfter(c, s, addr) == Add32(c, if addr > 0 then ToHostCount(s) else 0)
  {
    if s != [] {
      var init, last := s[..|s| - 1], s[|s| - 1];
      assert s == init + [last];
      DeviceToHostCounts(c, init, addr);
      DispatchSnoc(init, last);
    }
  }

  /**
   * One round of the drain loop: if written and the two counters describe the first k packets of s,
   * then after dispatching packet k they describe the first k + 1.
   */
  lemma DrainStep(s: seq<MidiPacket>, k: nat, addr: uint8, c0: uint32, c1: uint32,
                  written: seq<Packet4>, out: seq<Packet4>, h: uint32, h': uint32, d: uint32, d': uint32)
    requires k < |s|
    requires written == ToDevice(s[..k]) && out == (if s[k].direction != 0 then [s[k].data] else [])
    requires h == HostToDeviceAfter(c0, s[..k]) && h' == Bump(h, s[k].direction != 0)
    requires d == DeviceToHostAfter(c1, s[..k], addr) && d' == Bump(d, s[k].direction == 0 && addr > 0)
    ensures written + out == ToDevice(s[..k + 1])
    ensures h' == HostToDeviceAfter(c0, s[..k + 1])
    ensures d' == DeviceToHostAfter(c1, s[..k + 1], addr)
  {
    TakeSnoc(s, k);
    DispatchSnoc(s[..k], s[k]);
    assert s[..k + 1][..k] == s[..k];
  }

  /** The globals of main_dual.c: the bridge ring and the fields of mihashi_status that the core updates. */
  class Bridge {
    const buffer: array<MidiPacket>
    var head: nat
    var tail: nat
    var hostDeviceAddr: uint8
    var hostInEndpoint: uint8
    var hostOutEndpoint: uint8
    var messagesDeviceToHost: uint32
    var messagesHostToDevice: uint32

    ghost predicate Valid()
      reads this`head, this`tail
    {
      buffer.Length == BRIDGE_BUFSIZE && head < BRIDGE_BUFSIZE && tail < BRIDGE_BUFSIZE
    }

    /** The queued packets, oldest first. */
    ghost function Contents(): seq<MidiPacket>
      reads this`head, this`tail, buffer
      requires Valid()
    {
      Window(buffer[..], tail, head)
    }

    /** Zero-initialised statics: empty ring, no host device, counters at zero. */
    constructor ()
      ensures Valid() && fresh(buffer)
      ensures head == 0 && tail == 0 && Contents() == []
      ensures hostDeviceAddr == 0 && hostInEndpoint == 0 && hostOutEndpoint == 0
      ensures messagesDeviceToHost == 0 && messagesHostToDevice == 0
    {
      buffer := new MidiPacket[BRIDGE_BUFSIZE](_ => MidiPacket([0, 0, 0, 0], 0, 0));
      head, tail := 0, 0;
      hostDeviceAddr, hostInEndpoint, hostOutEndpoint := 0, 0, 0;
      messagesDeviceToHost, messagesHostToDevice := 0, 0;
    }

    /** bridge_buffer_push: store at head and advance head, unless (head + 1) % 256 == tail (then drop the packet). */
    method Push(packet: Packet4, direction: uint8, now: uint32)
      requires Valid()
      modifies this`head, buffer
      ensures Valid()
      ensures old(Next(head, BRIDGE_BUFSIZE)) == tail ==> head == old(head) && buffer[..] == old(buffer[..])
      ensures old(Next(head, BRIDGE_BUFSIZE)) != tail ==>
                buffer[..] == old(buffer[..])[old(head) := MidiPacket(packet, now, direction)] &&
                head == Next(old(head), BRIDGE_BUFSIZE)
      ensures Contents() == if old(|Contents()|) == BRIDGE_BUFSIZE - 1 then old(Contents())
                            else old(Contents()) + [MidiPacket(packet, now, direction)]
    {
      FullIff(buffer[..], tail, head);
      var nextHead := (head + 1) % BRIDGE_BUFSIZE;
      if nextHead != tail {
        WindowPush(buffer[..], tail, head, MidiPacket(packet, now, direction));
        buffer[head] := MidiPacket(packet, now, direction);
        head := nextHead;
      }
    }

    /** bridge_buffer_pop: false on an empty ring; otherwise the packet at tail, and tail advances. */
    method Pop() returns (ok: bool, packet: MidiPacket)
      requires Valid()
      modifies this`tail
      ensures Valid()
      ensures ok == (old(Contents()) != [])
      ensures ok ==> packet == old(Contents())[0] && Contents() == old(Contents())[1..] &&
                     tail == Next(old(tail), BRIDGE_BUFSIZE)
      ensures !ok ==> tail == old(tail)
    {
      EmptyIff(buffer[..], tail, head);
      if head == tail {
        return false, MidiPacket([0, 0, 0, 0], 0, 0);
      }
      WindowPop(buffer[..], tail, head);
      packet := buffer[tail];
      tail := (tail + 1) % BRIDGE_BUFSIZE;
      ok := true;
    }

    /**
     * The body of the drain loop in mihashi_bridge_task for one popped packet: a direction-0 packet is
     * only counted, and only while a host device is recorded; any other packet is written to the USB
     * Device side and counted whatever the write returns. out is what is handed to the device write.
     */
    method Dispatch(packet: MidiPacket) returns (out: seq<Packet4>)
      modifies this`messagesDeviceToHost, this`messagesHostToDevice
      ensures out == if packet.direction != 0 then [packet.data] else []
      ensures messagesHostToDevice == Bump(old(messagesHostToDevice), packet.direction != 0)
      ensures messagesDeviceToHost == Bump(old(messagesDeviceToHost), packet.direction == 0 && hostDeviceAddr > 0)
    {
      out := [];
      if packet.direction == 0 {
        if hostDeviceAddr > 0 {
          messagesDeviceToHost := Inc32(messagesDeviceToHost);
        }
      } else {
        out := [packet.data];
        messagesHostToDevice := Inc32(messagesHostToDevice);
      }
    }

    /**
     * The state of the drain loop of mihashi_bridge_task after the first k packets of queued have been
     * dispatched: the rest are still in the ring, written lists the payloads handed to the device write
     * so far, and each counter has advanced once per packet it counts.
     */
    ghost predicate Drained(queued: seq<MidiPacket>, k: nat, c0: uint32, c1: uint32, written: seq<Packet4>)
      reads this`head, this`tail, buffer, this`messagesHostToDevice, this`messagesDeviceToHost, this`hostDeviceAddr
    {
      Valid() && k <= |queued| && Contents() == queued[k..] &&
      written == ToDevice(queued[..k]) &&
      messagesHostToDevice == HostToDeviceAfter(c0, queued[..k]) &&
      messagesDeviceToHost == DeviceToHostAfter(c1, queued[..k], hostDeviceAddr)
    }

    /**
     * One round of the drain loop: pop a packet if there is one (ok) and dispatch it, appending what is
     * written to the device to written.
     */
    method DrainNext(ghost queued: seq<MidiPacket>, ghost k: nat, ghost c0: uint32, ghost c1: uint32, written: seq<Packet4>)
      returns (ok: bool, written': seq<Packet4>)
      requires Drained(queued, k, c0, c1, written)
      modifies this`tail, this`messagesDeviceToHost, this`messagesHostToDevice
      ensures ok == (k < |queued|)
      ensures ok ==> Drained(queued, k + 1, c0, c1, written')
      ensures !ok ==> Drained(queued, k, c0, c1, written')
    {
      var packet;
      ok, packet := Pop();
      if !ok {
        return false, written;
      }
      DropFirst(queued, k);
      ghost var h, d := messagesHostToDevice, messagesDeviceToHost;
      var out := Dispatch(packet);
      DrainStep(queued, k, hostDeviceAddr, c0, c1, written, out, h, messagesHostToDevice, d, messagesDeviceToHost);
      written' := written + out;
    }

    /**
     * mihashi_bridge_task: pop and dispatch until the ring is empty. written lists the payloads handed
     * to the device write, in order; each counter advances by the number of packets it counts.
     */
    method BridgeTask() returns (written: seq<Packet4>)
      requires Valid()
      modifies this`tail, this`messagesDeviceToHost, this`messagesHostToDevice
      ensures Valid() && Contents() == []
      ensures written == ToDevice(old(Contents()))
      ensures messagesHostToDevice == HostToDeviceAfter(old(messagesHostToDevice), old(Contents()))
      ensures messagesDeviceToHost == DeviceToHostAfter(old(messagesDeviceToHost), old(Contents()), hostDeviceAddr)
    {
      ghost var queued := Contents();
      ghost var k := 0;
      ghost var c0, c1 := messagesHostToDevice, messagesDeviceToHost;
      written := [];
      while true
        invariant Drained(queued, k, c0, c1, written)
        decreases |queued| - k
      {
        var ok;
        ok, written := DrainNext(queued, k, c0, c1, written);
        if !ok {
          break;
        }
        k := k + 1;
      }
      assert queued[..k] == queued;
    }

    /** tuh_midi_mount_cb: record the downstream device's address and endpoints, replacing any earlier record. */
    method MountCallback(daddr: uint8, inEp: uint8, outEp: uint8, numCablesRx: uint8, numCablesTx: uint8)
      modifies this`hostDeviceAddr, this`hostInEndpoint, this`hostOutEndpoint
      ensures hostDeviceAddr == daddr && hostInEndpoint == inEp && hostOutEndpoint == outEp
    {
      hostDeviceAddr := daddr;
      hostInEndpoint := inEp;
      hostOutEndpoint := outEp;
    }

    /** tuh_midi_unmount_cb: clear the record only if it is for daddr; an unmount for any other address changes nothing. */
    method UnmountCallback(daddr: uint8)
      modifies this`hostDeviceAddr, this`hostInEndpoint, this`hostOutEndpoint
      ensures old(hostDeviceAddr) == daddr ==> hostDeviceAddr == 0 && hostInEndpoint == 0 && hostOutEndpoint == 0
      ensures old(hostDeviceAddr) != daddr ==>
                hostDeviceAddr == old(hostDeviceAddr) && hostInEndpoint == old(hostInEndpoint) &&
                hostOutEndpoint == old(hostOutEndpoint)
    {
      if hostDeviceAddr == daddr {
        hostDeviceAddr := 0;
        hostInEndpoint := 0;
        hostOutEndpoint := 0;
      }
    }
  }
}

/**
 * The simple dual firmware (main_simple_dual.c): two independent 16-slot rings, device-to-host and
 * host-to-device, whose slots carry a valid flag; the device-side bridge task and the host task each
 * take at most one packet per call, and the host task shifts each byte out least-significant bit first.
 */
module SimpleDual {
  import opened Common
  import opened Ring

  /** Slots per direction. */
  const SLOTS: nat := 16

  /** midi_packet_t of this firmware: payload, capture time and the slot's valid flag. */
  datatype Slot = Slot(data: Packet4, timestamp: uint32, valid: bool)

  /** The payloads of a run of slots. */
  function Payloads(s: seq<Slot>): (r: seq<Packet4>)
    ensures |r| == |s| && forall i :: 0 <= i < |s| ==> r[i] == s[i].data
  {
    seq(|s|, i requires 0 <= i < |s| => s[i].data)
  }

  lemma PayloadsAppend(a: seq<Slot>, b: seq<Slot>)
    ensures Payloads(a + b) == Payloads(a) + Payloads(b)
  {
  }

  /** A ring of slots whose valid flags mark exactly the queued slots between tail and head. */
  ghost predicate Flagged(s: seq<Slot>, tail: nat, head: nat) {
    && |s| == SLOTS && head < SLOTS && tail < SLOTS
    && forall i :: 0 <= i < SLOTS ==> (s[i].valid <==> Occupied(i, tail, head))
  }

  /** Filling the slot at head with a valid entry and advancing head keeps the flags exact and appends the payload. */
  lemma PutStep(s: seq<Slot>, tail: nat, head: nat, x: Slot)
    requires Flagged(s, tail, head) && Next(head, SLOTS) != tail && x.valid
    ensures Flagged(s[head := x], tail, Next(head, SLOTS))
    ensures Payloads(Window(s[head := x], tail, Next(head, SLOTS))) == Payloads(Window(s, tail, head)) + [x.data]
  {
    WindowPush(s, tail, head, x);
    PayloadsAppend(Window(s, tail, head), [x]);
    forall i | 0 <= i < SLOTS
      ensures Occupied(i, tail, Next(head, SLOTS)) <==> Occupied(i, tail, head) || i == head
    {
      OccupiedAfterPush(i, tail, head, SLOTS);
    }
  }

  /** On a non-empty ring the tail slot is flagged; clearing it and advancing tail keeps the flags exact. */
  lemma GetFlags(s: seq<Slot>, tail: nat, head: nat)
    requires Flagged(s, tail, head) && tail != head
    ensures s[tail].valid
    ensures Flagged(s[tail := s[tail].(valid := false)], Next(tail, SLOTS), head)
  {
    OccupiedAfterPop(tail, tail, head, SLOTS);
    forall i | 0 <= i < SLOTS
      ensures Occupied(i, Next(tail, SLOTS), head) <==> Occupied(i, tail, head) && i != tail
    {
      OccupiedAfterPop(i, tail, head, SLOTS);
    }
  }

  /** Clearing the tail slot and advancing tail drops exactly the first queued payload. */
  lemma GetPayloads(s: seq<Slot>, tail: nat, head: nat)
    requires |s| == SLOTS && tail < SLOTS && head < SLOTS && tail != head
    ensures Payloads(Window(s, tail, head)) != [] && Payloads(Window(s, tail, head))[0] == s[tail].data
    ensures Payloads(Window(s[tail := s[tail].(valid := false)], Next(tail, SLOTS), head)) ==
            Payloads(Window(s, tail, head))[1..]
  {
    var nextTail := Next(tail, SLOTS);
    WindowPop(s, tail, head);
    OccupiedAfterPop(tail, tail, head, SLOTS);
    WindowUpdateFree(s, nextTail, head, tail, s[tail].(valid := false));
    PayloadsAppend([s[tail]], Window(s, nextTail, head));
  }

  /** One direction's queue: device_to_host_buffer with d2h_head/d2h_tail, or the host-to-device trio. */
  class SlotRing {
    const slots: array<Slot>
    var head: nat
    var tail: nat

    /** Besides the bounds: a slot is flagged valid exactly when it holds a queued packet. */
    ghost predicate Valid()
      reads this`head, this`tail, slots
    {
      Flagged(slots[..], tail, head)
    }

    /** The queued payloads, oldest first. */
    ghost function Contents(): seq<Packet4>
      reads this`head, this`tail, slots
      requires Valid()
    {
      Payloads(Window(slots[..], tail, head))
    }

    /** Zero-initialised static storage: every slot invalid, head == tail == 0. */
    constructor ()
      ensures Valid() && fresh(slots) && head == 0 && tail == 0 && Contents() == []
    {
      slots := new Slot[SLOTS](_ => Slot([0, 0, 0, 0], 0, false));
      head, tail := 0, 0;
    }

    /** d2h_buffer_put / h2d_buffer_put: false when (head + 1) % 16 == tail; else fill slot head, flag it valid, advance head. */
    method Put(packet: Packet4, now: uint32) returns (ok: bool)
      requires Valid()
      modifies this`head, slots
      ensures Valid() && tail == old(tail)
      ensures ok == (old(Next(head, SLOTS)) != tail) == (|old(Contents())| < SLOTS - 1)
      ensures ok ==> head == Next(old(head), SLOTS) &&
                     slots[..] == old(slots[..])[old(head) := Slot(packet, now, true)] &&
                     Contents() == old(Contents()) + [packet]
      ensures !ok ==> head == old(head) && slots[..] == old(slots[..])
    {
      FullIff(slots[..], tail, head);
      var nextHead := (head + 1) % SLOTS;
      if nextHead == tail {
        return false;
      }
      PutStep(slots[..], tail, head, Slot(packet, now, true));
      slots[head] := Slot(packet, now, true);
      head := nextHead;
      ok := true;
    }

    /**
     * d2h_buffer_get / h2d_buffer_get: false when tail == head; otherwise, if slot tail is flagged valid,
     * copy it out, clear the flag and advance tail. Valid() makes the "slot not valid" branch unreachable,
     * so a get on a non-empty queue always succeeds.
     */
    method Get() returns (ok: bool, packet: Packet4)
      requires Valid()
      modifies this`tail, slots
      ensures Valid() && head == old(head)
      ensures ok == (old(Contents()) != [])
      ensures ok ==> packet == old(Contents())[0] && Contents() == old(Contents())[1..] &&
                     tail == Next(old(tail), SLOTS) &&
                     slots[..] == old(slots[..])[old(tail) := old(slots[tail]).(valid := false)]
      ensures !ok ==> tail == old(tail) && slots[..] == old(slots[..])
    {
      EmptyIff(slots[..], tail, head);
      if tail == head {
        return false, [0, 0, 0, 0];
      }
      ghost var s := slots[..];
      GetFlags(s, tail, head);
      GetPayloads(s, tail, head);
      if slots[tail].valid {
        packet := slots[tail].data;
        slots[tail] := slots[tail].(valid := false);
        assert slots[..] == s[tail := s[tail].(valid := false)];
        tail := (tail + 1) % SLOTS;
        return true, packet;
      }
      // The source returns false here; Valid() flags every queued slot, so this branch is never taken.
      assert false;
    }
  }

  // Bit-serialisation of a packet onto the host TX pin.

  /** x >> k on a non-negative value: k halvings. */
  function Shr(x: nat, k: nat): nat {
    if k == 0 then x else Shr(x / 2, k - 1)
  }

  /** (x >> k) & 1: the level driven on the pin for bit k of x. */
  function Bit(x: nat, k: nat): int {
    Shr(x, k) % 2
  }

  /** The n low bits of x, least significant first. */
  function LowBits(x: nat, n: nat): (r: seq<int>)
    ensures |r| == n
  {
    if n == 0 then [] else [x % 2] + LowBits(x / 2, n - 1)
  }

  /** Entry k of LowBits(x, n) is bit k of x. */
  lemma {:induction false} LowBitsAt(x: nat, n: nat, k: nat)
    requires k < n
    ensures LowBits(x, n)[k] == Bit(x, k)
  {
    if k > 0 {
      LowBitsAt(x / 2, n - 1, k - 1);
    }
  }

  /** The eight levels driven for one byte: bits 0..7 in increasing order. */
  function ByteBits(b: uint8): seq<int> {
    LowBits(b, 8)
  }

  /** The levels driven for a packet: each byte in turn, from packet[0], each least-significant bit first. */
  function PacketBits(p: seq<uint8>): (r: seq<int>)
    ensures |r| == 8 * |p|
  {
    if p == [] then [] else ByteBits(p[0]) + PacketBits(p[1..])
  }

  /** The value of a run of bits read least-significant first. */
  function FromBits(bits: seq<int>): int {
    if bits == [] then 0 else bits[0] + 2 * FromBits(bits[1..])
  }

  /** A receiver's reading of a bit stream: one byte per complete group of eight bits. */
  function BytesFromBits(bits: seq<int>): seq<int> {
    if |bits| < 8 then [] else [FromBits(bits[..8])] + BytesFromBits(bits[8..])
  }

  function Pow2(n: nat): nat {
    if n == 0 then 1 else 2 * Pow2(n - 1)
  }

  /** Reading back the n low bits of x gives x when x fits in n bits. */
  lemma {:induction false} FromLowBits(x: nat, n: nat)
    requires x < Pow2(n)
    ensures FromBits(LowBits(x, n)) == x
  {
    if n > 0 {
      var rest := LowBits(x / 2, n - 1);
      assert ([x % 2] + rest)[1..] == rest;
      FromLowBits(x / 2, n - 1);
    }
  }

  /** Serialising bytes and reading the bits back in groups of eight returns the bytes. */
  lemma {:induction false} SerialRoundTrip(p: seq<uint8>)
    ensures BytesFromBits(PacketBits(p)) == p
  {
    if p != [] {
      var first, rest := ByteBits(p[0]), PacketBits(p[1..]);
      assert (first + rest)[..8] == first;
      assert (first + rest)[8..] == rest;
      assert Pow2(8) == 256;
      FromLowBits(p[0], 8);
      SerialRoundTrip(p[1..]);
    }
  }

  lemma {:induction false} PacketBitsAppend(a: seq<uint8>, b: seq<uint8>)
    ensures PacketBits(a + b) == PacketBits(a) + PacketBits(b)
  {
    if a == [] {
      assert a + b == b;
    } else {
      assert (a + b)[1..] == a[1..] + b;
      PacketBitsAppend(a[1..], b);
    }
  }

  /** Level 8 * i + k of a packet's serialisation is bit k of byte i. */
  lemma {:induction false} PacketBitsAt(p: seq<uint8>, i: nat, k: nat)
    requires i < |p| && k < 8
    ensures PacketBits(p)[8 * i + k] == Bit(p[i], k)
  {
    if i == 0 {
      LowBitsAt(p[0], 8, k);
    } else {
      PacketBitsAt(p[1..], i - 1, k);
    }
  }

  /** The nested loop of simple_host_task that shifts a packet out on the TX pin. */
  method Serialise(packet: Packet4) returns (levels: seq<int>)
    ensures levels == PacketBits(packet)
    ensures |levels| == 32 && forall i, k :: 0 <= i < 4 && 0 <= k < 8 ==> levels[8 * i + k] == Bit(packet[i], k)
  {
    levels := [];
    for i := 0 to 4
      invariant levels == PacketBits(packet[..i])
    {
      for bit := 0 to 8
        invariant levels == PacketBits(packet[..i]) + ByteBits(packet[i])[..bit]
      {
        LowBitsAt(packet[i], 8, bit);
        TakeSnoc(ByteBits(packet[i]), bit);
        levels := levels + [Bit(packet[i], bit)];
      }
      assert ByteBits(packet[i])[..8] == ByteBits(packet[i]);
      assert PacketBits([packet[i]]) == ByteBits(packet[i]);
      TakeSnoc(packet, i);
      PacketBitsAppend(packet[..i], [packet[i]]);
    }
    assert packet[..4] == packet;
    forall i, k | 0 <= i < 4 && 0 <= k < 8
      ensures levels[8 * i + k] == Bit(packet[i], k)
    {
      PacketBitsAt(packet, i, k);
    }
  }

  /** Packets a put loop accepts when held are already queued and k arrive: the rest are dropped once the ring is full. */
  function Accepted(held: nat, k: nat): nat {
    if k <= SLOTS - 1 - held then k else if held <= SLOTS - 1 then SLOTS - 1 - held else 0
  }

  /** One more offered packet is accepted exactly when the ring was not yet full. */
  lemma AcceptedStep(held: nat, i: nat, ok: bool)
    requires held < SLOTS && ok == (held + Accepted(held, i) < SLOTS - 1)
    ensures ok ==> Accepted(held, i) == i && Accepted(held, i + 1) == i + 1
    ensures !ok ==> Accepted(held, i + 1) == Accepted(held, i)
  {
  }

  /** The globals of main_simple_dual.c: the two rings and the status counters the core updates. */
  class SimpleBridge {
    const d2h: SlotRing
    const h2d: SlotRing
    var hostReady: bool
    var messagesDeviceRx: uint32
    var messagesDeviceTx: uint32
    var messagesHostTx: uint32
    var lastPing: uint32

    ghost predicate Valid()
      reads d2h, h2d, d2h.slots, h2d.slots
    {
      d2h != h2d && d2h.slots != h2d.slots && d2h.Valid() && h2d.Valid()
    }

    constructor ()
      ensures Valid() && fresh(d2h) && fresh(h2d) && fresh(d2h.slots) && fresh(h2d.slots)
      ensures d2h.Contents() == [] && h2d.Contents() == []
      ensures !hostReady && messagesDeviceRx == 0 && messagesDeviceTx == 0 && messagesHostTx == 0 && lastPing == 0
    {
      d2h := new SlotRing();
      h2d := new SlotRing();
      hostReady := false;
      messagesDeviceRx, messagesDeviceTx, messagesHostTx, lastPing := 0, 0, 0, 0;
    }

    /**
     * tud_midi_rx_cb: every packet the device driver hands over (incoming, in read order) is counted in
     * messages_device_rx and offered to the device-to-host ring; the ones that find it full are dropped.
     * times[i] is the clock reading the put of incoming[i] takes.
     */
    method DeviceRxCallback(incoming: seq<Packet4>, times: seq<uint32>)
      requires Valid() && |times| == |incoming|
      modifies this`messagesDeviceRx, d2h, d2h.slots
      ensures Valid()
      ensures messagesDeviceRx == CountEach(old(messagesDeviceRx), incoming)
      ensures d2h.Contents() == old(d2h.Contents()) + incoming[..Accepted(|old(d2h.Contents())|, |incoming|)]
      ensures h2d.Contents() == old(h2d.Contents())
    {
      ghost var before, c0 := d2h.Contents(), messagesDeviceRx;
      ghost var taken := 0;
      for i := 0 to |incoming|
        invariant d2h.Valid()
        invariant taken == Accepted(|before|, i)
        invariant messagesDeviceRx == CountEach(c0, incoming[..i])
        invariant d2h.Contents() == before + incoming[..taken]
      {
        var ok := Receive(incoming[i], times[i]);
        CountEachStep(c0, incoming, i);
        AcceptedStep(|before|, i, ok);
        if ok {
          AppendTakeSnoc(before, incoming, i);
          taken := taken + 1;
        }
      }
      assert incoming[..|incoming|] == incoming;
    }

    /** The body of the read loop in tud_midi_rx_cb for one packet: count it, then offer it to the device-to-host ring. */
    method Receive(packet: Packet4, now: uint32) returns (queued: bool)
      requires Valid()
      modifies this`messagesDeviceRx, d2h, d2h.slots
      ensures Valid()
      ensures messagesDeviceRx == Inc32(old(messagesDeviceRx))
      ensures queued == (|old(d2h.Contents())| < SLOTS - 1)
      ensures d2h.Contents() == if queued then old(d2h.Contents()) + [packet] else old(d2h.Contents())
      ensures h2d.Contents() == old(h2d.Contents())
    {
      messagesDeviceRx := Inc32(messagesDeviceRx);
      queued := d2h.Put(packet, now);
    }

    /** core1_entry, before its loop: the host side declares itself ready unconditionally. */
    method StartHostCore()
      modifies this`hostReady
      ensures hostReady
    {
      hostReady := true;
    }

    /**
     * simple_host_task: ping the TX pin (a 1 then a 0) when more than 5000 ms have passed since the last
     * ping; note a device on a low RX pin; then move at most one packet from the device-to-host ring
     * out on the TX pin. levels are the pin levels driven, in order; each ping and each forwarded packet
     * counts once in messages_host_tx.
     */
    method HostTask(now: uint32, rxPinHigh: bool) returns (levels: seq<int>)
      requires Valid()
      modifies this`messagesHostTx, this`lastPing, this`hostReady, d2h, d2h.slots
      ensures Valid()
      ensures hostReady == (old(hostReady) || !rxPinHigh)
      ensures lastPing == if Sub32(now, old(lastPing)) > 5000 then now else old(lastPing)
      ensures d2h.Contents() == if old(d2h.Contents()) == [] then [] else old(d2h.Contents())[1..]
      ensures levels == (if Sub32(now, old(lastPing)) > 5000 then [1, 0] else []) +
                        (if old(d2h.Contents()) == [] then [] else PacketBits(old(d2h.Contents())[0]))
      ensures messagesHostTx == Bump(Bump(old(messagesHostTx), Sub32(now, old(lastPing)) > 5000), old(d2h.Contents()) != [])
      ensures h2d.Contents() == old(h2d.Contents())
    {
      levels := [];
      if Sub32(now, lastPing) > 5000 {
        levels := [1, 0];
        messagesHostTx := Inc32(messagesHostTx);
        lastPing := now;
      }
      if !rxPinHigh {
        if !hostReady {
          hostReady := true;
        }
      }
      var bits := HostTransmit();
      levels := levels + bits;
    }

    /** The tail of simple_host_task: take at most one packet from the device-to-host ring and shift it out on the TX pin. */
    method HostTransmit() returns (levels: seq<int>)
      requires Valid()
      modifies this`messagesHostTx, d2h, d2h.slots
      ensures Valid()
      ensures d2h.Contents() == if old(d2h.Contents()) == [] then [] else old(d2h.Contents())[1..]
      ensures levels == if old(d2h.Contents()) == [] then [] else PacketBits(old(d2h.Contents())[0])
      ensures messagesHostTx == Bump(old(messagesHostTx), old(d2h.Contents()) != [])
      ensures h2d.Contents() == old(h2d.Contents())
    {
      levels := [];
      var ok, packet := d2h.Get();
      if ok {
        levels := Serialise(packet);
        messagesHostTx := Inc32(messagesHostTx);
      }
    }

    /**
     * mihashi_bridge_task: take at most one packet from the host-to-device ring and write it to the USB
     * Device side; messages_device_tx counts it only if that write (writeOk) succeeds. attempted is the
     * packet handed to the write, if any.
     */
    method BridgeTask(writeOk: bool) returns (attempted: Option<Packet4>)
      requires Valid()
      modifies this`messagesDeviceTx, h2d, h2d.slots
      ensures Valid()
      ensures attempted == if old(h2d.Contents()) == [] then None else Some(old(h2d.Contents())[0])
      ensures h2d.Contents() == if old(h2d.Contents()) == [] then [] else old(h2d.Contents())[1..]
      ensures messagesDeviceTx == if attempted.Some? && writeOk then Inc32(old(messagesDeviceTx)) else old(messagesDeviceTx)
      ensures d2h.Contents() == old(d2h.Contents())
    {
      attempted := None;
      var ok, packet := h2d.Get();
      if ok {
        attempted := Some(packet);
        if writeOk {
          messagesDeviceTx := Inc32(messagesDeviceTx);
        }
      }
    }
  }
}

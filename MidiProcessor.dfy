/**
 * The MIDI processor (midi_processor.c): a 64-slot ring of received event packets tagged with their
 * source device, the status-nibble classifier, the forwarding filter over a USB-MIDI event packet,
 * the push-then-drain entry point, and the statistics it reports.
 */
module MidiProcessor {
  import opened Common
  import opened Ring

  /** MIHASHI_MIDI_BUFFER_SIZE */
  const MIDI_BUFFER_SIZE: nat := 64

  /** midi_message_t: the event packet, its capture time, and the address of the device it came from. */
  datatype MidiMessage = MidiMessage(packet: Packet4, timestamp: uint32, sourceDevice: uint8)

  const EMPTY_MESSAGE := MidiMessage([0, 0, 0, 0], 0, 0)

  /**
   * midi_get_message_type: the name of the channel-message kind in the high nibble of a status byte
   * (status & 0xF0); a byte below 0x80 is a data byte, not a status, and is "Unknown".
   */
  function MessageType(status: uint8): string {
    match status / 16
    case 0x8 => "Note Off"
    case 0x9 => "Note On"
    case 0xA => "Aftertouch"
    case 0xB => "Control Change"
    case 0xC => "Program Change"
    case 0xD => "Channel Pressure"
    case 0xE => "Pitch Bend"
    case 0xF => "System"
    case _ => "Unknown"
  }

  /** The classification looks at the high nibble only: the channel in the low nibble never matters. */
  lemma MessageTypeHighNibble(status: uint8)
    ensures MessageType(status) == MessageType(status / 16 * 16)
  {
  }

  /** "Unknown" is returned exactly for the bytes that are not status bytes. */
  lemma MessageTypeUnknown(status: uint8)
    ensures MessageType(status) == "Unknown" <==> status < 0x80
  {
  }

  /** Two status bytes get the same name exactly when they share their high nibble: the eight names are distinct. */
  lemma MessageTypeDistinct(a: uint8, b: uint8)
    requires a >= 0x80 && b >= 0x80
    ensures MessageType(a) == MessageType(b) <==> a / 16 == b / 16
  {
  }

  /** Byte 0 of a USB-MIDI event packet: the virtual cable number, (b >> 4) & 0x0F. */
  function Cable(b: uint8): (r: nat)
    ensures r < 16
  {
    b / 16
  }

  /** Byte 0 of a USB-MIDI event packet: the Code Index Number, b & 0x0F. */
  function CodeIndex(b: uint8): (r: nat)
    ensures r < 16
  {
    b % 16
  }

  /** The two nibbles together give byte 0 back: cable and code index lose nothing. */
  lemma HeaderRoundTrip(b: uint8)
    ensures 16 * Cable(b) + CodeIndex(b) == b
  {
  }

  /** The forwarding filter of midi_process_message: a nonzero code index and a nonzero first MIDI byte. */
  predicate Forwards(p: Packet4) {
    CodeIndex(p[0]) != 0 && p[1] != 0
  }

  /** Messages of s that the filter forwards. */
  function ForwardCount(s: seq<MidiMessage>): nat {
    if s == [] then 0 else ForwardCount(s[..|s| - 1]) + (if Forwards(s[|s| - 1].packet) then 1 else 0)
  }

  /** Forwarded never outnumbers processed: at most every message of s passes the filter. */
  lemma {:induction false} ForwardCountBound(s: seq<MidiMessage>)
    ensures ForwardCount(s) <= |s|
    ensures ForwardCount(s) == |s| <==> forall i :: 0 <= i < |s| ==> Forwards(s[i].packet)
  {
    if s != [] {
      ForwardCountBound(s[..|s| - 1]);
    }
  }

  /** messages_forwarded after processing s, starting from c: one wrapping increment per forwarded message. */
  function ForwardedAfter(c: uint32, s: seq<MidiMessage>): uint32 {
    if s == [] then c else Bump(ForwardedAfter(c, s[..|s| - 1]), Forwards(s[|s| - 1].packet))
  }

  /** Processing s advances messages_forwarded by the number of forwarded messages, modulo 2^32. */
  lemma {:induction false} ForwardedCounts(c: uint32, s: seq<MidiMessage>)
    ensures ForwardedAfter(c, s) == Add32(c, ForwardCount(s))
  {
    if s != [] {
      ForwardedCounts(c, s[..|s| - 1]);
    }
  }

  /** One round of the drain loop: processing message k of s after the first k extends both counts by it. */
  lemma ProcessStep(s: seq<MidiMessage>, k: nat, c0: uint32, c1: uint32, f: uint32, f': uint32)
    requires k < |s| && f == ForwardedAfter(c1, s[..k]) && f' == Bump(f, Forwards(s[k].packet))
    ensures f' == ForwardedAfter(c1, s[..k + 1])
    ensures CountEach(c0, s[..k + 1]) == Inc32(CountEach(c0, s[..k]))
  {
    CountEachStep(c0, s, k);
    assert s[..k + 1][..k] == s[..k];
  }

  /** The statics of midi_processor.c. */
  class Processor {
    const buffer: array<MidiMessage>
    var head: nat
    var tail: nat
    var messagesProcessed: uint32
    var messagesForwarded: uint32

    ghost predicate Valid()
      reads this`head, this`tail
    {
      buffer.Length == MIDI_BUFFER_SIZE && head < MIDI_BUFFER_SIZE && tail < MIDI_BUFFER_SIZE
    }

    /** The queued messages, oldest first. */
    ghost function Contents(): seq<MidiMessage>
      reads this`head, this`tail, buffer
      requires Valid()
    {
      Window(buffer[..], tail, head)
    }

    /** Static storage before midi_processor_init runs: zero-filled. */
    constructor ()
      ensures Valid() && fresh(buffer) && Contents() == []
      ensures messagesProcessed == 0 && messagesForwarded == 0
    {
      buffer := new MidiMessage[MIDI_BUFFER_SIZE](_ => EMPTY_MESSAGE);
      head, tail := 0, 0;
      messagesProcessed, messagesForwarded := 0, 0;
    }

    /** midi_processor_init: zero the buffer, empty the ring, reset both counters. */
    method Init()
      requires Valid()
      modifies this`head, this`tail, this`messagesProcessed, this`messagesForwarded, buffer
      ensures Valid() && Contents() == []
      ensures forall i :: 0 <= i < buffer.Length ==> buffer[i] == EMPTY_MESSAGE
      ensures messagesProcessed == 0 && messagesForwarded == 0
    {
      forall i | 0 <= i < buffer.Length {
        buffer[i] := EMPTY_MESSAGE;
      }
      head, tail := 0, 0;
      messagesProcessed, messagesForwarded := 0, 0;
    }

    /** midi_buffer_is_full: true exactly when 63 messages, the most the ring holds, are queued. */
    function IsFull(): (full: bool)
      reads this`head, this`tail, buffer
      requires Valid()
      ensures full == ((head + 1) % MIDI_BUFFER_SIZE == tail)
      ensures full <==> |Contents()| == MIDI_BUFFER_SIZE - 1
    {
      FullIff(buffer[..], tail, head);
      (head + 1) % MIDI_BUFFER_SIZE == tail
    }

    /** midi_buffer_is_empty: true exactly when nothing is queued. */
    function IsEmpty(): (empty: bool)
      reads this`head, this`tail, buffer
      requires Valid()
      ensures empty == (head == tail)
      ensures empty <==> Contents() == []
    {
      EmptyIff(buffer[..], tail, head);
      head == tail
    }

    /** midi_buffer_push: drop the message when full; else store packet, time and source at head and advance head. */
    method Push(devAddr: uint8, packet: Packet4, now: uint32) returns (ok: bool)
      requires Valid()
      modifies this`head, buffer
      ensures Valid()
      ensures ok == (|old(Contents())| < MIDI_BUFFER_SIZE - 1)
      ensures ok ==> head == Next(old(head), MIDI_BUFFER_SIZE) &&
                     buffer[..] == old(buffer[..])[old(head) := MidiMessage(packet, now, devAddr)] &&
                     Contents() == old(Contents()) + [MidiMessage(packet, now, devAddr)]
      ensures !ok ==> head == old(head) && buffer[..] == old(buffer[..])
    {
      if IsFull() {
        return false;
      }
      WindowPush(buffer[..], tail, head, MidiMessage(packet, now, devAddr));
      buffer[head] := MidiMessage(packet, now, devAddr);
      head := (head + 1) % MIDI_BUFFER_SIZE;
      ok := true;
    }

    /** midi_buffer_pop: false on an empty ring; else the oldest message, and tail advances. */
    method Pop() returns (ok: bool, message: MidiMessage)
      requires Valid()
      modifies this`tail
      ensures Valid()
      ensures ok == (old(Contents()) != [])
      ensures ok ==> message == old(Contents())[0] && Contents() == old(Contents())[1..] &&
                     tail == Next(old(tail), MIDI_BUFFER_SIZE)
      ensures !ok ==> tail == old(tail)
    {
      if IsEmpty() {
        return false, EMPTY_MESSAGE;
      }
      WindowPop(buffer[..], tail, head);
      message := buffer[tail];
      tail := (tail + 1) % MIDI_BUFFER_SIZE;
      ok := true;
    }

    /** midi_process_message: count every message as processed, and as forwarded when the filter passes it. */
    method ProcessMessage(message: MidiMessage)
      modifies this`messagesProcessed, this`messagesForwarded
      ensures messagesProcessed == Inc32(old(messagesProcessed))
      ensures messagesForwarded == Bump(old(messagesForwarded), Forwards(message.packet))
    {
      var codeIndex := CodeIndex(message.packet[0]);
      if codeIndex != 0 && message.packet[1] != 0 {
        messagesForwarded := Inc32(messagesForwarded);
      }
      messagesProcessed := Inc32(messagesProcessed);
    }

    /**
     * The state of the drain loop of midi_processor_handle_packet after the first k messages of pending
     * have been processed: the rest are still queued and each counter has advanced once per message it counts.
     */
    ghost predicate Processed(pending: seq<MidiMessage>, k: nat, c0: uint32, c1: uint32)
      reads this`head, this`tail, buffer, this`messagesProcessed, this`messagesForwarded
    {
      Valid() && k <= |pending| && Contents() == pending[k..] &&
      messagesProcessed == CountEach(c0, pending[..k]) &&
      messagesForwarded == ForwardedAfter(c1, pending[..k])
    }

    /** One round of the drain loop: pop a message if there is one (ok) and process it. */
    method ProcessNext(ghost pending: seq<MidiMessage>, ghost k: nat, ghost c0: uint32, ghost c1: uint32) returns (ok: bool)
      requires Processed(pending, k, c0, c1)
      modifies this`tail, this`messagesProcessed, this`messagesForwarded
      ensures ok == (k < |pending|)
      ensures Processed(pending, if ok then k + 1 else k, c0, c1)
    {
      var message;
      ok, message := Pop();
      if !ok {
        return;
      }
      DropFirst(pending, k);
      ghost var f := messagesForwarded;
      ProcessMessage(message);
      ProcessStep(pending, k, c0, c1, f, messagesForwarded);
    }

    /**
     * The drain loop of midi_processor_handle_packet: pop and process until the ring is empty. Each
     * message counts once as processed and, if it passes the filter, once as forwarded.
     */
    method ProcessQueued()
      requires Valid()
      modifies this`tail, this`messagesProcessed, this`messagesForwarded
      ensures Valid() && Contents() == []
      ensures messagesProcessed == CountEach(old(messagesProcessed), old(Contents()))
      ensures messagesForwarded == ForwardedAfter(old(messagesForwarded), old(Contents()))
    {
      ghost var pending := Contents();
      ghost var k := 0;
      ghost var c0, c1 := messagesProcessed, messagesForwarded;
      while true
        invariant Processed(pending, k, c0, c1)
        decreases |pending| - k
      {
        var ok := ProcessNext(pending, k, c0, c1);
        if !ok {
          break;
        }
        k := k + 1;
      }
      assert pending[..k] == pending;
    }

    /**
     * midi_processor_handle_packet: queue the packet; if the ring was full nothing changes. Otherwise
     * every queued message, the new one last, is processed in order and the ring is left empty.
     */
    method HandlePacket(devAddr: uint8, packet: Packet4, now: uint32) returns (queued: bool)
      requires Valid()
      modifies this`head, this`tail, buffer, this`messagesProcessed, this`messagesForwarded
      ensures Valid()
      ensures queued == (|old(Contents())| < MIDI_BUFFER_SIZE - 1)
      ensures !queued ==> head == old(head) && tail == old(tail) && buffer[..] == old(buffer[..]) &&
                          messagesProcessed == old(messagesProcessed) &&
                          messagesForwarded == old(messagesForwarded)
      ensures queued ==> Contents() == [] &&
                         messagesProcessed == CountEach(old(messagesProcessed), old(Contents()) + [MidiMessage(packet, now, devAddr)]) &&
                         messagesForwarded == ForwardedAfter(old(messagesForwarded), old(Contents()) + [MidiMessage(packet, now, devAddr)])
    {
      queued := Push(devAddr, packet, now);
      if queued {
        ProcessQueued();
      }
    }

    /**
     * midi_processor_get_stats: both counters, and the buffer usage by the source's formula, which is
     * the number of queued messages, (head - tail) mod 64, and at most 63.
     */
    method GetStats() returns (processed: uint32, forwarded: uint32, usage: nat)
      requires Valid()
      ensures processed == messagesProcessed && forwarded == messagesForwarded
      ensures usage == |Contents()| && usage < MIDI_BUFFER_SIZE
      ensures usage == (head - tail) % MIDI_BUFFER_SIZE
    {
      processed := messagesProcessed;
      forwarded := messagesForwarded;
      usage := if head >= tail then head - tail else MIDI_BUFFER_SIZE - tail + head;
      UsedIsLength(buffer[..], tail, head);
    }
  }
}

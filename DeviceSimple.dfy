/**
 * The device-only test firmware (main_device_simple.c): a Note On test packet every 3 seconds whose
 * note climbs from C4 (60) to C5 (72) and wraps, and the echo of every received packet, with the
 * received and sent counters.
 */
module DeviceSimple {
  import opened Common
  import MidiProcessor

  /** The lowest and highest test notes, C4 and C5. */
  const NOTE_LOW: uint8 := 60
  const NOTE_HIGH: uint8 := 72

  /** Milliseconds that must pass, strictly, between two test sends. */
  const TEST_INTERVAL: uint32 := 3000

  /** note++ followed by the wrap to 60 once it passes 72. */
  function NextNote(n: uint8): (r: uint8)
    requires NOTE_LOW <= n <= NOTE_HIGH
    ensures NOTE_LOW <= r <= NOTE_HIGH
  {
    if n + 1 > NOTE_HIGH then NOTE_LOW else n + 1
  }

  /** The note after k successful sends starting from n. */
  function NoteAfter(n: uint8, k: nat): (r: uint8)
    requires NOTE_LOW <= n <= NOTE_HIGH
    ensures NOTE_LOW <= r <= NOTE_HIGH
  {
    if k == 0 then n else NextNote(NoteAfter(n, k - 1))
  }

  /** x mod 13 is pinned down by any quotient-remainder split of x. */
  lemma Mod13(x: int, q: int, r: int)
    requires x == 13 * q + r && 0 <= r < 13
    ensures x % 13 == r
  {
  }

  /** The notes run through the 13 semitones 60..72 in order: k sends move the note k steps round that cycle. */
  lemma {:induction false} NoteAfterCycles(n: uint8, k: nat)
    requires NOTE_LOW <= n <= NOTE_HIGH
    ensures NoteAfter(n, k) == NOTE_LOW + (n - NOTE_LOW + k) % 13
  {
    if k > 0 {
      NoteAfterCycles(n, k - 1);
      var x := n - NOTE_LOW + k - 1;
      var q, r := x / 13, x % 13;
      assert x == 13 * q + r;
      if r == 12 {
        Mod13(x + 1, q + 1, 0);
      } else {
        Mod13(x + 1, q, r + 1);
      }
    }
  }

  /** The cycle has period exactly 13: k sends bring the note back to where it started iff 13 divides k. */
  lemma NotePeriod(n: uint8, k: nat)
    requires NOTE_LOW <= n <= NOTE_HIGH
    ensures NoteAfter(n, k) == n <==> k % 13 == 0
  {
    NoteAfterCycles(n, k);
    var d := n - NOTE_LOW;
    var q, r := k / 13, k % 13;
    assert k == 13 * q + r;
    if d + r < 13 {
      Mod13(d + k, q, d + r);
    } else {
      Mod13(d + k, q + 1, d + r - 13);
    }
  }

  /** The test packet: cable 0 with code index 9 (Note On), Note On on channel 1, the note, velocity 127. */
  function TestPacket(note: uint8): (p: Packet4)
    ensures p[2] == note
  {
    [0x09, 0x90, note, 0x7F]
  }

  /** The test packet is a Note On on cable 0 that the processor's forwarding filter passes, whatever the note. */
  lemma TestPacketIsNoteOn(note: uint8)
    ensures MidiProcessor.Cable(TestPacket(note)[0]) == 0 && MidiProcessor.CodeIndex(TestPacket(note)[0]) == 9
    ensures MidiProcessor.MessageType(TestPacket(note)[1]) == "Note On"
    ensures MidiProcessor.Forwards(TestPacket(note))
  {
  }

  /** messages_sent after the echo writes with outcomes results, starting from c: one increment per success. */
  function SentAfter(c: uint32, results: seq<bool>): uint32 {
    if results == [] then c else Bump(SentAfter(c, results[..|results| - 1]), results[|results| - 1])
  }

  /** The echo advances messages_sent by the number of successful writes, modulo 2^32. */
  lemma {:induction false} SentAfterCounts(c: uint32, results: seq<bool>)
    ensures SentAfter(c, results) == Add32(c, CountTrue(results))
  {
    if results != [] {
      SentAfterCounts(c, results[..|results| - 1]);
    }
  }

  /** One more write outcome bumps the count for that outcome alone. */
  lemma SentAfterStep(c: uint32, results: seq<bool>, i: nat)
    requires i < |results|
    ensures SentAfter(c, results[..i + 1]) == Bump(SentAfter(c, results[..i]), results[i])
  {
    assert results[..i + 1][..i] == results[..i];
  }

  /** The file statics of main_device_simple.c, with the two function statics of send_test_midi. */
  class TestDevice {
    var deviceReady: bool
    var messagesReceived: uint32
    var messagesSent: uint32
    var lastTest: uint32
    var note: uint8

    /** The note never leaves 60..72. */
    ghost predicate Valid()
      reads this`note
    {
      NOTE_LOW <= note <= NOTE_HIGH
    }

    /** The zero-initialised statics, with note starting at 60. */
    constructor ()
      ensures Valid() && !deviceReady && messagesReceived == 0 && messagesSent == 0
      ensures lastTest == 0 && note == NOTE_LOW
    {
      deviceReady := false;
      messagesReceived, messagesSent, lastTest := 0, 0, 0;
      note := NOTE_LOW;
    }

    /** main: device_ready is set once the device stack is initialised. */
    method MarkReady()
      modifies this`deviceReady
      ensures deviceReady
    {
      deviceReady := true;
    }

    /**
     * send_test_midi: when the device is ready and more than 3000 ms (wrapping uint32 difference) have
     * passed since the last attempt, hand the test packet for the current note to the device write
     * (attempted). Only a successful write (writeOk) counts and advances the note; every attempt,
     * successful or not, restarts the interval at now.
     */
    method SendTestMidi(now: uint32, writeOk: bool) returns (attempted: Option<Packet4>)
      requires Valid()
      modifies this`lastTest, this`note, this`messagesSent
      ensures Valid()
      ensures attempted == if deviceReady && Sub32(now, old(lastTest)) > TEST_INTERVAL then Some(TestPacket(old(note))) else None
      ensures lastTest == if attempted.Some? then now else old(lastTest)
      ensures note == NoteAfter(old(note), if attempted.Some? && writeOk then 1 else 0)
      ensures messagesSent == Bump(old(messagesSent), attempted.Some? && writeOk)
    {
      attempted := None;
      if deviceReady && Sub32(now, lastTest) > TEST_INTERVAL {
        var packet := TestPacket(note);
        attempted := Some(packet);
        if writeOk {
          messagesSent := Inc32(messagesSent);
          note := note + 1;
          if note > NOTE_HIGH {
            note := NOTE_LOW;
          }
        }
        lastTest := now;
      }
    }

    /**
     * tud_midi_rx_cb: every packet read (incoming, in order) is counted in messages_received and written
     * straight back; writeResults[i] is whether the echo of incoming[i] was accepted, and only accepted
     * echoes count in messages_sent. echoed lists the packets handed to the write.
     */
    method EchoCallback(incoming: seq<Packet4>, writeResults: seq<bool>) returns (echoed: seq<Packet4>)
      requires |writeResults| == |incoming|
      modifies this`messagesReceived, this`messagesSent
      ensures echoed == incoming
      ensures messagesReceived == CountEach(old(messagesReceived), incoming)
      ensures messagesSent == SentAfter(old(messagesSent), writeResults)
    {
      ghost var c0, c1 := messagesReceived, messagesSent;
      echoed := [];
      for i := 0 to |incoming|
        invariant echoed == incoming[..i]
        invariant messagesReceived == CountEach(c0, incoming[..i])
        invariant messagesSent == SentAfter(c1, writeResults[..i])
      {
        CountEachStep(c0, incoming, i);
        SentAfterStep(c1, writeResults, i);
        messagesReceived := Inc32(messagesReceived);
        echoed := echoed + [incoming[i]];
        if writeResults[i] {
          messagesSent := Inc32(messagesSent);
        }
      }
      assert incoming[..|incoming|] == incoming;
      assert writeResults[..|writeResults|] == writeResults;
    }
  }
}

/** Fixed-width integer types and the 4-byte USB-MIDI event packet shared by every firmware variant. */
module Common {

  type uint8 = x: int | 0 <= x < 0x100
  type uint16 = x: int | 0 <= x < 0x1_0000
  type uint32 = x: int | 0 <= x < 0x1_0000_0000

  /** One USB-MIDI event packet: byte 0 is cable number and Code Index Number, bytes 1..3 are MIDI data. */
  type Packet4 = s: seq<uint8> | |s| == 4 witness [0, 0, 0, 0]

  datatype Option<T> = None | Some(value: T)

  /** C's counter++ on a uint32: wraps from 2^32 - 1 to 0. */
  function Inc32(x: uint32): uint32 {
    if x == 0xFFFF_FFFF then 0 else x + 1
  }

  /** A uint32 counter after k increments. */
  function Add32(x: uint32, k: nat): uint32 {
    if k == 0 then x else Inc32(Add32(x, k - 1))
  }

  /** A status counter bumped once when b holds. */
  function Bump(c: uint32, b: bool): uint32 {
    if b then Inc32(c) else c
  }

  /** n mod 2^32 is pinned down by any quotient-remainder split of n. */
  lemma ModOf(n: int, q: int, r: int)
    requires n == q * 0x1_0000_0000 + r && 0 <= r < 0x1_0000_0000
    ensures n % 0x1_0000_0000 == r
  {
  }

  /** k wrapping increments add k modulo 2^32. */
  lemma {:induction false} Add32IsModular(x: uint32, k: nat)
    ensures Add32(x, k) == (x + k) % 0x1_0000_0000
  {
    if k > 0 {
      var n := x + k - 1;
      Add32IsModular(x, k - 1);
      var q, r := n / 0x1_0000_0000, n % 0x1_0000_0000;
      assert n == q * 0x1_0000_0000 + r;
      if r == 0xFFFF_FFFF {
        ModOf(n + 1, q + 1, 0);
      } else {
        ModOf(n + 1, q, r + 1);
      }
    }
  }

  /** Increments in two steps land where the same number of increments in one step does. */
  lemma {:induction false} Add32Add32(x: uint32, j: nat, k: nat)
    ensures Add32(Add32(x, j), k) == Add32(x, j + k)
  {
    if k > 0 {
      Add32Add32(x, j, k - 1);
    }
  }

  /** A uint32 counter incremented once for each element of s, in order. */
  function CountEach<T>(c: uint32, s: seq<T>): uint32 {
    if s == [] then c else Inc32(CountEach(c, s[..|s| - 1]))
  }

  /** Counting one more element of s is one more increment. */
  lemma CountEachStep<T>(c: uint32, s: seq<T>, i: nat)
    requires i < |s|
    ensures CountEach(c, s[..i + 1]) == Inc32(CountEach(c, s[..i]))
  {
    assert s[..i + 1][..i] == s[..i];
  }

  /** Counting every element of s adds |s| modulo 2^32. */
  lemma {:induction false} CountEachIsAdd32<T>(c: uint32, s: seq<T>)
    ensures CountEach(c, s) == Add32(c, |s|)
  {
    if s != [] {
      CountEachIsAdd32(c, s[..|s| - 1]);
    }
  }

  /** C's unsigned subtraction a - b on uint32 (wraps modulo 2^32). */
  function Sub32(a: uint32, b: uint32): uint32 {
    (a - b) % 0x1_0000_0000
  }

  /** The wrapping difference undoes the wrapping sum: (b + d) - b == d on uint32. */
  lemma Sub32Add32(b: uint32, d: uint32)
    ensures Sub32(Add32(b, d), b) == d
  {
    Add32IsModular(b, d);
    if b + d < 0x1_0000_0000 {
      ModOf(b + d, 0, b + d);
      ModOf(d, 0, d);
    } else {
      ModOf(b + d, 1, b + d - 0x1_0000_0000);
      ModOf(d - 0x1_0000_0000, -1, d);
    }
  }

  /** A prefix one longer is the prefix with the next element appended. */
  lemma TakeSnoc<T>(s: seq<T>, k: nat)
    requires k < |s|
    ensures s[..k + 1] == s[..k] + [s[k]]
  {
  }

  /** The same, behind a fixed prefix. */
  lemma AppendTakeSnoc<T>(a: seq<T>, s: seq<T>, k: nat)
    requires k < |s|
    ensures a + s[..k + 1] == (a + s[..k]) + [s[k]]
  {
    TakeSnoc(s, k);
  }

  /** Dropping the first element of a suffix gives the next suffix. */
  lemma DropFirst<T>(s: seq<T>, k: nat)
    requires k < |s|
    ensures s[k..][1..] == s[k + 1..]
  {
  }

  /** Number of true entries in a sequence of outcomes. */
  function CountTrue(s: seq<bool>): (r: nat)
    ensures r <= |s|
  {
    if s == [] then 0 else CountTrue(s[..|s| - 1]) + (if s[|s| - 1] then 1 else 0)
  }
}

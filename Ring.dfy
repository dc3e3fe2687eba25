/**
 * The one-slot-empty circular queue that every buffer in the firmware uses: an array of n slots,
 * head is the next slot to write, tail the next slot to read; the queue is empty when head == tail
 * and full when (head + 1) % n == tail, so at most n - 1 entries are held.
 */
module Ring {

  /** The index after i in an n-slot ring: C's (i + 1) % n. */
  function Next(i: nat, n: nat): nat
    requires i < n
  {
    (i + 1) % n
  }

  lemma NextStep(i: nat, n: nat)
    requires i < n
    ensures Next(i, n) == if i + 1 < n then i + 1 else 0
  {
  }

  /** Slot i holds a queued entry. */
  predicate Occupied(i: int, tail: int, head: int) {
    if tail <= head then tail <= i < head else tail <= i || i < head
  }

  /** The entries queued in ring a, oldest first. */
  function Window<T>(a: seq<T>, tail: nat, head: nat): seq<T>
    requires tail < |a| && head < |a|
  {
    if tail <= head then a[tail..head] else a[tail..] + a[..head]
  }

  /** Number of queued entries: the usage formula (head >= tail ? head - tail : n - tail + head). */
  function Used(tail: nat, head: nat, n: nat): nat
    requires tail < n && head < n
  {
    if head >= tail then head - tail else n - tail + head
  }

  /** Used is the length of the window, and it is below n. */
  lemma UsedIsLength<T>(a: seq<T>, tail: nat, head: nat)
    requires tail < |a| && head < |a|
    ensures Used(tail, head, |a|) == |Window(a, tail, head)| < |a|
  {
  }

  /** The ring is empty exactly when head == tail. */
  lemma EmptyIff<T>(a: seq<T>, tail: nat, head: nat)
    requires tail < |a| && head < |a|
    ensures Window(a, tail, head) == [] <==> head == tail
  {
    UsedIsLength(a, tail, head);
  }

  /** The ring is full, (head + 1) % n == tail, exactly when it holds n - 1 entries. */
  lemma FullIff<T>(a: seq<T>, tail: nat, head: nat)
    requires tail < |a| && head < |a|
    ensures Next(head, |a|) == tail <==> |Window(a, tail, head)| == |a| - 1
  {
    NextStep(head, |a|);
    UsedIsLength(a, tail, head);
  }

  /** Writing slot head and advancing head appends exactly that entry. */
  lemma {:induction false} WindowPush<T>(a: seq<T>, tail: nat, head: nat, x: T)
    requires tail < |a| && head < |a| && Next(head, |a|) != tail
    ensures Window(a[head := x], tail, Next(head, |a|)) == Window(a, tail, head) + [x]
  {
    var n := |a|;
    var b := a[head := x];
    NextStep(head, n);
    if tail <= head {
      if head + 1 < n {
        assert b[tail..head + 1] == a[tail..head] + [x];
      } else {
        assert b[tail..] + b[..0] == a[tail..head] + [x];
      }
    } else {
      assert b[tail..] == a[tail..];
      assert b[..head + 1] == a[..head] + [x];
    }
  }

  /** Reading slot tail and advancing tail removes exactly the oldest entry. */
  lemma {:induction false} WindowPop<T>(a: seq<T>, tail: nat, head: nat)
    requires tail < |a| && head < |a| && tail != head
    ensures Window(a, tail, head) == [a[tail]] + Window(a, Next(tail, |a|), head)
  {
    NextStep(tail, |a|);
    if tail < head {
      PopInside(a, tail, head);
    } else if tail + 1 < |a| {
      PopWrapped(a, tail, head);
    } else {
      PopLast(a, tail, head);
    }
  }

  lemma PopInside<T>(a: seq<T>, tail: nat, head: nat)
    requires tail < head < |a|
    ensures Window(a, tail, head) == [a[tail]] + Window(a, tail + 1, head)
  {
    assert a[tail..head] == [a[tail]] + a[tail + 1..head];
  }

  lemma PopWrapped<T>(a: seq<T>, tail: nat, head: nat)
    requires head < tail && tail + 1 < |a|
    ensures Window(a, tail, head) == [a[tail]] + Window(a, tail + 1, head)
  {
    var rest, front := a[tail + 1..], a[..head];
    assert a[tail..] == [a[tail]] + rest;
    assert ([a[tail]] + rest) + front == [a[tail]] + (rest + front);
  }

  lemma PopLast<T>(a: seq<T>, tail: nat, head: nat)
    requires head < tail && tail + 1 == |a|
    ensures Window(a, tail, head) == [a[tail]] + Window(a, 0, head)
  {
    assert a[tail..] == [a[tail]];
    assert a[..head] == a[0..head];
  }

  /** Overwriting a slot that holds no queued entry leaves the queue as it was. */
  lemma {:induction false} WindowUpdateFree<T>(a: seq<T>, tail: nat, head: nat, i: nat, x: T)
    requires tail < |a| && head < |a| && i < |a| && !Occupied(i, tail, head)
    ensures Window(a[i := x], tail, head) == Window(a, tail, head)
  {
    var b := a[i := x];
    if tail <= head {
      assert b[tail..head] == a[tail..head];
    } else {
      assert b[tail..] == a[tail..];
      assert b[..head] == a[..head];
    }
  }

  /** Advancing head past a free slot marks exactly that slot as occupied. */
  lemma OccupiedAfterPush(i: nat, tail: nat, head: nat, n: nat)
    requires tail < n && head < n && i < n && Next(head, n) != tail
    ensures Occupied(i, tail, Next(head, n)) <==> Occupied(i, tail, head) || i == head
  {
    NextStep(head, n);
  }

  /** Advancing tail past a queued slot frees exactly that slot. */
  lemma OccupiedAfterPop(i: nat, tail: nat, head: nat, n: nat)
    requires tail < n && head < n && i < n && tail != head
    ensures Occupied(i, Next(tail, n), head) <==> Occupied(i, tail, head) && i != tail
  {
    NextStep(tail, n);
  }
}

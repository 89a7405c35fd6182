/**
 The ring buffer of live publishes waiting for a client's writer: a deque over a ring that
 grows on demand and is released once drained.
 */
module OutboundQueue {
  import opened Wrappers

  const MIN_CAP := 16
  const IDLE_CAP := 256

  function Max(a: int, b: int): int { if a > b then a else b }
  function Min(a: int, b: int): int { if a < b then a else b }

  /** k modulo the ring length, for k less than two rounds. */
  function Wrap(k: int, len: int): int { if k < len then k else k - len }

  /** Position in the queue of ring slot k. */
  function Place(k: int, head: int, len: int): int { if k >= head then k - head else k + len - head }

  lemma ModIsWrap(k: int, len: int)
    requires 0 <= k < 2 * len
    ensures k % len == Wrap(k, len)
  {
    if k >= len {
      assert k == 1 * len + (k - len);
      DivUnique(k, len, 1, k - len);
    } else {
      DivUnique(k, len, 0, k);
    }
  }

  lemma DivUnique(k: int, len: int, q: int, r: int)
    requires 0 <= r < len && k == q * len + r
    ensures k % len == r
  {
    var d, m := k / len, k % len;
    assert k == d * len + m;
    assert (d - q) * len == r - m;
    MulGap(d - q, len);
  }

  lemma MulGap(a: int, b: int)
    requires b >= 0
    ensures a >= 1 ==> a * b >= b
    ensures a <= -1 ==> a * b <= -b
  {
  }

  class OutboundQueue<T> {
    var ring: array<Option<T>>
    var head: nat
    var n: nat
    const max: int
    var token: bool
    ghost var contents: seq<T>

    /** Slot k holds the element at its place in the queue, or nothing past the end. */
    ghost predicate Valid()
      reads this, ring
    {
      && n == |contents| <= ring.Length
      && (if ring.Length == 0 then head == 0 else head < ring.Length)
      && (forall k :: 0 <= k < ring.Length ==>
            ring[k] == if Place(k, head, ring.Length) < n then Some(contents[Place(k, head, ring.Length)]) else None)
    }

    constructor (max: int)
      ensures Valid() && contents == [] && this.max == max && !token && fresh(ring)
    {
      ring := new Option<T>[0];
      head, n, token, contents := 0, 0, false, [];
      this.max := max;
    }

    method Grow()
      requires Valid() && n == ring.Length
      modifies this`ring, this`head
      ensures Valid() && contents == old(contents) && n < ring.Length && head == 0 && fresh(ring)
      ensures ring.Length <= Max(max, n + 1)
    {
      var size := Max(MIN_CAP, 2 * ring.Length);
      size := Min(size, Max(max, n + 1));
      var bigger := new Option<T>[size](i => None);
      for i := 0 to n
        invariant ring == old(ring) && head == old(head) && Valid()
        invariant forall k :: 0 <= k < i ==> bigger[k] == Some(contents[k])
        invariant forall k :: i <= k < size ==> bigger[k] == None
      {
        ModIsWrap(head + i, ring.Length);
        bigger[i] := ring[(head + i) % ring.Length];
      }
      ring, head := bigger, 0;
    }

    /** Writes behind the last element; there is room. */
    method PutBack(pk: T)
      requires Valid() && n < ring.Length
      modifies this`n, this`contents, ring
      ensures Valid() && contents == old(contents) + [pk]
    {
      ModIsWrap(head + n, ring.Length);
      ring[(head + n) % ring.Length] := Some(pk);
      contents := contents + [pk];
      n := n + 1;
    }

    /** Writes before the first element; there is room. */
    method PutFront(pk: T)
      requires Valid() && n < ring.Length
      modifies this`head, this`n, this`contents, ring
      ensures Valid() && contents == [pk] + old(contents)
    {
      ModIsWrap(head - 1 + ring.Length, ring.Length);
      head := (head - 1 + ring.Length) % ring.Length;
      ring[head] := Some(pk);
      contents := [pk] + contents;
      n := n + 1;
    }

    /** Appends under the lock; the signal to the writer follows. */
    method Append(pk: T) returns (ok: bool)
      requires Valid()
      modifies this`ring, this`head, this`n, this`contents, ring
      ensures Valid() && ok == (|old(contents)| < max) && (ring == old(ring) || fresh(ring))
      ensures contents == if ok then old(contents) + [pk] else old(contents)
    {
      if n >= max {
        return false;
      }
      if n == ring.Length {
        Grow();
      }
      PutBack(pk);
      return true;
    }

    method Push(pk: T) returns (ok: bool)
      requires Valid()
      modifies this, ring
      ensures Valid() && ok == (|old(contents)| < max) && (ring == old(ring) || fresh(ring))
      ensures contents == if ok then old(contents) + [pk] else old(contents)
      ensures token == (old(token) || ok)
    {
      ok := Append(pk);
      if ok {
        Signal();
      }
    }

    method PushFront(pk: T)
      requires Valid()
      modifies this, ring
      ensures Valid() && contents == [pk] + old(contents) && token && (ring == old(ring) || fresh(ring))
    {
      if n == ring.Length {
        Grow();
      }
      PutFront(pk);
      Signal();
    }

    method Pop() returns (r: Option<T>)
      requires Valid()
      modifies this`ring, this`head, this`n, this`contents, ring
      ensures Valid() && (ring == old(ring) || fresh(ring))
      ensures if old(contents) == [] then r == None && contents == []
              else r == Some(old(contents)[0]) && contents == old(contents)[1..]
      ensures contents == [] ==> ring.Length <= IDLE_CAP || old(contents) == []
    {
      if n == 0 {
        return None;
      }
      r := ring[head];
      ring[head] := None;
      ModIsWrap(head + 1, ring.Length);
      head := (head + 1) % ring.Length;
      n := n - 1;
      contents := contents[1..];
      if n == 0 {
        head := 0;
        if ring.Length > IDLE_CAP {
          ring := new Option<T>[0];
        }
      }
    }

    method Signal()
      modifies this`token
      ensures token
    {
      token := true;
    }
  }
}

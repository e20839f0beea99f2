/** window.c: the ring buffer both ends share, and the finite map it stands for. */
module Windows {
  import opened Packets

  /** The value of a Window: a slot is None until a packet is first copied into it. */
  datatype Ring = Ring(bottom: nat, middle: nat, top: nat, slots: seq<Option<Packet>>, valid: seq<bool>)

  function Index(seqNum: nat, size: nat): (k: nat)
    requires seqNum >= 1 && size >= 1
    ensures k < size
  {
    (seqNum - 1) % size
  }

  ghost predicate RingOk(r: Ring) {
    && |r.slots| == |r.valid| >= 1
    && r.bottom >= 1
    && r.top == r.bottom + |r.slots| - 1
    && forall k :: 0 <= k < |r.valid| && r.valid[k] ==> r.slots[k].Some?
  }

  function Add(r: Ring, p: Packet): Ring
    requires |r.slots| == |r.valid| >= 1 && p.seqNum >= 1
  {
    var k := Index(p.seqNum, |r.slots|);
    r.(slots := r.slots[k := Some(p)], valid := r.valid[k := true])
  }

  function Remove(r: Ring, n: nat): Ring
    requires |r.slots| == |r.valid| >= 1 && n >= 1
  {
    r.(valid := r.valid[Index(n, |r.slots|) := false])
  }

  /** The valid flags once the slots of lo, ..., hi - 1 have been cleared. */
  function Cleared(valid: seq<bool>, lo: nat, hi: nat): (v: seq<bool>)
    requires |valid| >= 1 && lo >= 1
    ensures |v| == |valid|
  {
    if hi <= lo then valid else Cleared(valid, lo, hi - 1)[Index(hi - 1, |valid|) := false]
  }

  function SlideTo(r: Ring, newBottom: nat): Ring
    requires |r.slots| == |r.valid| >= 1 && r.bottom >= 1 && newBottom >= 1
  {
    Ring(newBottom,
         if r.middle < newBottom then newBottom else r.middle,
         newBottom + |r.slots| - 1,
         r.slots,
         Cleared(r.valid, r.bottom, newBottom))
  }

  /** The finite map a ring stands for: the buffered packets among the numbers bottom..top. */
  ghost function Early(r: Ring): map<nat, Packet>
    requires RingOk(r)
  {
    map n: nat | r.bottom <= n <= r.top && r.valid[Index(n, |r.slots|)] :: r.slots[Index(n, |r.slots|)].value
  }

  ghost function From<T>(m: map<nat, T>, lo: nat): map<nat, T> {
    map n | n in m && n >= lo :: m[n]
  }

  // ---- Modular aliasing ----

  lemma MulGap(a: int, b: int, size: nat)
    requires a < b
    ensures a * size + size <= b * size
  {
    assert b * size - a * size == (b - a) * size;
    assert (b - a) * size == size + (b - a - 1) * size;
  }

  /** The quotient and remainder by size are the only ones. */
  lemma DivModUnique(x: nat, q: int, r: nat, size: nat)
    requires size >= 1 && x == q * size + r && r < size
    ensures x / size == q && x % size == r
  {
    var q' := x / size;
    assert x == q' * size + x % size;
    if q' < q { MulGap(q', q, size); }
    if q < q' { MulGap(q, q', size); }
  }

  /** Fewer than size apart and different: two numbers never share a slot. */
  lemma DistinctSlots(i: nat, j: nat, size: nat)
    requires 1 <= i < j < i + size
    ensures Index(i, size) != Index(j, size)
  {
    var q, r := (i - 1) / size, Index(i, size);
    assert i - 1 == q * size + r;
    if r + (j - i) < size {
      DivModUnique(j - 1, q, r + (j - i), size);
    } else {
      assert (q + 1) * size == q * size + size;
      DivModUnique(j - 1, q + 1, r + (j - i) - size, size);
    }
  }

  lemma SameSlot(i: nat, size: nat)
    requires i >= 1 && size >= 1
    ensures Index(i + size, size) == Index(i, size)
  {
    var q := (i - 1) / size;
    assert i - 1 == q * size + Index(i, size);
    assert (q + 1) * size == q * size + size;
    DivModUnique(i + size - 1, q + 1, Index(i, size), size);
  }

  lemma FirstLapSlot(i: nat, size: nat)
    requires 1 <= i <= size
    ensures Index(i, size) == i - 1
  {
    DivModUnique(i - 1, 0, i - 1, size);
  }

  /** Clearing lo..hi-1 clears exactly those numbers' slots among any lo..lo+size-1. */
  lemma {:induction false} ClearedAt(valid: seq<bool>, lo: nat, hi: nat)
    requires |valid| >= 1 && 1 <= lo <= hi <= lo + |valid|
    ensures forall n: nat :: lo <= n < hi ==> !Cleared(valid, lo, hi)[Index(n, |valid|)]
    ensures forall n: nat :: hi <= n < lo + |valid| ==> Cleared(valid, lo, hi)[Index(n, |valid|)] == valid[Index(n, |valid|)]
    ensures forall k :: 0 <= k < |valid| && Cleared(valid, lo, hi)[k] ==> valid[k]
    decreases hi
  {
    if lo < hi {
      ClearedAt(valid, lo, hi - 1);
      forall n: nat | hi <= n < lo + |valid| ensures Index(n, |valid|) != Index(hi - 1, |valid|) {
        DistinctSlots(hi - 1, n, |valid|);
      }
    }
  }

  // ---- The ring implements a finite map on bottom..top ----

  lemma AddIsUpdate(r: Ring, p: Packet)
    requires RingOk(r) && r.bottom <= p.seqNum <= r.top
    ensures RingOk(Add(r, p)) && Early(Add(r, p)) == Early(r)[p.seqNum := p]
  {
    forall n: nat | r.bottom <= n <= r.top && n != p.seqNum
      ensures Index(n, |r.slots|) != Index(p.seqNum, |r.slots|)
    {
      if n < p.seqNum { DistinctSlots(n, p.seqNum, |r.slots|); } else { DistinctSlots(p.seqNum, n, |r.slots|); }
    }
  }

  lemma RemoveIsDelete(r: Ring, i: nat)
    requires RingOk(r) && r.bottom <= i <= r.top
    ensures RingOk(Remove(r, i)) && Early(Remove(r, i)) == Early(r) - {i}
  {
    forall n: nat | r.bottom <= n <= r.top && n != i ensures Index(n, |r.slots|) != Index(i, |r.slots|) {
      if n < i { DistinctSlots(n, i, |r.slots|); } else { DistinctSlots(i, n, |r.slots|); }
    }
  }

  /**
   * A slide to any number moves bottom and top there and raises middle to it if need be; it touches no packet, and a
   * slide that does not go forward clears no flag either.
   */
  lemma SlideKeeps(r: Ring, n: nat)
    requires RingOk(r) && n >= 1
    ensures var t := SlideTo(r, n);
            && t.bottom == n && t.top == n + |r.slots| - 1 && t.slots == r.slots
            && t.middle >= n && t.middle >= r.middle && (t.middle == n || t.middle == r.middle)
            && (n <= r.bottom ==> t.valid == r.valid)
            && (forall k :: 0 <= k < |r.valid| && t.valid[k] ==> r.valid[k])
  {
    if n > r.bottom { ClearsOnly(r.valid, r.bottom, n); }
  }

  lemma {:induction false} ClearsOnly(valid: seq<bool>, lo: nat, hi: nat)
    requires |valid| >= 1 && 1 <= lo <= hi
    ensures forall k :: 0 <= k < |valid| && Cleared(valid, lo, hi)[k] ==> valid[k]
    decreases hi
  {
    if lo < hi { ClearsOnly(valid, lo, hi - 1); }
  }

  /** Sliding by at most size drops exactly the keys below the new bottom; newly exposed numbers are absent. */
  lemma SlideIsDrop(r: Ring, newBottom: nat)
    requires RingOk(r) && r.bottom <= newBottom <= r.top + 1
    ensures RingOk(SlideTo(r, newBottom)) && Early(SlideTo(r, newBottom)) == From(Early(r), newBottom)
  {
    var s := SlideTo(r, newBottom);
    var size := |r.slots|;
    ClearedAt(r.valid, r.bottom, newBottom);
    forall n: nat | r.top < n <= s.top ensures !s.valid[Index(n, size)] {
      SameSlot(n - size, size);
    }
  }

  // ---- The struct and its operations ----

  class Window {
    const size: nat
    var bottom: nat
    var middle: nat
    var top: nat
    const buffer: array<Option<Packet>>
    const valid: array<bool>

    ghost predicate Valid()
      reads this
    {
      buffer.Length == valid.Length == size >= 1 && bottom >= 1 && buffer as object != valid
    }

    ghost function View(): (r: Ring)
      reads this, buffer, valid
    {
      Ring(bottom, middle, top, buffer[..], valid[..])
    }

    constructor (n: nat)
      requires n >= 1
      ensures Valid() && size == n && fresh(buffer) && fresh(valid)
      ensures View() == Ring(1, 1, n, seq(n, _ => None), seq(n, _ => false))
      ensures RingOk(View()) && Early(View()) == map[]
    {
      bottom, middle, top, size := 1, 1, n, n;
      buffer := new Option<Packet>[n](_ => None);
      valid := new bool[n](_ => false);
    }

    predicate IsClosed()
      reads this
    {
      middle > top
    }

    predicate IsInWindow(seqNum: nat)
      reads this
    {
      bottom <= seqNum <= top
    }

    predicate IsValid(seqNum: nat)
      requires Valid() && seqNum >= 1
      reads this, valid
    {
      valid[Index(seqNum, size)]
    }

    method AddToBuffer(p: Packet)
      requires Valid() && p.seqNum >= 1
      modifies buffer, valid
      ensures View() == Add(old(View()), p)
    {
      var index := Index(p.seqNum, size);
      buffer[index] := Some(p);
      valid[index] := true;
    }

    method GetFromBuffer(seqNum: nat) returns (p: Option<Packet>)
      requires Valid() && seqNum >= 1
      ensures p == View().slots[Index(seqNum, size)]
    {
      p := buffer[Index(seqNum, size)];
    }

    method RemoveFromBuffer(seqNum: nat) returns (p: Option<Packet>)
      requires Valid() && seqNum >= 1
      modifies valid
      ensures p == old(View()).slots[Index(seqNum, size)]
      ensures View() == Remove(old(View()), seqNum)
    {
      var index := Index(seqNum, size);
      p := buffer[index];
      valid[index] := false;
    }

    method Slide(newBottom: nat)
      requires Valid() && newBottom >= 1
      modifies this, valid
      ensures Valid() && View() == SlideTo(old(View()), newBottom)
    {
      var i := bottom;
      while i < newBottom
        invariant bottom <= i && (bottom <= newBottom ==> i <= newBottom) && (newBottom < bottom ==> i == bottom)
        invariant valid[..] == Cleared(old(valid[..]), bottom, i)
        modifies valid
      {
        valid[Index(i, size)] := false;
        i := i + 1;
      }
      bottom := newBottom;
      top := newBottom + size - 1;
      middle := if middle < bottom then bottom else middle;
    }

    method EmptyBuffer() returns (empty: bool)
      requires Valid() && RingOk(View())
      ensures empty <==> Early(View()) == map[]
    {
      var i := bottom;
      while i <= top
        invariant bottom <= i <= top + 1
        invariant forall n: nat :: bottom <= n < i ==> !valid[Index(n, size)]
      {
        if valid[Index(i, size)] {
          assert i in Early(View());
          return false;
        }
        i := i + 1;
      }
      empty := true;
    }
  }
}

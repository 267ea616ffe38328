/** `ringbuffer.c` in memory: elements of a fixed size in one block of bytes. The
    methods are the sections that hold the lock; blocking is in WaitQueue. */
module RingBuffer {

  type Byte = bv8

  /** Slots do not overlap and lie inside the block. */
  lemma SlotBounds(i: nat, j: nat, n: nat, e: nat)
    requires i < j <= n
    ensures 0 <= i * e <= i * e + e <= j * e <= n * e
  {
    assert i * e + e == (i + 1) * e;
    assert (i + 1) * e <= j * e by { MulMono(i + 1, j, e); }
    assert j * e <= n * e by { MulMono(j, n, e); }
  }

  lemma MulMono(a: nat, b: nat, e: nat)
    requires a <= b
    ensures a * e <= b * e
  {
    assert b * e == a * e + (b - a) * e;
  }

  /** Positions in a ring: `(start + k) % size`, which wraps at most once. */
  function Wrap(p: nat, size: nat): (r: nat)
    requires size > 0 && p < 2 * size
    ensures r < size && r == p % size
    ensures r == if p < size then p else p - size
  {
    if p < size then p else p - size
  }

  class RingBuffer {
    const size: nat
    const elemSize: nat
    const elems: array<Byte>
    var waiters: int
    var used: nat
    var start: nat
    var end: nat

    ghost predicate Valid()
      reads this
    {
      && elems.Length == size * elemSize
      && used <= size
      && (size == 0 ==> start == 0 && end == 0)
      && (size > 0 ==> start < size && end == Wrap(start + used, size))
    }

    /** `rb_item_at`, as the bytes of the slot. */
    ghost function Item(pos: nat): (s: seq<Byte>)
      requires elems.Length == size * elemSize && pos < size
      reads elems
      ensures |s| == elemSize
    {
      SlotBounds(pos, pos + 1, size, elemSize);
      elems[pos * elemSize..pos * elemSize + elemSize]
    }

    /** The queue, oldest first. */
    ghost function Contents(): (q: seq<seq<Byte>>)
      requires Valid()
      reads this, elems
      ensures |q| == used && forall k :: 0 <= k < used ==> q[k] == Item(Wrap(start + k, size))
    {
      seq(used, k requires 0 <= k < used && Valid() reads this, elems => Item(Wrap(start + k, size)))
    }

    /** `ringbuffer_init` on zeroed memory. */
    constructor (size: nat, elemSize: nat)
      ensures Valid() && Contents() == [] && waiters == 0
      ensures this.size == size && this.elemSize == elemSize && fresh(elems)
    {
      this.size, this.elemSize := size, elemSize;
      MulMono(0, size, elemSize);
      elems := new Byte[size * elemSize](_ => 0);
      waiters, used, start, end := 0, 0, 0, 0;
    }

    /** `ringbuffer_clear` moves both ends to the front and forgets to empty the
        buffer: it keeps the invariant exactly when the buffer is empty or full. */
    method Clear()
      requires Valid()
      modifies this`start, this`end
      ensures start == 0 && end == 0
      ensures Valid() <==> (used == 0 || used == size)
      ensures used == 0 ==> Contents() == []
    {
      start := 0;
      end := 0;
    }

    method IsFull() returns (r: bool)
      requires Valid()
      ensures r <==> |Contents()| == size
    {
      r := used == size;
    }

    method IsEmpty() returns (r: bool)
      requires Valid()
      ensures r <==> Contents() == []
    {
      r := used == 0;
    }

    /** The `memcpy` into slot `pos`: no other slot changes. */
    method WriteItem(pos: nat, elem: seq<Byte>)
      requires elems.Length == size * elemSize && pos < size && |elem| == elemSize
      modifies elems
      ensures Item(pos) == elem
      ensures forall p :: 0 <= p < size && p != pos ==> Item(p) == old(Item(p))
    {
      SlotBounds(pos, pos + 1, size, elemSize);
      var at, i := pos * elemSize, 0;
      while i < elemSize
        invariant 0 <= i <= elemSize
        invariant elems[at..at + i] == elem[..i]
        invariant forall b :: 0 <= b < elems.Length && !(at <= b < at + elemSize) ==> elems[b] == old(elems[b])
      {
        elems[at + i] := elem[i];
        i := i + 1;
      }
      forall p | 0 <= p < size && p != pos
        ensures Item(p) == old(Item(p))
      {
        SlotBounds(p, p + 1, size, elemSize);
        if p < pos {
          SlotBounds(p, pos, size, elemSize);
        } else {
          SlotBounds(pos, p, size, elemSize);
        }
      }
    }

    /** `ringbuffer_put`: 0 and the element at the back of the queue, or -1 and
        nothing changed. Only bytes of a slot that held no element are written. */
    method Put(elem: seq<Byte>) returns (ret: int, signal: bool)
      requires Valid() && |elem| == elemSize
      modifies this`used, this`end, elems
      ensures Valid()
      ensures ret == (if old(used) == size then -1 else 0)
      ensures Contents() == if ret == 0 then old(Contents()) + [elem] else old(Contents())
      ensures signal <==> ret == 0 && waiters > 0
      ensures forall p :: 0 <= p < size && (ret != 0 || p != old(end)) ==> Item(p) == old(Item(p))
    {
      hide Item;
      if used == size {
        return -1, false;
      }
      WriteItem(end, elem);
      used := used + 1;
      end := Wrap(end + 1, size);
      ret, signal := 0, waiters > 0;
      assert Wrap(start + old(used), size) == old(end);
      forall k: nat | k < old(used)
        ensures Contents()[k] == old(Contents())[k]
      {
        assert Wrap(start + k, size) != old(end);
      }
    }

    /** `ringbuffer_get` up to its wait loop. */
    method BeginGet()
      modifies this`waiters
      ensures waiters == old(waiters) + 1
    {
      waiters := waiters + 1;
    }

    /** `ringbuffer_get` from the exit of its wait loop on: the oldest element. */
    method FinishGet() returns (elem: seq<Byte>)
      requires Valid() && Contents() != []
      modifies this`waiters, this`used, this`start
      ensures Valid() && waiters == old(waiters) - 1
      ensures elem == old(Contents())[0] && Contents() == old(Contents())[1..]
    {
      waiters := waiters - 1;
      SlotBounds(start, start + 1, size, elemSize);
      elem := elems[start * elemSize..start * elemSize + elemSize];
      assert elem == Item(start);
      hide Item;
      used := used - 1;
      start := Wrap(start + 1, size);
      forall k: nat | k < used
        ensures Contents()[k] == old(Contents())[k + 1]
      {
        assert Wrap(start + k, size) == Wrap(old(start) + k + 1, size);
      }
    }
  }

  datatype Op = PutOp(elem: seq<Byte>) | GetOp

  /** How many elements there are after `ops`, of `used` before and `size` that fit. */
  function Level(ops: seq<Op>, used: nat, size: nat): nat {
    if ops == [] then used
    else
      var n := Level(ops[..|ops| - 1], used, size);
      if ops[|ops| - 1].PutOp? then if n < size then n + 1 else n
      else if n > 0 then n - 1 else 0
  }

  /** The elements of the puts that find room. */
  function Accepted(ops: seq<Op>, used: nat, size: nat): seq<seq<Byte>> {
    if ops == [] then []
    else
      var before, op := ops[..|ops| - 1], ops[|ops| - 1];
      Accepted(before, used, size) + if op.PutOp? && Level(before, used, size) < size then [op.elem] else []
  }

  /** The gets that find something. */
  function Gets(ops: seq<Op>, used: nat, size: nat): nat {
    if ops == [] then 0
    else
      var before, op := ops[..|ops| - 1], ops[|ops| - 1];
      Gets(before, used, size) + if op.GetOp? && Level(before, used, size) > 0 then 1 else 0
  }

  /** One operation, with a get that would block left out. */
  method ServeOne(rb: RingBuffer, op: Op) returns (accepted: seq<seq<Byte>>, taken: seq<seq<Byte>>)
    requires rb.Valid() && (op.PutOp? ==> |op.elem| == rb.elemSize)
    modifies rb, rb.elems
    ensures rb.Valid() && rb.waiters == old(rb.waiters)
    ensures old(rb.Contents()) + accepted == taken + rb.Contents()
    ensures accepted == if op.PutOp? && old(rb.used) < rb.size then [op.elem] else []
    ensures |taken| == if op.GetOp? && old(rb.used) > 0 then 1 else 0
    ensures rb.used == old(rb.used) + |accepted| - |taken|
  {
    hide Wrap, RingBuffer.Item;
    accepted, taken := [], [];
    match op
    case PutOp(elem) =>
      var ret, _ := rb.Put(elem);
      if ret == 0 {
        accepted := [elem];
      }
    case GetOp =>
      var empty := rb.IsEmpty();
      if !empty {
        rb.BeginGet();
        var elem := rb.FinishGet();
        taken := [elem];
      }
  }

  /** Any sequence of operations, with gets that would block left out: what was
      in the buffer and then accepted is what was taken and then is left. A put is
      accepted exactly if there is room, a get succeeds exactly if there is something. */
  method Serve(rb: RingBuffer, ops: seq<Op>) returns (accepted: seq<seq<Byte>>, taken: seq<seq<Byte>>)
    requires rb.Valid() && forall i :: 0 <= i < |ops| && ops[i].PutOp? ==> |ops[i].elem| == rb.elemSize
    modifies rb, rb.elems
    ensures rb.Valid() && rb.waiters == old(rb.waiters)
    ensures rb.size > 0 ==> rb.end == (rb.start + rb.used) % rb.size
    ensures old(rb.Contents()) + accepted == taken + rb.Contents()
    ensures accepted == Accepted(ops, old(rb.used), rb.size) && |taken| == Gets(ops, old(rb.used), rb.size)
    ensures rb.used == Level(ops, old(rb.used), rb.size)
  {
    hide Wrap, RingBuffer.Contents, RingBuffer.Item, Level, Accepted, Gets;
    accepted, taken := [], [];
    ghost var first, n := rb.Contents(), rb.used;
    assert first + [] == [] + first;
    NoneYet(ops, n, rb.size);
    for i := 0 to |ops|
      invariant rb.Valid() && rb.waiters == old(rb.waiters)
      invariant first + accepted == taken + rb.Contents()
      invariant rb.used == Level(ops[..i], n, rb.size)
      invariant accepted == Accepted(ops[..i], n, rb.size) && |taken| == Gets(ops[..i], n, rb.size)
    {
      ghost var q := rb.Contents();
      OneMore(ops, i, n, rb.size);
      var a, t := ServeOne(rb, ops[i]);
      Carry(first, accepted, taken, q, a, t, rb.Contents());
      accepted, taken := accepted + a, taken + t;
    }
  }

  lemma Carry(first: seq<seq<Byte>>, accepted: seq<seq<Byte>>, taken: seq<seq<Byte>>, q: seq<seq<Byte>>,
              a: seq<seq<Byte>>, t: seq<seq<Byte>>, q': seq<seq<Byte>>)
    requires first + accepted == taken + q && q + a == t + q'
    ensures first + (accepted + a) == (taken + t) + q'
  {
    assert first + (accepted + a) == (first + accepted) + a && (taken + t) + q' == taken + (t + q');
    assert (taken + q) + a == taken + (q + a);
  }

  lemma NoneYet(ops: seq<Op>, used: nat, size: nat)
    ensures Level(ops[..0], used, size) == used && Accepted(ops[..0], used, size) == [] && Gets(ops[..0], used, size) == 0
    ensures ops[..|ops|] == ops
  {
  }

  lemma OneMore(ops: seq<Op>, i: nat, used: nat, size: nat)
    requires i < |ops|
    ensures var n, op := Level(ops[..i], used, size), ops[i];
      var a, g := if op.PutOp? && n < size then [op.elem] else [], if op.GetOp? && n > 0 then 1 else 0;
      && Level(ops[..i + 1], used, size) == n + |a| - g
      && Accepted(ops[..i + 1], used, size) == Accepted(ops[..i], used, size) + a
      && Gets(ops[..i + 1], used, size) == Gets(ops[..i], used, size) + g
  {
    assert ops[..i + 1][..i] == ops[..i];
  }
}

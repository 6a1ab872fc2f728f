/** The linear arena allocator.  Addresses are numbers, 0 is the null pointer. */
module Mempool {
  import opened Octets

  // ---------------------------------------------------------------- alignment

  /** Bitwise and. */
  function BitAnd(a: nat, b: nat): nat
    decreases a
  {
    if a == 0 || b == 0 then 0
    else 2 * BitAnd(a / 2, b / 2) + (if a % 2 == 1 && b % 2 == 1 then 1 else 0)
  }

  predicate IsPowerOf2(a: nat)
  {
    a == 1 || (a > 1 && a % 2 == 0 && IsPowerOf2(a / 2))
  }

  lemma {:induction false} AndSelf(a: nat)
    ensures BitAnd(a, a) == a
  {
    if a > 0 {
      AndSelf(a / 2);
    }
  }

  /** The test the allocator makes accepts exactly the powers of two. */
  lemma {:induction false} MaskTest(a: nat)
    requires a > 0
    ensures BitAnd(a, a - 1) == 0 <==> IsPowerOf2(a)
  {
    if a % 2 == 1 {
      if a > 1 {
        assert (a - 1) / 2 == a / 2;
        AndSelf(a / 2);
      }
    } else {
      assert (a - 1) / 2 == a / 2 - 1;
      MaskTest(a / 2);
    }
  }

  lemma Multiples(a: nat, p: nat, q: nat)
    requires p <= q
    ensures p * a <= q * a
    ensures p < q ==> p * a + a <= q * a
  {
    var k := q - p;
    assert q * a == p * a + k * a;
    if k > 0 {
      assert k * a == (k - 1) * a + a;
    }
  }

  lemma QuotientBound(d: nat, p: nat, q: nat, r: nat, t: nat)
    requires q * d + r <= p * d + t && t < d
    ensures q <= p
  {
    if q > p {
      Multiples(d, p, q);
    }
  }

  lemma RemainderUnique(x: nat, d: nat, q: nat, r: nat)
    requires d > 0 && r < d && x == q * d + r
    ensures x % d == r && x / d == q
  {
    var p, t := x / d, x % d;
    assert x == p * d + t;
    QuotientBound(d, q, p, t, r);
    QuotientBound(d, p, q, r, t);
  }

  lemma HalfRemainder(x: nat, h: nat)
    requires h > 0
    ensures x % (2 * h) == 2 * (x / 2 % h) + x % 2
  {
    var q := x / 2 / h;
    var r := x / 2 % h;
    assert x / 2 == q * h + r;
    assert x == q * (2 * h) + (2 * r + x % 2) by {
      assert x == 2 * (q * h + r) + x % 2;
      assert q * (2 * h) == 2 * (q * h);
    }
    RemainderUnique(x, 2 * h, q, 2 * r + x % 2);
  }

  /** Masking with a power of two less one takes the remainder. */
  lemma {:induction false} MaskIsRemainder(x: nat, a: nat)
    requires IsPowerOf2(a)
    ensures BitAnd(x, a - 1) == x % a
    decreases a
  {
    if a > 1 {
      MaskIsRemainder(x / 2, a / 2);
      HalfRemainder(x, a / 2);
      if x > 0 {
        assert (a - 1) / 2 == a / 2 - 1;
      }
    }
  }

  /** The least multiple of `a` that is not below `x`. */
  function AlignUp(x: nat, a: nat): nat
    requires a > 0
  {
    if x % a == 0 then x else x + (a - x % a)
  }

  lemma NextMultiple(a: nat, q: nat, r: nat, p: nat)
    requires 0 < r < a && q * a + r <= p * a
    ensures (q + 1) * a <= p * a
  {
    QuotientBound(a, p, q, r, 0);
    if q < p {
      Multiples(a, q + 1, p);
    }
  }

  lemma AlignUpLeast(x: nat, a: nat, y: nat)
    requires a > 0
    ensures AlignUp(x, a) % a == 0 && x <= AlignUp(x, a) < x + a
    ensures x <= y && y % a == 0 ==> AlignUp(x, a) <= y
  {
    var q, r := x / a, x % a;
    var qa := q * a;
    assert x == qa + r;
    if r != 0 {
      assert (q + 1) * a == qa + a;
      RemainderUnique(qa + a, a, q + 1, 0);
      if x <= y && y % a == 0 {
        NextMultiple(a, q, r, y / a);
      }
    }
  }

  // ---------------------------------------------------------------- the arena

  datatype Block = Block(addr: nat, size: nat)

  /** Blocks lie in `lo..hi`, in the order of allocation and without overlap. */
  predicate Laid(bs: seq<Block>, lo: nat, hi: nat)
  {
    && (forall i :: 0 <= i < |bs| ==> bs[i].size > 0 && lo <= bs[i].addr && bs[i].addr + bs[i].size <= hi)
    && (forall i, j :: 0 <= i < j < |bs| ==> bs[i].addr + bs[i].size <= bs[j].addr)
  }

  /** `Object` is what aligned blocks hold; objects die when the arena is reclaimed. */
  class Mempool<Object> {
    const start: nat
    const end: nat
    var head: nat
    var objects: map<nat, Object>
    ghost var blocks: seq<Block>

    ghost predicate Valid()
      reads this
    {
      && 0 < start <= head <= end
      && Laid(blocks, start, head)
      && (forall p :: p in objects ==> exists i :: 0 <= i < |blocks| && blocks[i].addr == p)
    }

    /** `base` is the address malloc() has returned: not null, aligned for every object. */
    constructor (base: nat, size: nat)
      requires base > 0 && base % 16 == 0
      ensures Valid() && start == base && end == base + size && head == start
      ensures blocks == [] && objects == map[]
    {
      start, end, head := base, base + size, base;
      objects, blocks := map[], [];
    }

    /** Without room the result is null, on which the program gives up. */
    method AllocUnaligned(size: nat) returns (p: nat)
      requires Valid()
      modifies this
      ensures Valid() && objects == old(objects)
      ensures p != 0 <==> size > 0 && old(head) + size <= end
      ensures p != 0 ==> p == old(head) && head == p + size && blocks == old(blocks) + [Block(p, size)]
      ensures p == 0 ==> head == old(head) && blocks == old(blocks)
      ensures p !in old(objects)
    {
      NotBelow();
      if size == 0 {
        return 0;
      }
      if head + size <= end {
        p := head;
        head := head + size;
        blocks := blocks + [Block(p, size)];
        ObjectsKept(old(blocks), Block(p, size));
        return;
      }
      return 0;
    }

    method AllocAligned(size: nat, align: nat) returns (p: nat)
      requires Valid() && (align > 0 ==> IsPowerOf2(align))
      modifies this
      ensures Valid() && objects == old(objects)
      ensures p != 0 <==> size > 0 && align > 0 && AlignUp(old(head), align) + size <= end
      ensures p != 0 ==> p == AlignUp(old(head), align) && head == p + size && blocks == old(blocks) + [Block(p, size)]
      ensures p == 0 ==> head == old(head) && blocks == old(blocks)
      ensures p !in old(objects)
    {
      NotBelow();
      if size == 0 || align == 0 {
        return 0;
      }
      var alignMask := align - 1;
      MaskTest(align);
      assert BitAnd(align, alignMask) == 0;
      var mod := BitAnd(head, alignMask);
      MaskIsRemainder(head, align);
      var adjustedHead := head + (if mod != 0 then align - mod else 0);
      assert adjustedHead == AlignUp(head, align);
      if adjustedHead + size <= end {
        p := adjustedHead;
        head := adjustedHead + size;
        blocks := blocks + [Block(p, size)];
        ObjectsKept(old(blocks), Block(p, size));
        return;
      }
      return 0;
    }

    /** An aligned block with an object in it, or null without room. */
    method AllocObject(size: nat, align: nat, o: Object) returns (p: nat)
      requires Valid() && size > 0 && IsPowerOf2(align)
      modifies this
      ensures Valid() && (p != 0 <==> AlignUp(old(head), align) + size <= end)
      ensures p != 0 ==> p == AlignUp(old(head), align) && head == p + size && blocks == old(blocks) + [Block(p, size)]
      ensures p != 0 ==> p !in old(objects) && objects == old(objects)[p := o]
      ensures p == 0 ==> head == old(head) && blocks == old(blocks) && objects == old(objects)
    {
      p := AllocAligned(size, align);
      if p != 0 {
        objects := objects[p := o];
        assert blocks[|blocks| - 1].addr == p;
      }
    }

    /** Changes an object in place. */
    method Overwrite(p: nat, o: Object)
      requires Valid() && p in objects
      modifies this`objects
      ensures Valid() && objects == old(objects)[p := o]
    {
      objects := objects[p := o];
    }

    method ReclaimAll()
      requires Valid()
      modifies this
      ensures Valid() && head == start && blocks == [] && objects == map[]
    {
      head := start;
      blocks, objects := [], map[];
    }

    /** No live object sits at or above the head, or at null. */
    lemma NotBelow()
      requires Valid()
      ensures 0 !in objects && forall p :: p in objects ==> p < head
    {
    }

    lemma ObjectsKept(bs: seq<Block>, b: Block)
      requires forall p :: p in objects ==> exists i :: 0 <= i < |bs| && bs[i].addr == p
      ensures forall p :: p in objects ==> exists i :: 0 <= i < |bs + [b]| && (bs + [b])[i].addr == p
    {
      forall p | p in objects
        ensures exists i :: 0 <= i < |bs + [b]| && (bs + [b])[i].addr == p
      {
        var i :| 0 <= i < |bs| && bs[i].addr == p;
        assert (bs + [b])[i].addr == p;
      }
    }
  }
}

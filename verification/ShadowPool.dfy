/**
 * ncclShadowPool (nccl/src/allocator.cc): pairs of device and host objects, found again through
 * a hash table on the device address.  Small device objects live in pages of 2 to 64 slots whose
 * free slots are a bit mask; pages with a free slot are chained in a list.
 *
 * A device address is represented by the page and slot, or by the allocation, it stands for, and
 * the hash function is left abstract.
 */
module ShadowPool {
  import opened Arith

  // ---------------------------------------------------------------- page geometry

  const PAGE_BYTES: nat := 65536

  function Log2Down(x: nat): (e: nat)
    requires 0 < x
    ensures Pow2(e) <= x < Pow2(e + 1)
  {
    if x == 1 then 0 else Log2Down(x / 2) + 1
  }

  /** Sizes that are allocated in pages. */
  predicate Paged(size: nat) { 0 < size && PAGE_BYTES / size >= 3 }

  lemma PagedIff(size: nat)
    ensures Paged(size) <==> 0 < size && 3 * size <= 65536
  {
    if 0 < size {
      var q := PAGE_BYTES / size;
      assert PAGE_BYTES == size * q + PAGE_BYTES % size;
      if 3 <= q { MulMono(size, 3, q); } else { MulMono(size, q + 1, 3); }
    }
  }

  /** Sizes are rounded up to keep four significant bits. */
  function PageObjSize(size: nat): nat
    requires 0 < size
  {
    var shift := if Log2Down(size) < 3 then 0 else Log2Down(size) - 3;
    (size + Pow2(shift) - 1) / Pow2(shift) * Pow2(shift)
  }

  /** The bytes allocated for a page. */
  function PageSize(objSize: nat): nat
  {
    if 64 * objSize < PAGE_BYTES then 64 * objSize else PAGE_BYTES
  }

  function Slots(objSize: nat): nat
    requires 0 < objSize
  {
    PageSize(objSize) / objSize
  }

  lemma RoundUp(size: nat, p: nat)
    requires 0 < p
    ensures var r := (size + p - 1) / p * p; size <= r < size + p && r % p == 0
  {
    var q, r := (size + p - 1) / p, (size + p - 1) % p;
    assert size + p - 1 == q * p + r;
    assert q * p == p * q;
    MultipleMod(q, p);
  }

  lemma {:induction false} Log2Unique(size: nat, e: nat)
    requires Pow2(e) <= size < Pow2(e + 1)
    ensures Log2Down(size) == e
  {
    var d := Log2Down(size);
    if d < e && d + 1 < e { Pow2Mono(d + 1, e); }
    if e < d && e + 1 < d { Pow2Mono(e + 1, d); }
  }

  /**
   * The rounding, for a size whose highest bit is bit `e`: the least multiple of `p` that is not
   * below the size, where `p` leaves the four highest bits.
   */
  lemma ObjSizeIs(size: nat, e: nat, p: nat)
    requires Pow2(e) <= size < Pow2(e + 1) && p == if e < 3 then 1 else Pow2(e - 3)
    ensures var o := PageObjSize(size);
      o % p == 0 && size <= o < size + p && o <= 16 * p && (3 <= e ==> 8 * p <= size)
  {
    Log2Unique(size, e);
    RoundUp(size, p);
    if 3 <= e {
      assert Pow2(e) == 2 * Pow2(e - 1) && Pow2(e - 1) == 2 * Pow2(e - 2) && Pow2(e - 2) == 2 * Pow2(e - 3);
      BelowMultiple(PageObjSize(size), size, p);
    } else {
      assert Pow2(1) == 2 && Pow2(2) == 4 && Pow2(3) == 8;
    }
  }

  /** A multiple of `p` below `17 * p` is at most `16 * p`. */
  lemma BelowMultiple(o: nat, size: nat, p: nat)
    requires 0 < p && o % p == 0 && o < size + p && size < 16 * p
    ensures o <= 16 * p
  {
    var q := o / p;
    assert o == p * q;
    if 17 <= q { MulMono(p, 17, q); }
    MulMono(p, q, if q < 16 then 16 else q);
  }

  /** The slots fill the page up to less than one object. */
  lemma SlotsFill(o: nat)
    requires 0 < o
    ensures Slots(o) * o <= Min(65536, 64 * o) < (Slots(o) + 1) * o
  {
    var n := PageSize(o);
    assert n == o * (n / o) + n % o;
    assert (n / o + 1) * o == n / o * o + o;
  }

  /** Every new page has between 2 and 64 slots. */
  lemma PageSlots(size: nat)
    requires Paged(size)
    ensures size <= PageObjSize(size) && 2 <= Slots(PageObjSize(size)) <= 64
  {
    var e := Log2Down(size);
    var p, o := if e < 3 then 1 else Pow2(e - 3), PageObjSize(size);
    ObjSizeIs(size, e, p);
    PagedIff(size);
    SlotsFill(o);
    SlotsBetween(o, Slots(o));
  }

  lemma ObjSizeBound(size: nat)
    requires 0 < size <= 21845
    ensures 0 < PageObjSize(size) <= 32768
  {
    var e := Log2Down(size);
    ObjSizeIs(size, e, if e < 3 then 1 else Pow2(e - 3));
  }

  lemma SlotsBetween(o: nat, n: nat)
    requires 0 < o <= 32768 && n * o <= Min(65536, 64 * o) < (n + 1) * o
    ensures 2 <= n <= 64
  {
    if n < 2 { MulMono(o, n + 1, 2); }
    if 64 < n { MulMono(o, 65, n); }
  }

  // ---------------------------------------------------------------- hash table

  /** A device address: slot `slot` of a page, or an allocation of its own. */
  datatype Dev = InPage(page: nat, slot: nat) | Direct(id: nat)

  datatype Obj = Obj(dev: Dev, host: int)

  type Hash = (nat, Dev) -> nat

  ghost predicate HashOk(hash: Hash)
  {
    forall hbits, d :: hash(hbits, d) < Pow2(hbits)
  }

  /** Position `i` of bucket `b` holds a known object that belongs there, and no later one has its address. */
  predicate Held(hash: Hash, hbits: nat, table: seq<seq<Obj>>, objs: map<Dev, Obj>, b: nat, i: nat)
    requires b < |table| && i < |table[b]|
  {
    var o := table[b][i];
    o.dev in objs && objs[o.dev] == o && hash(hbits, o.dev) == b && forall j :: i < j < |table[b]| ==>
      table[b][j].dev != o.dev
  }

  /** A known object is in its bucket. */
  predicate Found(hash: Hash, hbits: nat, table: seq<seq<Obj>>, objs: map<Dev, Obj>, d: Dev)
    requires d in objs
  {
    objs[d].dev == d && hash(hbits, d) < |table| && objs[d] in table[hash(hbits, d)]
  }

  /** The table holds exactly the objects of the map. */
  ghost predicate TableOk(hash: Hash, hbits: nat, table: seq<seq<Obj>>, objs: map<Dev, Obj>)
  {
    && |table| == Pow2(hbits)
    && (forall b: nat, i: nat :: b < |table| && i < |table[b]| ==> Held(hash, hbits, table, objs, b, i))
    && (forall d :: d in objs ==> Found(hash, hbits, table, objs, d))
  }

  function EmptyTable(n: nat): (t: seq<seq<Obj>>)
    ensures |t| == n && forall b :: 0 <= b < n ==> t[b] == []
  {
    seq(n, _ => [])
  }

  /** hashInsert: the object becomes the first of its bucket. */
  function Inserted(table: seq<seq<Obj>>, b: nat, o: Obj): seq<seq<Obj>>
    requires b < |table|
  {
    table[b := [o] + table[b]]
  }

  lemma InsertKeeps(hash: Hash, hbits: nat, table: seq<seq<Obj>>, objs: map<Dev, Obj>, o: Obj)
    requires TableOk(hash, hbits, table, objs) && o.dev !in objs && hash(hbits, o.dev) < |table|
    ensures TableOk(hash, hbits, Inserted(table, hash(hbits, o.dev), o), objs[o.dev := o])
  {
    var h, objs' := hash(hbits, o.dev), objs[o.dev := o];
    var t := Inserted(table, h, o);
    forall b: nat, i: nat | b < |t| && i < |t[b]| ensures Held(hash, hbits, t, objs', b, i) {
      if b != h {
        assert Held(hash, hbits, table, objs, b, i);
      } else if 0 < i {
        assert Held(hash, hbits, table, objs, b, i - 1);
        assert t[b][i] == table[b][i - 1];
        forall j | i < j < |t[b]| ensures t[b][j].dev != t[b][i].dev { assert t[b][j] == table[b][j - 1]; }
      } else {
        forall j | 0 < j < |t[b]| ensures t[b][j].dev != o.dev {
          assert Held(hash, hbits, table, objs, b, j - 1);
          assert t[b][j] == table[b][j - 1];
        }
      }
    }
    forall d | d in objs' ensures Found(hash, hbits, t, objs', d) {
      if d == o.dev { assert t[h][0] == o; } else { assert Found(hash, hbits, table, objs, d); }
    }
  }

  /** Taking object number `i` out of bucket `b`. */
  lemma RemoveKeeps(hash: Hash, hbits: nat, table: seq<seq<Obj>>, objs: map<Dev, Obj>, b: nat, i: nat)
    requires TableOk(hash, hbits, table, objs) && b < |table| && i < |table[b]|
    ensures TableOk(hash, hbits, table[b := table[b][..i] + table[b][i + 1..]], objs - {table[b][i].dev})
  {
    var l, o := table[b], table[b][i];
    var t, objs' := table[b := l[..i] + l[i + 1..]], objs - {o.dev};
    forall c: nat, k: nat | c < |t| && k < |t[c]| ensures Held(hash, hbits, t, objs', c, k) {
      var k' := if c == b && i <= k then k + 1 else k;
      assert t[c][k] == table[c][k'] && Held(hash, hbits, table, objs, c, k') && Held(hash, hbits, table, objs, b, i);
      forall j | k < j < |t[c]| ensures t[c][j].dev != t[c][k].dev {
        assert t[c][j] == table[c][if c == b && i <= j then j + 1 else j];
      }
    }
    forall d | d in objs' ensures Found(hash, hbits, t, objs', d) {
      assert Found(hash, hbits, table, objs, d);
      if hash(hbits, d) == b {
        var k :| 0 <= k < |l| && l[k] == objs[d];
        assert t[b][if k < i then k else k - 1] == objs[d];
      }
    }
  }

  /** Walks a bucket: the search of Free and ToHost. */
  method FindInBucket(hash: Hash, hbits: nat, table: seq<seq<Obj>>, ghost objs: map<Dev, Obj>, d: Dev)
    returns (b: nat, i: nat)
    requires TableOk(hash, hbits, table, objs) && hash(hbits, d) < |table|
    ensures b == hash(hbits, d) && i <= |table[b]|
    ensures d in objs <==> i < |table[b]|
    ensures i < |table[b]| ==> table[b][i].dev == d && objs[d] == table[b][i]
  {
    b, i := hash(hbits, d), 0;
    while i < |table[b]| && table[b][i].dev != d
      invariant i <= |table[b]| && forall k :: 0 <= k < i ==> table[b][k].dev != d
    {
      i := i + 1;
    }
    if i < |table[b]| { assert Held(hash, hbits, table, objs, b, i); }
    if d in objs { assert Found(hash, hbits, table, objs, d); }
  }

  predicate InFirst(l: seq<Obj>, i: nat, d: Dev)
    requires i <= |l|
  {
    exists k :: 0 <= k < i && l[k].dev == d
  }

  /** Address `d` is in a bucket before `b`, or among the first `i` objects of bucket `b`. */
  predicate Visited(hash: Hash, hbits: nat, table: seq<seq<Obj>>, b: nat, i: nat, d: Dev)
  {
    hash(hbits, d) < b || (hash(hbits, d) == b < |table| && i <= |table[b]| && InFirst(table[b], i, d))
  }

  /** `part` is the part of the objects that a walk over the table has visited. */
  ghost predicate Part(
      hash: Hash, hbits: nat, table: seq<seq<Obj>>, objs: map<Dev, Obj>, b: nat, i: nat, part: map<Dev, Obj>)
  {
    && (forall d :: d in part <==> d in objs && Visited(hash, hbits, table, b, i, d))
    && (forall d :: d in part && d in objs ==> part[d] == objs[d])
  }

  lemma PartStep(hash: Hash, hbits: nat, table: seq<seq<Obj>>, objs: map<Dev, Obj>, b: nat, i: nat, part: map<Dev, Obj>)
    requires TableOk(hash, hbits, table, objs) && b < |table| && i < |table[b]|
    requires Part(hash, hbits, table, objs, b, i, part)
    ensures table[b][i].dev !in part
    ensures Part(hash, hbits, table, objs, b, i + 1, part[table[b][i].dev := table[b][i]])
  {
    var l, o := table[b], table[b][i];
    assert Held(hash, hbits, table, objs, b, i);
    forall k | 0 <= k < i ensures l[k].dev != o.dev { assert Held(hash, hbits, table, objs, b, k); }
    var part' := part[o.dev := o];
    forall d ensures d in part' <==> d in objs && Visited(hash, hbits, table, b, i + 1, d) {
      if hash(hbits, d) == b {
        assert InFirst(l, i + 1, d) <==> InFirst(l, i, d) || l[i].dev == d;
      }
    }
  }

  lemma PartBucket(hash: Hash, hbits: nat, table: seq<seq<Obj>>, objs: map<Dev, Obj>, b: nat, part: map<Dev, Obj>)
    requires TableOk(hash, hbits, table, objs) && b < |table| && Part(hash, hbits, table, objs, b, |table[b]|, part)
    ensures Part(hash, hbits, table, objs, b + 1, 0, part)
  {
    forall d ensures d in part <==> d in objs && Visited(hash, hbits, table, b + 1, 0, d) {
      if d in objs && hash(hbits, d) == b {
        assert Found(hash, hbits, table, objs, d);
        var k :| 0 <= k < |table[b]| && table[b][k] == objs[d];
        assert InFirst(table[b], |table[b]|, d);
      }
    }
  }

  lemma PartAll(hash: Hash, hbits: nat, table: seq<seq<Obj>>, objs: map<Dev, Obj>, part: map<Dev, Obj>)
    requires HashOk(hash) && |table| == Pow2(hbits) && Part(hash, hbits, table, objs, |table|, 0, part)
    ensures part == objs
  {
    forall d ensures d in part <==> d in objs { assert hash(hbits, d) < Pow2(hbits); }
  }

  /** The table is copied, bucket by bucket, into one twice as large. */
  method Rehash(hash: Hash, hbits: nat, table: seq<seq<Obj>>, ghost objs: map<Dev, Obj>) returns (table1: seq<seq<Obj>>)
    requires HashOk(hash) && TableOk(hash, hbits, table, objs)
    ensures TableOk(hash, hbits + 1, table1, objs)
  {
    var size := 2 * |table|;
    table1 := EmptyTable(size);
    ghost var part: map<Dev, Obj> := map[];
    for b := 0 to |table|
      invariant TableOk(hash, hbits + 1, table1, part) && Part(hash, hbits, table, objs, b, 0, part)
    {
      for i := 0 to |table[b]|
        invariant TableOk(hash, hbits + 1, table1, part) && Part(hash, hbits, table, objs, b, i, part)
      {
        var o := table[b][i];
        assert hash(hbits + 1, o.dev) < Pow2(hbits + 1);
        PartStep(hash, hbits, table, objs, b, i, part);
        InsertKeeps(hash, hbits + 1, table1, part, o);
        table1 := Inserted(table1, hash(hbits + 1, o.dev), o);
        part := part[o.dev := o];
      }
      PartBucket(hash, hbits, table, objs, b, part);
    }
    PartAll(hash, hbits, table, objs, part);
  }

  // ---------------------------------------------------------------- pages

  /** `bytes` is the size of the page's memory, `free` the set of bits of `freeMask`. */
  datatype Page = Page(objSize: nat, bytes: nat, slots: nat, free: set<nat>)

  predicate PageOk(p: Page)
  {
    && 2 <= p.slots <= 64 && (forall s :: s in p.free ==> s < p.slots)
    && p.bytes == Min(65536, 64 * p.objSize) && p.slots * p.objSize <= p.bytes < (p.slots + 1) * p.objSize
  }

  /** Where slot `slot` begins in the page's memory. */
  function SlotStart(p: Page, slot: nat): nat { slot * p.objSize }

  /** Slots lie inside the page's memory and do not overlap. */
  lemma SlotsInside(p: Page, a: nat, b: nat)
    requires PageOk(p) && a < b < p.slots
    ensures SlotStart(p, a) + p.objSize <= SlotStart(p, b) && SlotStart(p, b) + p.objSize <= p.bytes
  {
    MulMono(p.objSize, a + 1, b);
    MulMono(p.objSize, b + 1, p.slots);
    MulNext(p.objSize, a);
    MulNext(p.objSize, b);
  }

  lemma SlotInside(p: Page, a: nat)
    requires PageOk(p) && a < p.slots
    ensures SlotStart(p, a) + p.objSize <= p.bytes
  {
    MulMono(p.objSize, a + 1, p.slots);
    MulNext(p.objSize, a);
  }

  /** A slot is free or holds a live object. */
  predicate SlotOk(heap: map<nat, Page>, objs: map<Dev, Obj>, id: nat, s: nat)
    requires id in heap
  {
    s < heap[id].slots ==> (s in heap[id].free <==> InPage(id, s) !in objs)
  }

  predicate ListedOk(heap: map<nat, Page>, list: seq<nat>, id: nat)
  {
    id in list <==> id in heap && heap[id].free != {}
  }

  predicate Housed(heap: map<nat, Page>, d: Dev)
  {
    d.InPage? ==> d.page in heap && d.slot < heap[d.page].slots
  }

  /** Slots are either free or hold one live object, and the list holds exactly the pages with a free slot. */
  ghost predicate PagesOk(heap: map<nat, Page>, list: seq<nat>, objs: map<Dev, Obj>)
  {
    && (forall id :: id in heap ==> PageOk(heap[id])) && Distinct(list)
    && (forall id :: ListedOk(heap, list, id))
    && (forall id, s :: id in heap ==> SlotOk(heap, objs, id, s))
    && (forall d :: d in objs ==> Housed(heap, d))
  }

  /** popFirstOneBit. */
  method LowestFree(p: Page) returns (slot: nat)
    requires PageOk(p) && p.free != {}
    ensures slot in p.free && forall s :: s in p.free ==> slot <= s
  {
    slot := 0;
    var x :| x in p.free;
    while slot !in p.free
      invariant slot <= x && forall s :: s in p.free ==> slot <= s
      decreases x - slot
    {
      slot := slot + 1;
    }
  }

  /** The first page of the list with the given object size. */
  method FindPage(heap: map<nat, Page>, list: seq<nat>, objSize: nat) returns (i: nat)
    requires forall k :: 0 <= k < |list| ==> list[k] in heap
    ensures i <= |list| && (i < |list| ==> heap[list[i]].objSize == objSize)
    ensures forall k :: 0 <= k < i ==> heap[list[k]].objSize != objSize
  {
    i := 0;
    while i < |list| && heap[list[i]].objSize != objSize
      invariant i <= |list| && forall k :: 0 <= k < i ==> heap[list[k]].objSize != objSize
    {
      i := i + 1;
    }
  }

  /** A new page at the head of the list. */
  lemma NewPageKeeps(heap: map<nat, Page>, list: seq<nat>, objs: map<Dev, Obj>, id: nat, p: Page)
    requires PagesOk(heap, list, objs) && id !in heap && PageOk(p) && (forall s :: 0 <= s < p.slots ==> s in p.free)
    ensures PagesOk(heap[id := p], [id] + list, objs)
  {
    var heap', list' := heap[id := p], [id] + list;
    assert ListedOk(heap, list, id) && 0 in p.free;
    DistinctConcat([id], list);
    forall j: nat ensures ListedOk(heap', list', j) { assert ListedOk(heap, list, j); }
    forall j: nat, s: nat | j in heap' ensures SlotOk(heap', objs, j, s) {
      assert j != id ==> SlotOk(heap, objs, j, s);
      assert InPage(id, s) in objs ==> Housed(heap, InPage(id, s));
    }
    forall d | d in objs ensures Housed(heap', d) { assert Housed(heap, d); }
  }

  /** A slot is taken; a page that becomes full leaves the list. */
  lemma TakeKeeps(heap: map<nat, Page>, list: seq<nat>, objs: map<Dev, Obj>, i: nat, slot: nat, o: Obj, list': seq<nat>)
    requires PagesOk(heap, list, objs) && i < |list| && list[i] in heap && slot in heap[list[i]].free
    requires o.dev == InPage(list[i], slot)
    requires list' == if heap[list[i]].free - {slot} == {} then list[..i] + list[i + 1..] else list
    ensures o.dev !in objs
    ensures PagesOk(heap[list[i] := heap[list[i]].(free := heap[list[i]].free - {slot})], list', objs[o.dev := o])
  {
    var id := list[i];
    var p := heap[id].(free := heap[id].free - {slot});
    var heap', objs' := heap[id := p], objs[o.dev := o];
    assert SlotOk(heap, objs, id, slot) && PageOk(heap[id]);
    if p.free == {} { DistinctDrop(list, i); }
    forall j: nat ensures ListedOk(heap', list', j) {
      assert ListedOk(heap, list, j);
      if p.free == {} { DropMember(list, i, j); }
    }
    forall j: nat, s: nat | j in heap' ensures SlotOk(heap', objs', j, s) { assert SlotOk(heap, objs, j, s); }
    forall d | d in objs' ensures Housed(heap', d) { assert d in objs ==> Housed(heap, d); }
  }

  lemma DropMember(list: seq<nat>, i: nat, j: nat)
    requires Distinct(list) && i < |list|
    ensures j in list[..i] + list[i + 1..] <==> j in list && j != list[i]
  {
    var r := list[..i] + list[i + 1..];
    forall k | 0 <= k < |r| ensures r[k] != list[i] && r[k] in list { assert r[k] == list[if k < i then k else k + 1]; }
    if j in list && j != list[i] {
      var k :| 0 <= k < |list| && list[k] == j;
      assert r[if k < i then k else k - 1] == j;
    }
  }

  /** A slot is given back; a page that was full returns to the head of the list. */
  lemma GiveKeeps(heap: map<nat, Page>, list: seq<nat>, objs: map<Dev, Obj>, id: nat, slot: nat, list': seq<nat>)
    requires PagesOk(heap, list, objs) && InPage(id, slot) in objs && id in heap
    requires list' == if heap[id].free == {} then [id] + list else list
    ensures slot < heap[id].slots
    ensures PagesOk(heap[id := heap[id].(free := heap[id].free + {slot})], list', objs - {InPage(id, slot)})
  {
    var p := heap[id].(free := heap[id].free + {slot});
    var heap', objs' := heap[id := p], objs - {InPage(id, slot)};
    assert Housed(heap, InPage(id, slot)) && ListedOk(heap, list, id) && PageOk(heap[id]);
    if heap[id].free == {} { DistinctConcat([id], list); }
    forall j: nat ensures ListedOk(heap', list', j) { assert ListedOk(heap, list, j); }
    forall j: nat, s: nat | j in heap' ensures SlotOk(heap', objs', j, s) { assert SlotOk(heap, objs, j, s); }
    forall d | d in objs' ensures Housed(heap', d) { assert Housed(heap, d); }
  }

  lemma DirectKeeps(heap: map<nat, Page>, list: seq<nat>, objs: map<Dev, Obj>, o: Obj)
    requires PagesOk(heap, list, objs) && o.dev.Direct?
    ensures PagesOk(heap, list, objs[o.dev := o]) && PagesOk(heap, list, objs - {o.dev})
  {
    var a, b := objs[o.dev := o], objs - {o.dev};
    forall j: nat, s: nat | j in heap ensures SlotOk(heap, a, j, s) && SlotOk(heap, b, j, s) {
      assert SlotOk(heap, objs, j, s);
    }
  }

  // ---------------------------------------------------------------- the pool

  datatype Allocation = Null | Object(obj: Obj)

  /** A device pointer argument. */
  datatype Pointer = NullPtr | Ptr(dev: Dev)

  datatype Result = Ok(host: int) | NoHost | InternalError

  class Pool {
    const hash: Hash
    var hbits: nat
    var count: nat
    var table: seq<seq<Obj>>
    var list: seq<nat>         // pool->pages
    var heap: map<nat, Page>   // all allocated pages
    ghost var objs: map<Dev, Obj>

    ghost predicate Valid()
      reads this
    {
      && HashOk(hash) && count == |objs| && PagesOk(heap, list, objs)
      && (hbits == 0 ==> objs == map[] && heap == map[])
      && (hbits != 0 ==> TableOk(hash, hbits, table, objs) && count <= 2 * Pow2(hbits))
    }

    constructor (hash: Hash)
      requires HashOk(hash)
      ensures Valid() && objs == map[] && heap == map[] && hbits == 0 && this.hash == hash
    {
      this.hash := hash;
      hbits, count, table, list, heap := 0, 0, [], [], map[];
      objs := map[];
    }

    /** First use, and growth before the ratio of objects to buckets exceeds 2. */
    method Reserve()
      requires Valid()
      modifies this`hbits, this`table
      ensures Valid() && count + 1 <= 2 * Pow2(hbits)
      ensures hbits ==
        if old(hbits) == 0 then 4 else if count + 1 <= 2 * Pow2(old(hbits)) then old(hbits) else old(hbits) + 1
    {
      if hbits == 0 {
        hbits := 4;
        assert Pow2(4) == 2 * Pow2(3) && Pow2(3) == 2 * Pow2(2) && Pow2(2) == 4;
        table := EmptyTable(16);
      }
      if count + 1 > 2 * |table| {
        table := Rehash(hash, hbits, table, objs);
        hbits := hbits + 1;
      }
    }

    /** The position in the list of a page with a free slot for the object size, created if there is none. */
    method OfferingPage(objSize: nat, newId: nat) returns (i: nat)
      requires PagesOk(heap, list, objs) && newId !in heap && 0 < objSize <= 32768
      modifies this`list, this`heap
      ensures PagesOk(heap, list, objs) && i < |list| && list[i] in heap && heap[list[i]].objSize == objSize
      ensures forall k :: 0 <= k < i ==> list[k] in heap && heap[list[k]].objSize != objSize
      ensures
        if exists k :: 0 <= k < |old(list)| && old(list)[k] in old(heap) && old(heap)[old(list)[k]].objSize == objSize
        then list == old(list) && heap == old(heap)
        else
          && list == [newId] + old(list)
          && newId in heap && heap == old(heap)[newId := heap[newId]]
          && PageOk(heap[newId]) && heap[newId].objSize == objSize
          && forall s: nat :: s in heap[newId].free <==> s < heap[newId].slots
    {
      forall k | 0 <= k < |list| ensures list[k] in heap { assert ListedOk(heap, list, list[k]); }
      i := FindPage(heap, list, objSize);
      if i == |list| {
        var p := Page(objSize, PageSize(objSize), Slots(objSize), FullMask(Slots(objSize)));
        SlotsFill(objSize);
        SlotsBetween(objSize, Slots(objSize));
        NewPageKeeps(heap, list, objs, newId, p);
        heap := heap[newId := p];
        list := [newId] + list;
        i := 0;
      }
    }

    /** The lowest free slot of the page at position `i` of the list. */
    method TakeSlot(i: nat, host: int) returns (o: Obj)
      requires PagesOk(heap, list, objs) && count == |objs| && i < |list| && list[i] in heap
      modifies this`list, this`heap, this`objs, this`count
      ensures o.dev.InPage? && o.dev.page == old(list)[i] && o.host == host && o.dev !in old(objs)
      ensures o.dev.slot in old(heap)[o.dev.page].free && forall s :: s in old(heap)[o.dev.page].free ==>
        o.dev.slot <= s
      ensures heap == old(heap)[o.dev.page := old(heap)[o.dev.page].(free := old(heap)[o.dev.page].free - {o.dev.slot})]
      ensures list == if heap[o.dev.page].free == {} then old(list)[..i] + old(list)[i + 1..] else old(list)
      ensures objs == old(objs)[o.dev := o] && count == |objs| && PagesOk(heap, list, objs)
    {
      var id := list[i];
      assert ListedOk(heap, list, id) && PageOk(heap[id]);
      var slot := LowestFree(heap[id]);
      o := Obj(InPage(id, slot), host);
      var p := heap[id].(free := heap[id].free - {slot});
      var list' := if p.free == {} then list[..i] + list[i + 1..] else list;
      TakeKeeps(heap, list, objs, i, slot, o, list');
      heap, list := heap[id := p], list';
      objs := objs[o.dev := o];
      count := count + 1;
    }

    /** The device object, in a page if it is small enough. */
    method NewObject(size: nat, newId: nat, host: int) returns (o: Obj)
      requires PagesOk(heap, list, objs) && count == |objs| && newId !in heap && Direct(newId) !in objs && size != 0
      modifies this`list, this`heap, this`objs, this`count
      ensures o.host == host && o.dev !in old(objs) && objs == old(objs)[o.dev := o] && (o.dev.InPage? <==> Paged(size))
      ensures count == |objs| && PagesOk(heap, list, objs)
      ensures Paged(size) ==> o.dev.page in heap && heap[o.dev.page].objSize == PageObjSize(size)
    {
      if Paged(size) {
        PageSlots(size);
        PagedIff(size);
        ObjSizeBound(size);
        var i := OfferingPage(PageObjSize(size), newId);
        o := TakeSlot(i, host);
      } else {
        o := Obj(Direct(newId), host);
        DirectKeeps(heap, list, objs, o);
        objs := objs[o.dev := o];
        count := count + 1;
      }
    }

    /**
     * ncclShadowPoolAlloc.  `newId` names the page or the allocation that CUDA would provide, and
     * `host` the new host object.  An empty request returns no object.
     */
    method Alloc(size: nat, newId: nat, host: int) returns (r: Allocation)
      requires Valid() && newId !in heap && Direct(newId) !in objs
      modifies this`hbits, this`table, this`list, this`heap, this`objs, this`count
      ensures Valid()
      ensures size == 0 ==> r.Null? && objs == old(objs)
      ensures size != 0 ==>
        r.Object? && r.obj.host == host && r.obj.dev !in old(objs) && objs == old(objs)[r.obj.dev := r.obj]
      ensures size != 0 ==> (r.obj.dev.InPage? <==> 3 * size <= 65536)
      ensures r.Object? && r.obj.dev.InPage? ==> r.obj.dev.page in heap && var p := heap[r.obj.dev.page];
        size <= p.objSize == PageObjSize(size) && SlotStart(p, r.obj.dev.slot) + p.objSize <= p.bytes
    {
      if size == 0 { return Null; }
      PagedIff(size);
      Reserve();
      var o := NewObject(size, newId, host);
      var b := hash(hbits, o.dev);
      assert b < Pow2(hbits);
      InsertKeeps(hash, hbits, table, old(objs), o);
      table := Inserted(table, b, o);
      r := Object(o);
      if o.dev.InPage? {
        PageSlots(size);
        assert Housed(heap, o.dev) && PageOk(heap[o.dev.page]);
        SlotInside(heap[o.dev.page], o.dev.slot);
      }
    }

    /** Live objects in one page lie inside its memory, apart from each other. */
    lemma ObjectsApart(a: Dev, b: Dev)
      requires Valid() && a in objs && b in objs && a.InPage? && b.InPage? && a.page == b.page && a != b
      ensures a.page in heap && var p := heap[a.page];
        && SlotStart(p, a.slot) + p.objSize <= p.bytes && SlotStart(p, b.slot) + p.objSize <= p.bytes
        && (SlotStart(p, a.slot) + p.objSize <= SlotStart(p, b.slot) ||
            SlotStart(p, b.slot) + p.objSize <= SlotStart(p, a.slot))
    {
      assert Housed(heap, a) && Housed(heap, b) && PageOk(heap[a.page]);
      var lo, hi := Min(a.slot, b.slot), Max(a.slot, b.slot);
      SlotsInside(heap[a.page], lo, hi);
      SlotInside(heap[a.page], a.slot);
      SlotInside(heap[a.page], b.slot);
    }

    /** ncclShadowPoolToHost: agrees with the map from device to host objects; null maps to null. */
    method ToHost(p: Pointer) returns (r: Result)
      requires Valid() && (p.Ptr? ==> hbits != 0)
      ensures r == if p.NullPtr? then NoHost else if p.dev in objs then Ok(objs[p.dev].host) else InternalError
    {
      if p.NullPtr? { return NoHost; }
      assert hash(hbits, p.dev) < Pow2(hbits);
      var b, i := FindInBucket(hash, hbits, table, objs, p.dev);
      r := if i < |table[b]| then Ok(table[b][i].host) else InternalError;
    }

    /** The object's slot becomes free; a full page returns to the list. */
    method GiveBack(d: Dev)
      requires PagesOk(heap, list, objs) && count == |objs| && d in objs && objs[d].dev == d
      modifies this`list, this`heap, this`objs, this`count
      ensures objs == old(objs) - {d} && count == |objs| && PagesOk(heap, list, objs)
      ensures old(heap) == map[] ==> heap == map[]
    {
      if d.InPage? {
        assert Housed(heap, d);
        var p := heap[d.page];
        var list' := if p.free == {} then [d.page] + list else list;
        GiveKeeps(heap, list, objs, d.page, d.slot, list');
        list := list';
        heap := heap[d.page := p.(free := p.free + {d.slot})];
      } else {
        DirectKeeps(heap, list, objs, objs[d]);
      }
      CountLess(objs, d);
      objs := objs - {d};
      count := count - 1;
    }

    /** ncclShadowPoolFree: removes exactly this object, or fails and changes nothing; null is ignored. */
    method Free(p: Pointer) returns (ok: bool)
      requires Valid() && (p.Ptr? ==> hbits != 0)
      modifies this`table, this`list, this`heap, this`objs, this`count
      ensures Valid() && ok == (p.NullPtr? || p.dev in old(objs))
      ensures objs == if p.NullPtr? then old(objs) else old(objs) - {p.dev}
      ensures p.NullPtr? || !ok ==> table == old(table) && list == old(list) && heap == old(heap) && count == old(count)
    {
      if p.NullPtr? { return true; }
      var d := p.dev;
      assert hash(hbits, d) < Pow2(hbits);
      var b, i := FindInBucket(hash, hbits, table, objs, d);
      ok := i < |table[b]|;
      if ok {
        RemoveKeeps(hash, hbits, table, objs, b, i);
        table := table[b := table[b][..i] + table[b][i + 1..]];
        GiveBack(d);
      }
    }

    /** The walk of ncclShadowPoolDestruct over all objects: full pages go back to the list. */
    method RelistFullPages() returns (list': seq<nat>, direct: seq<nat>)
      requires Valid() && hbits != 0
      ensures Distinct(list') && forall id :: id in list' <==> id in heap
      ensures Distinct(direct) && forall id :: id in direct <==> Direct(id) in objs
    {
      list', direct := list, [];
      var masks: map<nat, set<nat>> := map id: nat | id in heap :: heap[id].free;
      ghost var part: map<Dev, Obj> := map[];
      RelistStart(heap, list, objs, masks);
      for b := 0 to |table|
        invariant Part(hash, hbits, table, objs, b, 0, part) && Relisted(heap, part, list', direct)
        invariant Masks(heap, masks, list')
      {
        for i := 0 to |table[b]|
          invariant Part(hash, hbits, table, objs, b, i, part) && Relisted(heap, part, list', direct)
          invariant Masks(heap, masks, list')
        {
          var o := table[b][i];
          assert Held(hash, hbits, table, objs, b, i) && Housed(heap, o.dev);
          PartStep(hash, hbits, table, objs, b, i, part);
          masks, list', direct := Relist(heap, masks, list', direct, o, part);
          part := part[o.dev := o];
        }
        PartBucket(hash, hbits, table, objs, b, part);
      }
      PartAll(hash, hbits, table, objs, part);
      RelistEnd(heap, list, objs, part, list', direct);
    }

    /** ncclShadowPoolDestruct: every page and every allocation of its own is freed exactly once. */
    method Destruct() returns (pages: seq<nat>, direct: seq<nat>)
      requires Valid()
      ensures Distinct(pages) && forall id :: id in pages <==> id in heap
      ensures Distinct(direct) && forall id :: id in direct <==> Direct(id) in objs
    {
      pages, direct := [], [];
      if hbits != 0 {
        pages := list;
        if count != 0 {
          pages, direct := RelistFullPages();
        } else {
          assert objs == map[];
          forall id: nat ensures id in list <==> id in heap {
            assert ListedOk(heap, list, id) && (id in heap ==> SlotOk(heap, objs, id, 0) && PageOk(heap[id]));
          }
        }
      }
    }
  }

  /**
   * After the objects in `part` have been visited: the list holds the pages that had a free slot
   * and those of visited objects.
   */
  ghost predicate Relisted(heap: map<nat, Page>, part: map<Dev, Obj>, list: seq<nat>, direct: seq<nat>)
  {
    && Distinct(list) && Distinct(direct)
    && (forall id :: RelistedAt(heap, part, list, id)) && (forall id :: id in direct <==> Direct(id) in part)
  }

  ghost predicate RelistedAt(heap: map<nat, Page>, part: map<Dev, Obj>, list: seq<nat>, id: nat)
  {
    id in list <==> id in heap && (heap[id].free != {} || exists s :: InPage(id, s) in part)
  }

  /** The current masks: not zero exactly for the pages in the list. */
  predicate Masks(heap: map<nat, Page>, masks: map<nat, set<nat>>, list: seq<nat>)
  {
    masks.Keys == heap.Keys && forall id :: id in masks ==> (masks[id] != {} <==> id in list)
  }

  /** One object of that walk. */
  method Relist(
      heap: map<nat, Page>, masks: map<nat, set<nat>>, list: seq<nat>, direct: seq<nat>, o: Obj,
      ghost part: map<Dev, Obj>)
    returns (masks': map<nat, set<nat>>, list': seq<nat>, direct': seq<nat>)
    requires Relisted(heap, part, list, direct) && Masks(heap, masks, list) && o.dev !in part && Housed(heap, o.dev)
    ensures Relisted(heap, part[o.dev := o], list', direct') && Masks(heap, masks', list')
  {
    RelistStep(heap, part, list, direct, o);
    masks', list', direct' := masks, list, direct;
    if o.dev.InPage? {
      if masks[o.dev.page] == {} {
        masks' := masks[o.dev.page := {0}];
        list' := [o.dev.page] + list;
      }
    } else {
      direct' := direct + [o.dev.id];
    }
  }

  lemma RelistStart(heap: map<nat, Page>, list: seq<nat>, objs: map<Dev, Obj>, masks: map<nat, set<nat>>)
    requires PagesOk(heap, list, objs) && masks == map id: nat | id in heap :: heap[id].free
    ensures Relisted(heap, map[], list, []) && Masks(heap, masks, list)
  {
    forall id: nat ensures RelistedAt(heap, map[], list, id) && (id in heap ==> (heap[id].free != {} <==> id in list)) {
      assert ListedOk(heap, list, id);
    }
  }

  lemma RelistStep(heap: map<nat, Page>, part: map<Dev, Obj>, list: seq<nat>, direct: seq<nat>, o: Obj)
    requires Relisted(heap, part, list, direct) && o.dev !in part && Housed(heap, o.dev)
    ensures var list' := if o.dev.InPage? && o.dev.page !in list then [o.dev.page] + list else list;
      Relisted(heap, part[o.dev := o], list', if o.dev.InPage? then direct else direct + [o.dev.id])
  {
    var list' := if o.dev.InPage? && o.dev.page !in list then [o.dev.page] + list else list;
    var part' := part[o.dev := o];
    if o.dev.InPage? {
      if o.dev.page !in list { DistinctConcat([o.dev.page], list); }
      assert InPage(o.dev.page, o.dev.slot) in part';
    } else {
      DistinctConcat(direct, [o.dev.id]);
    }
    forall id: nat ensures RelistedAt(heap, part', list', id) {
      assert RelistedAt(heap, part, list, id);
      forall s | InPage(id, s) in part ensures InPage(id, s) in part' { }
      forall s | InPage(id, s) in part' && InPage(id, s) != o.dev ensures InPage(id, s) in part { }
    }
  }

  lemma RelistEnd(
      heap: map<nat, Page>, list: seq<nat>, objs: map<Dev, Obj>, part: map<Dev, Obj>, list': seq<nat>,
      direct: seq<nat>)
    requires PagesOk(heap, list, objs) && Relisted(heap, part, list', direct) && forall d :: d in part <==> d in objs
    ensures (forall id :: id in list' <==> id in heap) && (forall id :: id in direct <==> Direct(id) in objs)
  {
    forall id: nat ensures id in list' <==> id in heap {
      assert RelistedAt(heap, part, list', id);
      assert id in heap ==> SlotOk(heap, objs, id, 0) && PageOk(heap[id]);
      assert id in heap && heap[id].free == {} ==> InPage(id, 0) in part;
    }
  }

  function FullMask(n: nat): (r: set<nat>)
    ensures forall s: nat :: s in r <==> s < n
  {
    if n == 0 then {} else FullMask(n - 1) + {n - 1}
  }

  lemma CountLess(objs: map<Dev, Obj>, d: Dev)
    requires d in objs
    ensures |objs - {d}| == |objs| - 1
  {
    assert (objs - {d}).Keys == objs.Keys - {d};
    MapSize(objs);
    MapSize(objs - {d});
  }

  lemma MapSize(objs: map<Dev, Obj>)
    ensures |objs| == |objs.Keys|
  {
  }
}

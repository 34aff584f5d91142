/**
 * The progress thread's own lists (nccl/src/proxy.cc).  Every `ncclProxyArgs` is in the free
 * pool (linked by `next`) or in the chain of one append slot (linked by `nextPeer`); the active
 * list (linked by `next`) holds the first args of every non-empty chain.  Pointers to args are
 * indices into the memory allocated so far, with -1 for NULL.
 */
module ProxyProgress {
  import opened Arith
  import opened LinkedChains

  const ALLOCATE_SIZE: nat := 2048 // PROXYARGS_ALLOCATE_SIZE
  const MAX_SUBS: nat := 64        // NCCL_PROXY_MAX_SUBS

  /** `slot` stands for the connection's `proxyAppendPtr`; `kind` for the fields compared on aggregation. */
  datatype Op = Op(slot: nat, shared: bool, opCount: nat, kind: int, id: int)

  /** `Taken` holds args between `allocateArgs` and their insertion. */
  datatype Place = Free | Taken | On(slot: nat)

  /** What the program's memory holds; `append[c]` is the pointer stored in slot c. */
  datatype Mem = Mem(
    next: seq<int>, nextPeer: seq<int>, slotOf: seq<nat>, opCount: seq<nat>, kind: seq<int>, running: seq<bool>,
    subs: seq<seq<Op>>, append: seq<int>, active: int, pool: int)

  // ---------------------------------------------------------------- invariant

  ghost predicate Shaped(m: Mem, v: View<Place>)
  {
    && |m.next| == |m.nextPeer| == |m.slotOf| == |m.opCount| == |m.kind| == |m.running| == |m.subs| == |v.owner|
    && Owns(v)
  }

  predicate SlotAt(m: Mem, v: View<Place>, j: int)
  {
    0 <= j < |v.owner| && j < |m.slotOf| && j < |m.subs| && v.owner[j].On? ==>
      m.slotOf[j] == v.owner[j].slot < |m.append| && m.subs[j] != []
  }

  ghost predicate SlotsOk(m: Mem, v: View<Place>)
  {
    forall j :: SlotAt(m, v, j)
  }

  predicate Ends(next: seq<int>, l: seq<nat>)
  {
    Linked(next, l) && (l != [] ==> next[Last(l)] == -1)
  }

  /** A slot points to the last args of its chain, or is NULL when it has none. */
  predicate ChainOk(nextPeer: seq<int>, l: seq<nat>, append: int)
  {
    Ends(nextPeer, l) && append == if l == [] then -1 else Last(l)
  }

  predicate ChainAt(m: Mem, v: View<Place>, c: nat)
  {
    c < |m.append| ==> ChainOk(m.nextPeer, v.lists(On(c)), m.append[c])
  }

  ghost predicate ChainsOk(m: Mem, v: View<Place>)
  {
    forall c: nat :: ChainAt(m, v, c)
  }

  /** `j` is the first args of some slot's chain. */
  ghost predicate First(v: View<Place>, j: nat)
  {
    j < |v.owner| && v.owner[j].On? && v.lists(v.owner[j]) != [] && v.lists(v.owner[j])[0] == j
  }

  /** The active list holds exactly the first args of the chains. */
  ghost predicate RingOk(v: View<Place>, ring: seq<nat>)
  {
    && Distinct(ring) && (forall i :: RingFirst(v, ring, i))
    && forall c :: Covered(v, ring, c)
  }

  ghost predicate RingFirst(v: View<Place>, ring: seq<nat>, i: int)
  {
    0 <= i < |ring| ==> First(v, ring[i])
  }

  predicate Covered(v: View<Place>, ring: seq<nat>, c: nat)
  {
    v.lists(On(c)) != [] ==> v.lists(On(c))[0] in ring
  }

  /** The half of the invariant about slots and `nextPeer`. */
  ghost predicate PeersOk(m: Mem, v: View<Place>)
  {
    Shaped(m, v) && SlotsOk(m, v) && ChainsOk(m, v)
  }

  /** The half about the active list, the pool and `next`. */
  ghost predicate ListsOk(m: Mem, v: View<Place>, ring: seq<nat>)
  {
    && RingOk(v, ring) && Ends(m.next, ring) && m.active == Head(ring)
    && Ends(m.next, v.lists(Free)) && m.pool == Head(v.lists(Free))
  }

  ghost predicate Inv(m: Mem, v: View<Place>, ring: seq<nat>)
  {
    PeersOk(m, v) && ListsOk(m, v, ring)
  }

  /** The ops held by a chain of args, oldest first. */
  function Flat(subs: seq<seq<Op>>, l: seq<nat>): seq<Op>
    requires Fit(l, |subs|)
  {
    if l == [] then [] else Flat(subs, l[..|l| - 1]) + subs[Last(l)]
  }

  // ---------------------------------------------------------------- small steps on values

  lemma EndsFrame(next: seq<int>, l: seq<nat>, j: nat, y: int)
    requires Ends(next, l) && j < |next| && j !in l
    ensures Ends(next[j := y], l)
  {
    LinkedFrame(next, l, j, y);
  }

  lemma EndsTail(next: seq<int>, l: seq<nat>)
    requires Ends(next, l) && l != []
    ensures Ends(next, l[1..]) && next[l[0]] == Head(l[1..])
  {
    LinkedSplit(next, l, 1);
    if 1 < |l| { assert Last(l[1..]) == Last(l); }
  }

  lemma EndsPush(next: seq<int>, l: seq<nat>, e: nat)
    requires Ends(next, l) && e < |next| && e !in l && Distinct(l) && next[e] == -1
    ensures Ends(if l == [] then next else next[Last(l) := e], l + [e])
  {
    if l == [] {
      assert l + [e] == [e];
    } else {
      LinkedFrame(next, l, Last(l), e);
      LinkedJoin(next[Last(l) := e], l, [e]);
    }
  }

  lemma EndsCons(next: seq<int>, l: seq<nat>, e: nat)
    requires Ends(next, l) && e < |next| && e !in l
    ensures Ends(next[e := Head(l)], [e] + l)
  {
    LinkedFrame(next, l, e, Head(l));
    LinkedJoin(next[e := Head(l)], [e], l);
    if l != [] { assert Last([e] + l) == Last(l); }
  }

  /** Replacing element `k` of a chain by `e`. */
  lemma EndsReplace(next: seq<int>, l: seq<nat>, k: nat, e: nat)
    requires Ends(next, l) && k < |l| && e < |next| && e !in l && Distinct(l)
    ensures var after: int := if k + 1 < |l| then l[k + 1] else -1;
      var n1 := if k == 0 then next else next[l[k - 1] := e];
      Ends(n1[e := after], l[k := e])
  {
    var n1 := if k == 0 then next else next[l[k - 1] := e];
    var after: int := if k + 1 < |l| then l[k + 1] else -1;
    var n2, r := n1[e := after], l[k := e];
    forall i | 0 <= i < |r| - 1 ensures LinkAt(n2, r, i) { assert LinkAt(next, l, i); }
  }

  /** Dropping element `k` of a chain. */
  lemma EndsDrop(next: seq<int>, l: seq<nat>, k: nat)
    requires Ends(next, l) && k < |l| && Distinct(l)
    ensures var after: int := if k + 1 < |l| then l[k + 1] else -1;
      Ends(if k == 0 then next else next[l[k - 1] := after], l[..k] + l[k + 1..])
  {
    var after: int := if k + 1 < |l| then l[k + 1] else -1;
    var n, r := if k == 0 then next else next[l[k - 1] := after], l[..k] + l[k + 1..];
    forall i | 0 <= i < |r| - 1 ensures LinkAt(n, r, i) {
      assert i < k - 1 ==> LinkAt(next, l, i);
      assert k <= i ==> LinkAt(next, l, i + 1);
    }
    if k + 1 == |l| && 0 < k { assert Last(r) == l[k - 1]; } else if r != [] { assert Last(r) == Last(l); }
  }

  lemma {:induction false} FlatConcat(subs: seq<seq<Op>>, a: seq<nat>, b: seq<nat>)
    requires Fit(a, |subs|) && Fit(b, |subs|)
    ensures Fit(a + b, |subs|) && Flat(subs, a + b) == Flat(subs, a) + Flat(subs, b)
  {
    if b == [] {
      assert a + b == a;
    } else {
      var c, ab := b[..|b| - 1], a + b;
      FlatConcat(subs, a, c);
      assert ab[..|ab| - 1] == a + c && Last(ab) == Last(b) && Fit(ab, |subs|);
      Assoc(Flat(subs, a), Flat(subs, c), subs[Last(b)]);
    }
  }

  lemma {:induction false} FlatFrame(subs: seq<seq<Op>>, l: seq<nat>, j: nat, x: seq<Op>)
    requires Fit(l, |subs|) && j < |subs| && j !in l
    ensures Flat(subs[j := x], l) == Flat(subs, l)
  {
    if l != [] { FlatFrame(subs, l[..|l| - 1], j, x); }
  }

  // ---------------------------------------------------------------- every operation keeps the invariant

  lemma RingApart(v: View<Place>, ring: seq<nat>, p: Place, j: nat)
    requires Owns(v) && RingOk(v, ring) && !p.On? && j in v.lists(p)
    ensures j !in ring
  {
    OwnedBy(v, p, j);
    forall i | 0 <= i < |ring| ensures ring[i] != j { assert RingFirst(v, ring, i); }
  }

  /** Fresh memory for the pool, in its order of allocation. */
  ghost predicate Extended(m: Mem, m': Mem, n: nat)
  {
    && m'.append == m.append && m'.active == m.active && m'.pool == n
    && |m'.next| == |m'.nextPeer| == |m'.slotOf| == |m'.opCount| == |m'.kind| == |m'.running| == |m'.subs| ==
      n + ALLOCATE_SIZE
    && m.next <= m'.next && m.nextPeer <= m'.nextPeer && m.slotOf <= m'.slotOf && m.subs <= m'.subs
    && m.opCount <= m'.opCount
    && forall j :: n <= j < n + ALLOCATE_SIZE ==> m'.next[j] == if j + 1 < n + ALLOCATE_SIZE then j + 1 else -1
  }

  lemma EndsPrefix(next: seq<int>, longer: seq<int>, l: seq<nat>)
    requires Ends(next, l) && next <= longer
    ensures Ends(longer, l)
  {
    forall i | 0 <= i < |l| - 1 ensures LinkAt(longer, l, i) { assert LinkAt(next, l, i); }
  }

  lemma GrowKeeps(m: Mem, v: View<Place>, ring: seq<nat>, m': Mem)
    requires Inv(m, v, ring) && v.lists(Free) == [] && Extended(m, m', |m.next|)
    ensures Inv(m', Grown(v, Free, ALLOCATE_SIZE), ring)
  {
    var w := Grown(v, Free, ALLOCATE_SIZE);
    GrowOwns(v, Free, ALLOCATE_SIZE);
    EndsPrefix(m.next, m'.next, ring);
    forall j ensures SlotAt(m', w, j) { assert SlotAt(m, v, j); }
    forall c: nat ensures ChainAt(m', w, c) {
      assert ChainAt(m, v, c);
      if c < |m.append| { EndsPrefix(m.nextPeer, m'.nextPeer, v.lists(On(c))); }
    }
    forall i ensures RingFirst(w, ring, i) { assert RingFirst(v, ring, i); }
    forall d: nat ensures Covered(w, ring, d) { assert Covered(v, ring, d); }
  }

  lemma TakenLists(v: View<Place>, e: nat, w: View<Place>)
    requires Owns(v) && Head(v.lists(Free)) == e && v.lists(Taken) == [] && w == Moved(v, Move(Free, 1, Taken, false))
    ensures Owns(w) && |w.owner| == |v.owner| && w.lists(Taken) == [e] && w.lists(Free) == v.lists(Free)[1..]
    ensures forall d :: w.lists(On(d)) == v.lists(On(d))
    ensures e < |v.owner| && v.owner[e] == Free && e !in w.lists(Free)
    ensures forall j :: 0 <= j < |v.owner| ==> w.owner[j] == if j == e then Taken else v.owner[j]
  {
    var l := v.lists(Free);
    MoveOwns(v, Move(Free, 1, Taken, false));
    assert l[..1] == [e] && l == [e] + l[1..];
    OwnedBy(v, Free, e);
    DistinctApart([e], l[1..], e);
  }

  lemma TakenRing(v: View<Place>, ring: seq<nat>, e: nat, w: View<Place>)
    requires Owns(v) && Head(v.lists(Free)) == e && v.lists(Taken) == [] && w == Moved(v, Move(Free, 1, Taken, false))
    requires RingOk(v, ring)
    ensures RingOk(w, ring)
  {
    TakenLists(v, e, w);
    forall i ensures RingFirst(w, ring, i) { assert RingFirst(v, ring, i); }
    forall d: nat ensures Covered(w, ring, d) { assert Covered(v, ring, d); }
  }

  lemma TakeKeeps(m: Mem, v: View<Place>, ring: seq<nat>, e: nat, m': Mem)
    requires Inv(m, v, ring) && v.lists(Taken) == [] && m.pool == e < |m.next|
    requires m' == m.(pool := m.next[e], next := m.next[e := -1], nextPeer := m.nextPeer[e := -1])
    ensures v.lists(Free) != [] && Inv(m', Moved(v, Move(Free, 1, Taken, false)), ring)
  {
    var w, l := Moved(v, Move(Free, 1, Taken, false)), v.lists(Free);
    TakenLists(v, e, w);
    TakenRing(v, ring, e, w);
    EndsTail(m.next, l);
    EndsFrame(m.next, l[1..], e, -1);
    RingApart(v, ring, Free, e);
    EndsFrame(m.next, ring, e, -1);
    forall c: nat ensures ChainAt(m', w, c) {
      assert ChainAt(m, v, c);
      Apart(v, Free, e, On(c));
      if c < |m.append| { EndsFrame(m.nextPeer, v.lists(On(c)), e, -1); }
    }
    forall j ensures SlotAt(m', w, j) { assert SlotAt(m, v, j); }
  }

  /** The taken args `e` join the chain of slot `c`: effect on the lists. */
  lemma JoinedLists(v: View<Place>, e: nat, c: nat, w: View<Place>)
    requires Owns(v) && v.lists(Taken) == [e] && w == Moved(v, Move(Taken, 1, On(c), false))
    ensures Owns(w) && |w.owner| == |v.owner| && w.lists(Taken) == [] && w.lists(Free) == v.lists(Free)
    ensures forall d :: w.lists(On(d)) == if d == c then v.lists(On(c)) + [e] else v.lists(On(d))
    ensures forall j :: 0 <= j < |v.owner| ==> w.owner[j] == if j == e then On(c) else v.owner[j]
  {
    MoveOwns(v, Move(Taken, 1, On(c), false));
    assert [e][..1] == [e] && [e][1..] == [];
  }

  lemma JoinedFirst(v: View<Place>, e: nat, c: nat, w: View<Place>, j: nat)
    requires Owns(v) && v.lists(Taken) == [e] && w == Moved(v, Move(Taken, 1, On(c), false)) && First(v, j)
    ensures First(w, j)
  {
    JoinedLists(v, e, c, w);
    OwnedBy(v, Taken, e);
  }

  lemma JoinedRingFirst(v: View<Place>, ring: seq<nat>, e: nat, c: nat, w: View<Place>)
    requires Owns(v) && RingOk(v, ring) && v.lists(Taken) == [e] && v.lists(On(c)) == []
    requires w == Moved(v, Move(Taken, 1, On(c), false))
    ensures RingOk(w, ring + [e])
  {
    JoinedLists(v, e, c, w);
    RingApart(v, ring, Taken, e);
    DistinctConcat(ring, [e]);
    OwnedBy(v, Taken, e);
    var r := ring + [e];
    forall i ensures RingFirst(w, r, i) {
      assert RingFirst(v, ring, i);
      if 0 <= i < |ring| { JoinedFirst(v, e, c, w, ring[i]); }
    }
    forall d: nat ensures Covered(w, r, d) {
      assert r[|ring|] == e;
      assert Covered(v, ring, d);
    }
  }

  lemma JoinedRingNext(v: View<Place>, ring: seq<nat>, e: nat, c: nat, w: View<Place>)
    requires Owns(v) && RingOk(v, ring) && v.lists(Taken) == [e] && v.lists(On(c)) != []
    requires w == Moved(v, Move(Taken, 1, On(c), false))
    ensures RingOk(w, ring)
  {
    JoinedLists(v, e, c, w);
    forall i ensures RingFirst(w, ring, i) {
      assert RingFirst(v, ring, i);
      if 0 <= i < |ring| { JoinedFirst(v, e, c, w, ring[i]); }
    }
    forall d: nat ensures Covered(w, ring, d) { assert Covered(v, ring, d); }
  }

  lemma JoinedSlots(m: Mem, v: View<Place>, e: nat, c: nat, w: View<Place>, m': Mem)
    requires Shaped(m, v) && SlotsOk(m, v) && v.lists(Taken) == [e] && w == Moved(v, Move(Taken, 1, On(c), false))
    requires c < |m.append| && e < |m.next| && m.slotOf[e] == c && m.subs[e] != []
    requires Shaped(m', w) && m'.slotOf == m.slotOf && m'.subs == m.subs && |m'.append| == |m.append|
    ensures SlotsOk(m', w)
  {
    JoinedLists(v, e, c, w);
    forall j ensures SlotAt(m', w, j) { assert SlotAt(m, v, j); }
  }

  lemma LinkFirstEnds(next: seq<int>, v: View<Place>, ring: seq<nat>, e: nat, next': seq<int>)
    requires Owns(v) && RingOk(v, ring) && v.lists(Taken) == [e] && e < |next| && next[e] == -1
    requires Ends(next, ring) && Ends(next, v.lists(Free))
    requires next' == if ring == [] then next else next[Last(ring) := e]
    ensures Ends(next', ring + [e]) && Ends(next', v.lists(Free))
  {
    RingApart(v, ring, Taken, e);
    EndsPush(next, ring, e);
    if ring != [] {
      assert RingFirst(v, ring, |ring| - 1);
      OwnedBy(v, Free, Last(ring));
      EndsFrame(next, v.lists(Free), Last(ring), e);
    }
  }

  /** New args as the first of an empty chain: they go to the end of the active list. */
  lemma LinkFirstKeeps(m: Mem, v: View<Place>, ring: seq<nat>, e: nat, c: nat, m': Mem)
    requires Inv(m, v, ring) && v.lists(Taken) == [e] && e < |m.next| && m.next[e] == -1 == m.nextPeer[e]
    requires c < |m.append| && v.lists(On(c)) == [] && m.slotOf[e] == c && m.subs[e] != []
    requires ring != [] ==> Last(ring) < |m.next|
    requires m' == m.(next := if ring == [] then m.next else m.next[Last(ring) := e],
                      active := if ring == [] then e else m.active, append := m.append[c := e])
    ensures Inv(m', Moved(v, Move(Taken, 1, On(c), false)), ring + [e])
  {
    var w := Moved(v, Move(Taken, 1, On(c), false));
    JoinedLists(v, e, c, w);
    JoinedRingFirst(v, ring, e, c, w);
    JoinedSlots(m, v, e, c, w, m');
    LinkFirstEnds(m.next, v, ring, e, m'.next);
    forall d: nat ensures ChainAt(m', w, d) {
      assert ChainAt(m, v, d);
    }
  }

  lemma JoinedChain(m: Mem, v: View<Place>, e: nat, c: nat, last: nat, w: View<Place>, d: nat)
    requires Shaped(m, v) && v.lists(Taken) == [e] && e < |m.next| && m.nextPeer[e] == -1
    requires w == Moved(v, Move(Taken, 1, On(c), false)) && c < |m.append| && d < |m.append|
    requires v.lists(On(c)) != [] && Last(v.lists(On(c))) == last < |m.nextPeer|
    requires ChainOk(m.nextPeer, v.lists(On(c)), m.append[c]) && ChainOk(m.nextPeer, v.lists(On(d)), m.append[d])
    ensures ChainOk(m.nextPeer[last := e], w.lists(On(d)), m.append[c := e][d])
  {
    JoinedLists(v, e, c, w);
    if d == c {
      Apart(v, Taken, e, On(c));
      assert OnceIn(v, On(c));
      EndsPush(m.nextPeer, v.lists(On(c)), e);
    } else {
      Apart(v, On(c), last, On(d));
      EndsFrame(m.nextPeer, v.lists(On(d)), last, e);
    }
  }

  /** New args behind the last ones of a chain. */
  lemma LinkNextKeeps(m: Mem, v: View<Place>, ring: seq<nat>, e: nat, c: nat, last: nat, m': Mem)
    requires Inv(m, v, ring) && v.lists(Taken) == [e] && e < |m.next| && m.next[e] == -1 == m.nextPeer[e]
    requires c < |m.append| && m.append[c] == last < |m.nextPeer| && m.slotOf[e] == c && m.subs[e] != []
    requires m' == m.(nextPeer := m.nextPeer[last := e], append := m.append[c := e])
    ensures v.lists(On(c)) != [] && Inv(m', Moved(v, Move(Taken, 1, On(c), false)), ring)
  {
    var w := Moved(v, Move(Taken, 1, On(c), false));
    JoinedLists(v, e, c, w);
    assert ChainAt(m, v, c);
    JoinedRingNext(v, ring, e, c, w);
    JoinedSlots(m, v, e, c, w, m');
    forall d: nat ensures ChainAt(m', w, d) {
      assert ChainAt(m, v, d);
      if d < |m.append| { JoinedChain(m, v, e, c, last, w, d); }
    }
  }

  // ---------------------------------------------------------------- removal

  /** The first args `h` of slot `c` go back to the pool: effect on the lists. */
  lemma RemovedLists(v: View<Place>, h: nat, c: nat, w: View<Place>)
    requires Owns(v) && v.lists(On(c)) != [] && v.lists(On(c))[0] == h && w == Moved(v, Move(On(c), 1, Free, true))
    ensures Owns(w) && |w.owner| == |v.owner| && w.lists(Taken) == v.lists(Taken)
    ensures w.lists(Free) == [h] + v.lists(Free)
    ensures forall d :: w.lists(On(d)) == if d == c then v.lists(On(c))[1..] else v.lists(On(d))
  {
    MoveOwns(v, Move(On(c), 1, Free, true));
    assert v.lists(On(c))[..1] == [h];
  }

  lemma RemovedOwners(v: View<Place>, h: nat, c: nat, w: View<Place>)
    requires Owns(v) && v.lists(On(c)) != [] && v.lists(On(c))[0] == h && w == Moved(v, Move(On(c), 1, Free, true))
    ensures |w.owner| == |v.owner| && h < |v.owner| && v.owner[h] == On(c)
    ensures forall j :: 0 <= j < |v.owner| ==> w.owner[j] == if j == h then Free else v.owner[j]
  {
    assert v.lists(On(c))[..1] == [h];
    OwnedBy(v, On(c), h);
  }

  /** Other chains keep their first args; the next ones of this chain are not in the active list. */
  lemma RemovedFirst(v: View<Place>, ring: seq<nat>, k: nat, c: nat, w: View<Place>, i: nat)
    requires Owns(v) && RingOk(v, ring) && k < |ring| && v.lists(On(c)) != [] && v.lists(On(c))[0] == ring[k]
    requires w == Moved(v, Move(On(c), 1, Free, true)) && i < |ring|
    ensures i != k ==> First(w, ring[i])
    ensures 1 < |v.lists(On(c))| ==> ring[i] != v.lists(On(c))[1]
  {
    RemovedLists(v, ring[k], c, w);
    RemovedOwners(v, ring[k], c, w);
    assert RingFirst(v, ring, i);
    assert OnceIn(v, On(c));
    if 1 < |v.lists(On(c))| { OwnedBy(v, On(c), v.lists(On(c))[1]); }
  }

  lemma RemovedFirstsLast(v: View<Place>, ring: seq<nat>, k: nat, c: nat, w: View<Place>, r: seq<nat>, i: nat)
    requires Owns(v) && RingOk(v, ring) && k < |ring| && v.lists(On(c)) == [ring[k]]
    requires w == Moved(v, Move(On(c), 1, Free, true)) && r == ring[..k] + ring[k + 1..] && i < |r|
    ensures First(w, r[i])
  {
    var j := if i < k then i else i + 1;
    assert r[i] == ring[j];
    RemovedFirst(v, ring, k, c, w, j);
  }

  lemma RemovedCoversLast(v: View<Place>, ring: seq<nat>, k: nat, c: nat, w: View<Place>, r: seq<nat>, d: nat)
    requires Owns(v) && RingOk(v, ring) && k < |ring| && v.lists(On(c)) == [ring[k]]
    requires w == Moved(v, Move(On(c), 1, Free, true)) && r == ring[..k] + ring[k + 1..]
    ensures Covered(w, r, d)
  {
    RemovedLists(v, ring[k], c, w);
    if d != c && v.lists(On(d)) != [] { RingDropped(v, ring, k, c, d, r); }
  }

  lemma RemovedRingLast(v: View<Place>, ring: seq<nat>, k: nat, c: nat, w: View<Place>, r: seq<nat>)
    requires Owns(v) && RingOk(v, ring) && k < |ring| && v.lists(On(c)) == [ring[k]]
    requires w == Moved(v, Move(On(c), 1, Free, true)) && r == ring[..k] + ring[k + 1..]
    ensures RingOk(w, r)
  {
    DistinctDrop(ring, k);
    forall i ensures RingFirst(w, r, i) {
      if 0 <= i < |r| { RemovedFirstsLast(v, ring, k, c, w, r, i); }
    }
    forall d: nat ensures Covered(w, r, d) { RemovedCoversLast(v, ring, k, c, w, r, d); }
  }

  lemma RemovedFirstsNext(v: View<Place>, ring: seq<nat>, k: nat, c: nat, w: View<Place>, e: nat, i: nat)
    requires Owns(v) && RingOk(v, ring) && k < |ring| && 1 < |v.lists(On(c))| && v.lists(On(c))[0] == ring[k]
    requires w == Moved(v, Move(On(c), 1, Free, true)) && e == v.lists(On(c))[1] && i < |ring|
    ensures First(w, ring[k := e][i]) && ring[i] != e
  {
    RemovedLists(v, ring[k], c, w);
    RemovedOwners(v, ring[k], c, w);
    OwnedBy(v, On(c), e);
    assert OnceIn(v, On(c));
    RemovedFirst(v, ring, k, c, w, i);
  }

  lemma RemovedCoversNext(v: View<Place>, ring: seq<nat>, k: nat, c: nat, w: View<Place>, e: nat, d: nat)
    requires Owns(v) && RingOk(v, ring) && k < |ring| && 1 < |v.lists(On(c))| && v.lists(On(c))[0] == ring[k]
    requires w == Moved(v, Move(On(c), 1, Free, true)) && e == v.lists(On(c))[1]
    ensures Covered(w, ring[k := e], d)
  {
    RemovedLists(v, ring[k], c, w);
    if d == c { assert ring[k := e][k] == e; } else if v.lists(On(d)) != [] { RingElsewhere(v, ring, k, c, d, e); }
  }

  lemma RemovedRingNext(v: View<Place>, ring: seq<nat>, k: nat, c: nat, w: View<Place>, r: seq<nat>, e: nat)
    requires Owns(v) && RingOk(v, ring) && k < |ring| && 1 < |v.lists(On(c))| && v.lists(On(c))[0] == ring[k]
    requires w == Moved(v, Move(On(c), 1, Free, true)) && e == v.lists(On(c))[1] && r == ring[k := e]
    ensures RingOk(w, r) && e !in ring
  {
    forall i ensures RingFirst(w, r, i) && (0 <= i < |ring| ==> ring[i] != e) {
      if 0 <= i < |ring| { RemovedFirstsNext(v, ring, k, c, w, e, i); }
    }
    forall d: nat ensures Covered(w, r, d) { RemovedCoversNext(v, ring, k, c, w, e, d); }
  }

  lemma RingDropped(v: View<Place>, ring: seq<nat>, k: nat, c: nat, d: nat, r: seq<nat>)
    requires Owns(v) && RingOk(v, ring) && k < |ring| && v.lists(On(c)) != [] && v.lists(On(c))[0] == ring[k]
    requires d != c && v.lists(On(d)) != [] && r == ring[..k] + ring[k + 1..]
    ensures v.lists(On(d))[0] in r
  {
    assert Covered(v, ring, d);
    var i :| 0 <= i < |ring| && ring[i] == v.lists(On(d))[0];
    OwnedBy(v, On(d), ring[i]);
    OwnedBy(v, On(c), ring[k]);
    assert r[if k < i then i - 1 else i] == ring[i];
  }

  lemma RingElsewhere(v: View<Place>, ring: seq<nat>, k: nat, c: nat, d: nat, e: nat)
    requires Owns(v) && RingOk(v, ring) && k < |ring| && v.lists(On(c)) != [] && v.lists(On(c))[0] == ring[k]
    requires d != c && v.lists(On(d)) != []
    ensures v.lists(On(d))[0] in ring[k := e]
  {
    assert Covered(v, ring, d);
    var i :| 0 <= i < |ring| && ring[i] == v.lists(On(d))[0];
    OwnedBy(v, On(d), ring[i]);
    OwnedBy(v, On(c), ring[k]);
    assert ring[k := e][i] == ring[i];
  }

  // What removeOp writes, in the two cases.

  lemma RemovedEndsLast(next: seq<int>, ring: seq<nat>, free: seq<nat>, k: nat)
    requires Ends(next, ring) && Ends(next, free) && Distinct(ring) && k < |ring|
    requires forall i :: 0 <= i < |ring| ==> ring[i] !in free
    ensures var after: int := if k + 1 < |ring| then ring[k + 1] else -1;
      var n1 := if k == 0 then next else next[ring[k - 1] := after];
      var n2 := n1[ring[k] := Head(free)];
      Ends(n2, ring[..k] + ring[k + 1..]) && Ends(n2, [ring[k]] + free)
  {
    var after: int := if k + 1 < |ring| then ring[k + 1] else -1;
    var n1 := if k == 0 then next else next[ring[k - 1] := after];
    EndsDrop(next, ring, k);
    EndsFrame(n1, ring[..k] + ring[k + 1..], ring[k], Head(free));
    if 0 < k { EndsFrame(next, free, ring[k - 1], after); }
    EndsCons(n1, free, ring[k]);
  }

  lemma RemovedEndsNext(next: seq<int>, ring: seq<nat>, free: seq<nat>, k: nat, e: nat)
    requires Ends(next, ring) && Ends(next, free) && Distinct(ring) && k < |ring| && e < |next| && e !in ring
    requires e !in free
    requires forall i :: 0 <= i < |ring| ==> ring[i] !in free
    ensures var after: int := if k + 1 < |ring| then ring[k + 1] else -1;
      var n1 := if k == 0 then next else next[ring[k - 1] := e];
      var n2 := n1[e := after][ring[k] := Head(free)];
      Ends(n2, ring[k := e]) && Ends(n2, [ring[k]] + free)
  {
    var after: int := if k + 1 < |ring| then ring[k + 1] else -1;
    var n1 := if k == 0 then next else next[ring[k - 1] := e];
    EndsReplace(next, ring, k, e);
    EndsFrame(n1[e := after], ring[k := e], ring[k], Head(free));
    if 0 < k { EndsFrame(next, free, ring[k - 1], e); }
    EndsFrame(n1, free, e, after);
    EndsCons(n1[e := after], free, ring[k]);
  }

  ghost predicate Removing(m: Mem, v: View<Place>, ring: seq<nat>, k: nat, c: nat)
  {
    Inv(m, v, ring) && k < |ring| && c < |m.append| && v.lists(On(c)) != [] && v.lists(On(c))[0] == ring[k]
  }

  /** The args at the head of the active list position belong to the slot they name. */
  lemma RemovingAt(m: Mem, v: View<Place>, ring: seq<nat>, k: nat)
    requires Inv(m, v, ring) && k < |ring|
    ensures ring[k] < |m.next| && Removing(m, v, ring, k, m.slotOf[ring[k]])
  {
    assert RingFirst(v, ring, k) && SlotAt(m, v, ring[k]);
  }

  lemma RemovedChains(m: Mem, v: View<Place>, ring: seq<nat>, k: nat, c: nat, w: View<Place>, d: nat)
    requires Removing(m, v, ring, k, c) && w == Moved(v, Move(On(c), 1, Free, true)) && d < |m.append|
    ensures ChainOk(m.nextPeer, w.lists(On(d)), if d == c && |v.lists(On(c))| == 1 then -1 else m.append[d])
    ensures m.nextPeer[ring[k]] == Head(v.lists(On(c))[1..])
  {
    RemovedLists(v, ring[k], c, w);
    assert ChainAt(m, v, d) && ChainAt(m, v, c);
    EndsTail(m.nextPeer, v.lists(On(c)));
    if d == c && 1 < |v.lists(On(c))| { assert Last(v.lists(On(c))[1..]) == Last(v.lists(On(c))); }
  }

  lemma RemovePeers(m: Mem, v: View<Place>, ring: seq<nat>, k: nat, c: nat, w: View<Place>, m': Mem)
    requires Removing(m, v, ring, k, c) && w == Moved(v, Move(On(c), 1, Free, true))
    requires |m'.next| == |m.next| && m'.nextPeer == m.nextPeer && m'.slotOf == m.slotOf && m'.opCount == m.opCount
    requires m'.kind == m.kind && m'.running == m.running && m'.subs == m.subs
    requires m'.append == if |v.lists(On(c))| == 1 then m.append[c := -1] else m.append
    ensures PeersOk(m', w)
  {
    RemovedLists(v, ring[k], c, w);
    RemovedOwners(v, ring[k], c, w);
    forall j ensures SlotAt(m', w, j) { assert SlotAt(m, v, j); }
    forall d: nat ensures ChainAt(m', w, d) {
      if d < |m.append| { RemovedChains(m, v, ring, k, c, w, d); }
    }
  }

  /** Removal of the last args of a chain: the active list shrinks. */
  lemma RemoveLastLists(m: Mem, v: View<Place>, ring: seq<nat>, k: nat, c: nat, w: View<Place>, m': Mem)
    requires Owns(v) && ListsOk(m, v, ring) && k < |ring| && v.lists(On(c)) == [ring[k]]
    requires w == Moved(v, Move(On(c), 1, Free, true)) && Fit(ring, |m.next|)
    requires var after: int := if k + 1 < |ring| then ring[k + 1] else -1;
      var n1 := if k == 0 then m.next else m.next[ring[k - 1] := after];
      m'.next == n1[ring[k] := m.pool] && m'.pool == ring[k] && m'.active == if k == 0 then after else m.active
    ensures ListsOk(m', w, ring[..k] + ring[k + 1..])
  {
    RemovedLists(v, ring[k], c, w);
    RemovedRingLast(v, ring, k, c, w, ring[..k] + ring[k + 1..]);
    RingNotFree(v, ring);
    RemovedEndsLast(m.next, ring, v.lists(Free), k);
  }

  /** Removal of args with successors: the next ones take their place in the active list. */
  lemma RemoveNextLists(m: Mem, v: View<Place>, ring: seq<nat>, k: nat, c: nat, e: nat, w: View<Place>, m': Mem)
    requires Owns(v) && ListsOk(m, v, ring) && k < |ring| && 1 < |v.lists(On(c))| && v.lists(On(c))[0] == ring[k]
    requires e == v.lists(On(c))[1] < |m.next| && w == Moved(v, Move(On(c), 1, Free, true)) && Fit(ring, |m.next|)
    requires var after: int := if k + 1 < |ring| then ring[k + 1] else -1;
      var n1 := if k == 0 then m.next else m.next[ring[k - 1] := e];
      m'.next == n1[e := after][ring[k] := m.pool] && m'.pool == ring[k] && m'.active == if k == 0 then e else m.active
    ensures ListsOk(m', w, ring[k := e])
  {
    RemovedLists(v, ring[k], c, w);
    RemovedRingNext(v, ring, k, c, w, ring[k := e], e);
    RingNotFree(v, ring);
    OwnedBy(v, On(c), e);
    OwnedBy(v, Free, e);
    RemovedEndsNext(m.next, ring, v.lists(Free), k, e);
  }

  lemma RingNotFree(v: View<Place>, ring: seq<nat>)
    requires Owns(v) && RingOk(v, ring)
    ensures forall i :: 0 <= i < |ring| ==> ring[i] !in v.lists(Free)
  {
    forall i | 0 <= i < |ring| ensures ring[i] !in v.lists(Free) {
      assert RingFirst(v, ring, i);
      OwnedBy(v, Free, ring[i]);
    }
  }

  // ---------------------------------------------------------------- order of the ops of a slot

  /** What a slot was given is what has been completed, followed by what its chain holds. */
  ghost predicate OrderAt(subs: seq<seq<Op>>, l: seq<nat>, given: seq<Op>, done: seq<Op>)
  {
    Fit(l, |subs|) && given == done + Flat(subs, l)
  }

  ghost predicate OrderHolds(m: Mem, v: View<Place>, given: seq<seq<Op>>, done: seq<seq<Op>>, c: nat)
  {
    c < |given| && c < |done| ==> OrderAt(m.subs, v.lists(On(c)), given[c], done[c])
  }

  ghost predicate OrderOk(m: Mem, v: View<Place>, given: seq<seq<Op>>, done: seq<seq<Op>>)
  {
    |given| == |done| == |m.append| && forall c: nat :: OrderHolds(m, v, given, done, c)
  }

  lemma OrderPush(subs: seq<seq<Op>>, l: seq<nat>, given: seq<Op>, done: seq<Op>, e: nat)
    requires OrderAt(subs, l, given, done) && e < |subs|
    ensures OrderAt(subs, l + [e], given + subs[e], done)
  {
    assert (l + [e])[..|l + [e]| - 1] == l;
    assert done + Flat(subs, l) + subs[e] == done + (Flat(subs, l) + subs[e]);
  }

  lemma OrderSub(subs: seq<seq<Op>>, l: seq<nat>, given: seq<Op>, done: seq<Op>, op: Op)
    requires OrderAt(subs, l, given, done) && l != [] && Distinct(l)
    ensures OrderAt(subs[Last(l) := subs[Last(l)] + [op]], l, given + [op], done)
  {
    var i, t := Last(l), l[..|l| - 1];
    FlatFrame(subs, t, i, subs[i] + [op]);
    assert done + (Flat(subs, t) + subs[i]) + [op] == done + (Flat(subs, t) + (subs[i] + [op]));
  }

  lemma OrderPop(subs: seq<seq<Op>>, l: seq<nat>, given: seq<Op>, done: seq<Op>)
    requires OrderAt(subs, l, given, done) && l != []
    ensures OrderAt(subs, l[1..], given, done + subs[l[0]])
  {
    assert l == [l[0]] + l[1..];
    FlatConcat(subs, [l[0]], l[1..]);
    assert [l[0]][..0] == [] && Flat(subs, [l[0]]) == subs[l[0]];
    assert done + (subs[l[0]] + Flat(subs, l[1..])) == done + subs[l[0]] + Flat(subs, l[1..]);
  }

  // ---------------------------------------------------------------- the progress state

  /** The `next` links of a freshly allocated block whose first args have index `n`. */
  method NewLinks(n: nat) returns (links: seq<int>)
    ensures |links| == ALLOCATE_SIZE
    ensures forall i :: 0 <= i < ALLOCATE_SIZE ==> links[i] == if i + 1 < ALLOCATE_SIZE then n + i + 1 else -1
  {
    var a := new int[ALLOCATE_SIZE](_ => -1);
    for i := 0 to ALLOCATE_SIZE
      invariant forall j :: 0 <= j < ALLOCATE_SIZE ==> a[j] == if j < i && j + 1 < ALLOCATE_SIZE then n + j + 1 else -1
    {
      if i + 1 < ALLOCATE_SIZE { a[i] := n + i + 1; }
    }
    links := a[..];
  }

  lemma OrderKept(m: Mem, v: View<Place>, given: seq<seq<Op>>, done: seq<seq<Op>>, m': Mem, w: View<Place>)
    requires OrderOk(m, v, given, done) && m.subs <= m'.subs && |m'.append| == |m.append|
    requires forall c: nat :: w.lists(On(c)) == v.lists(On(c))
    ensures OrderOk(m', w, given, done)
  {
    forall c: nat ensures OrderHolds(m', w, given, done, c) {
      assert OrderHolds(m, v, given, done, c);
      if c < |given| { FlatPrefix(m.subs, m'.subs, v.lists(On(c))); }
    }
  }

  lemma {:induction false} FlatPrefix(subs: seq<seq<Op>>, longer: seq<seq<Op>>, l: seq<nat>)
    requires Fit(l, |subs|) && subs <= longer
    ensures Flat(longer, l) == Flat(subs, l)
  {
    if l != [] { FlatPrefix(subs, longer, l[..|l| - 1]); }
  }

  lemma TakenIndex(m: Mem, v: View<Place>, ring: seq<nat>, e: nat)
    requires Inv(m, v, ring) && v.lists(Taken) == [e]
    ensures e < |m.next|
  {
    OwnedBy(v, Taken, e);
  }

  lemma FillKeeps(m: Mem, v: View<Place>, ring: seq<nat>, e: nat, m': Mem)
    requires Inv(m, v, ring) && v.lists(Taken) == [e] && e < |m.next|
    requires m' ==
      m.(slotOf := m'.slotOf, subs := m'.subs, opCount := m'.opCount, kind := m'.kind, running := m'.running)
    requires |m'.slotOf| == |m'.subs| == |m'.opCount| == |m'.kind| == |m'.running| == |m.next|
    requires forall j :: 0 <= j < |m.next| && j != e ==> m'.slotOf[j] == m.slotOf[j] && m'.subs[j] == m.subs[j]
    ensures Inv(m', v, ring)
  {
    OwnedBy(v, Taken, e);
    forall j ensures SlotAt(m', v, j) { assert SlotAt(m, v, j); }
    forall c: nat ensures ChainAt(m', v, c) { assert ChainAt(m, v, c); }
  }

  lemma FillOrder(m: Mem, v: View<Place>, given: seq<seq<Op>>, done: seq<seq<Op>>, e: nat, m': Mem)
    requires Owns(v) && v.lists(Taken) == [e] && e < |m.subs| && OrderOk(m, v, given, done)
    requires |m'.append| == |m.append| && |m'.subs| == |m.subs| && m'.subs == m.subs[e := m'.subs[e]]
    ensures OrderOk(m', v, given, done)
  {
    forall c: nat ensures OrderHolds(m', v, given, done, c) {
      assert OrderHolds(m, v, given, done, c);
      Apart(v, Taken, e, On(c));
      if c < |given| { FlatFrame(m.subs, v.lists(On(c)), e, m'.subs[e]); }
    }
  }

  /** The op can become a sub of the last args of its slot. */
  predicate Aggregates(m: Mem, op: Op)
  {
    && op.slot < |m.append| && 0 <= m.append[op.slot] < |m.opCount|
    && op.shared && m.opCount[m.append[op.slot]] == op.opCount
  }

  /** Aggregation is refused: no room for another sub, other fields differ, or the args already run. */
  predicate Refuses(m: Mem, op: Op)
  {
    Aggregates(m, op) && var a := m.append[op.slot];
    a < |m.subs| && a < |m.kind| && a < |m.running| && (Overflows(m, op) || m.kind[a] != op.kind || m.running[a])
  }

  predicate Overflows(m: Mem, op: Op)
  {
    Aggregates(m, op) && m.append[op.slot] < |m.subs| && MAX_SUBS <= |m.subs[m.append[op.slot]]|
  }

  /** The last args of slot `c` wait to be progressed and hold the subs `q`. */
  predicate Queued(m: Mem, c: nat, opCount: nat, kind: int, q: seq<Op>)
  {
    c < |m.append| && var a := m.append[c];
    && 0 <= a < |m.subs| && a < |m.opCount| && a < |m.kind| && a < |m.running|
    && m.opCount[a] == opCount && m.kind[a] == kind && !m.running[a] && m.subs[a] == q
  }

  lemma SlotIndex(m: Mem, v: View<Place>, ring: seq<nat>, c: nat)
    requires Inv(m, v, ring) && c < |m.append|
    ensures v.lists(On(c)) == [] <==> m.append[c] == -1
    ensures v.lists(On(c)) != [] ==> 0 <= m.append[c] < |m.next| && m.append[c] == Last(v.lists(On(c)))
  {
    assert ChainAt(m, v, c);
  }

  lemma JoinOrder(
      m: Mem, v: View<Place>, given: seq<seq<Op>>, done: seq<seq<Op>>, e: nat, c: nat, m': Mem, w: View<Place>)
    requires OrderOk(m, v, given, done) && m'.subs == m.subs && |m'.append| == |m.append| && c < |given| && e < |m.subs|
    requires forall d: nat :: w.lists(On(d)) == if d == c then v.lists(On(c)) + [e] else v.lists(On(d))
    ensures OrderOk(m', w, given[c := given[c] + m.subs[e]], done)
  {
    var g := given[c := given[c] + m.subs[e]];
    forall d: nat ensures OrderHolds(m', w, g, done, d) {
      assert OrderHolds(m, v, given, done, d);
      if d == c { OrderPush(m.subs, v.lists(On(c)), given[c], done[c], e); }
    }
  }

  lemma SubKeeps(m: Mem, v: View<Place>, ring: seq<nat>, args: nat, m': Mem)
    requires Inv(m, v, ring) && args < |m.subs| && |m'.subs| == |m.subs| && m'.subs[args] != []
    requires m' == m.(subs := m.subs[args := m'.subs[args]])
    ensures Inv(m', v, ring)
  {
    forall j ensures SlotAt(m', v, j) { assert SlotAt(m, v, j); }
    forall c: nat ensures ChainAt(m', v, c) { assert ChainAt(m, v, c); }
  }

  lemma SubOrder(m: Mem, v: View<Place>, given: seq<seq<Op>>, done: seq<seq<Op>>, op: Op, args: nat, m': Mem)
    requires Owns(v) && OrderOk(m, v, given, done) && op.slot < |given| && args < |m.subs|
    requires v.lists(On(op.slot)) != [] && Last(v.lists(On(op.slot))) == args
    requires m' == m.(subs := m.subs[args := m.subs[args] + [op]])
    ensures OrderOk(m', v, given[op.slot := given[op.slot] + [op]], done)
  {
    var c, g := op.slot, given[op.slot := given[op.slot] + [op]];
    forall d: nat ensures OrderHolds(m', v, g, done, d) {
      assert OrderHolds(m, v, given, done, d);
      if d == c {
        assert OnceIn(v, On(c));
        OrderSub(m.subs, v.lists(On(c)), given[c], done[c], op);
      } else if d < |given| {
        Apart(v, On(c), args, On(d));
        FlatFrame(m.subs, v.lists(On(d)), args, m.subs[args] + [op]);
      }
    }
  }

  lemma RemoveOrder(
      m: Mem, v: View<Place>, given: seq<seq<Op>>, done: seq<seq<Op>>, h: nat, c: nat, m': Mem, w: View<Place>)
    requires OrderOk(m, v, given, done) && m'.subs == m.subs && |m'.append| == |m.append| && c < |given| && h < |m.subs|
    requires v.lists(On(c)) != [] && v.lists(On(c))[0] == h
    requires forall d: nat :: w.lists(On(d)) == if d == c then v.lists(On(c))[1..] else v.lists(On(d))
    ensures OrderOk(m', w, given, done[c := done[c] + m.subs[h]])
  {
    var f := done[c := done[c] + m.subs[h]];
    forall d: nat ensures OrderHolds(m', w, given, f, d) {
      assert OrderHolds(m, v, given, done, d);
      if d == c { OrderPop(m.subs, v.lists(On(c)), given[c], done[c]); }
    }
  }

  /** The memory after removing the args at position `k`, whose slot is `c`. */
  function Unlinked(m: Mem, ring: seq<nat>, k: nat, c: nat): Mem
    requires k < |ring| && Fit(ring, |m.next|) && c < |m.append| && ring[k] < |m.nextPeer|
    requires m.nextPeer[ring[k]] < |m.next|
  {
    var after: int := if k + 1 < |ring| then ring[k + 1] else -1;
    var e := m.nextPeer[ring[k]];
    var first := if e < 0 then after else e;
    var n1 := if k == 0 then m.next else m.next[ring[k - 1] := first];
    var n2 := if e < 0 then n1 else n1[e := after];
    m.(next := n2[ring[k] := m.pool], pool := ring[k], active := if k == 0 then first else m.active,
       append := if e < 0 then m.append[c := -1] else m.append)
  }

  /** What the code reads before it removes the args at position `k`. */
  lemma RemovalReads(m: Mem, v: View<Place>, ring: seq<nat>, k: nat)
    requires Inv(m, v, ring) && k < |ring|
    ensures Fit(ring, |m.next|) && m.next[ring[k]] == if k + 1 < |ring| then ring[k + 1] else -1
    ensures var c := m.slotOf[ring[k]];
      && c < |m.append| && Removing(m, v, ring, k, c) && m.nextPeer[ring[k]] == Head(v.lists(On(c))[1..])
      && m.nextPeer[ring[k]] < |m.next|
  {
    RemovingAt(m, v, ring, k);
    NextInRing(m.next, ring, k);
    var c := m.slotOf[ring[k]];
    assert ChainAt(m, v, c);
    EndsTail(m.nextPeer, v.lists(On(c)));
  }

  ghost predicate Removed(m: Mem, v: View<Place>, ring: seq<nat>, done: seq<seq<Op>>, op: nat, k: nat,
                          m': Mem, w: View<Place>, ring': seq<nat>, done': seq<seq<Op>>)
    requires k < |ring| && op < |m.slotOf|
  {
    var c, l := m.slotOf[op], v.lists(On(m.slotOf[op]));
    && l != [] && l[0] == op && c < |done| && op < |m.subs| && w == Moved(v, Move(On(c), 1, Free, true))
    && ring' == (if |l| == 1 then ring[..k] + ring[k + 1..] else ring[k := l[1]])
    && done' == done[c := done[c] + m.subs[op]]
    && m'.subs == m.subs && m'.slotOf == m.slotOf && |m'.append| == |m.append| && w.lists(Taken) == v.lists(Taken)
    && m'.running == m.running
  }

  lemma RemovalKeeps(m: Mem, v: View<Place>, ring: seq<nat>, k: nat, c: nat, w: View<Place>, m': Mem)
    requires Removing(m, v, ring, k, c) && Fit(ring, |m.next|)
    requires m.nextPeer[ring[k]] == Head(v.lists(On(c))[1..]) < |m.next|
    requires w == Moved(v, Move(On(c), 1, Free, true)) && m' == Unlinked(m, ring, k, c)
    ensures Inv(m', w, if |v.lists(On(c))| == 1 then ring[..k] + ring[k + 1..] else ring[k := v.lists(On(c))[1]])
  {
    RemovePeers(m, v, ring, k, c, w, m');
    if |v.lists(On(c))| == 1 {
      RemoveLastLists(m, v, ring, k, c, w, m');
    } else {
      RemoveNextLists(m, v, ring, k, c, v.lists(On(c))[1], w, m');
    }
  }

  lemma RemovalOrder(m: Mem, v: View<Place>, ring: seq<nat>, given: seq<seq<Op>>, done: seq<seq<Op>>, k: nat, c: nat,
                     m': Mem, w: View<Place>)
    requires Removing(m, v, ring, k, c) && OrderOk(m, v, given, done) && ring[k] < |m.subs|
    requires w == Moved(v, Move(On(c), 1, Free, true)) && m'.subs == m.subs && |m'.append| == |m.append|
    ensures OrderOk(m', w, given, done[c := done[c] + m.subs[ring[k]]])
  {
    RemovedLists(v, ring[k], c, w);
    RemoveOrder(m, v, given, done, ring[k], c, m', w);
  }

  /** All that removing the args at position `k` does. */
  lemma RemovalDone(m: Mem, v: View<Place>, ring: seq<nat>, given: seq<seq<Op>>, done: seq<seq<Op>>, k: nat, c: nat,
                    m': Mem, w: View<Place>, ring': seq<nat>, done': seq<seq<Op>>)
    requires Inv(m, v, ring) && OrderOk(m, v, given, done) && |done| == |m.append| && k < |ring|
    requires ring[k] < |m.slotOf| && m.slotOf[ring[k]] == c && ring[k] < |m.subs| && Removing(m, v, ring, k, c)
    requires Fit(ring, |m.next|) && m.nextPeer[ring[k]] == Head(v.lists(On(c))[1..]) < |m.next|
    requires w == Moved(v, Move(On(c), 1, Free, true)) && m' == Unlinked(m, ring, k, c)
    requires ring' == if m.nextPeer[ring[k]] != -1 then ring[k := m.nextPeer[ring[k]]] else ring[..k] + ring[k + 1..]
    requires done' == done[c := done[c] + m.subs[ring[k]]]
    ensures Inv(m', w, ring') && OrderOk(m', w, given, done')
    ensures Removed(m, v, ring, done, ring[k], k, m', w, ring', done')
  {
    RemovalKeeps(m, v, ring, k, c, w, m');
    RemovalOrder(m, v, ring, given, done, k, c, m', w);
  }

  /** The writes of removeOp. */
  method UnlinkArgs(m: Mem, op: nat, prev: int, ghost ring: seq<nat>, ghost k: nat)
    returns (t: Mem, op': int, prev': int)
    requires k < |ring| && ring[k] == op && prev == if k == 0 then -1 else ring[k - 1]
    requires Fit(ring, |m.next|) && op < |m.nextPeer| && op < |m.slotOf| && m.slotOf[op] < |m.append|
    requires m.next[op] == (if k + 1 < |ring| then ring[k + 1] else -1) && -1 <= m.nextPeer[op] < |m.next|
    ensures t == Unlinked(m, ring, k, m.slotOf[op]) && op' == m.next[op]
    ensures prev' == if m.nextPeer[op] == -1 then prev else m.nextPeer[op]
  {
    t, op', prev' := m, m.next[op], prev;
    var nextPeer := t.nextPeer[op];
    if nextPeer != -1 {
      if prev != -1 {
        t := t.(next := t.next[prev := nextPeer]);
      } else {
        t := t.(active := nextPeer);
      }
      t := t.(next := t.next[nextPeer := op']);
      prev' := nextPeer;
    } else {
      t := t.(append := t.append[t.slotOf[op] := -1]);
      if prev != -1 {
        t := t.(next := t.next[prev := op']);
      } else {
        t := t.(active := op');
      }
    }
    t := t.(next := t.next[op := t.pool], pool := op);
  }

  lemma NextInRing(next: seq<int>, ring: seq<nat>, k: nat)
    requires Ends(next, ring) && k < |ring|
    ensures Fit(ring, |next|) && next[ring[k]] == if k + 1 < |ring| then ring[k + 1] else -1
  {
    if k + 1 < |ring| { assert LinkAt(next, ring, k); }
  }

  // ---------------------------------------------------------------- one pass over the active list

  /** What takes the place of the first args `h` of a chain. */
  function PassOne(v: View<Place>, h: nat, finish: nat -> bool): seq<nat>
  {
    if !finish(h) then [h]
    else if h < |v.owner| && 1 < |v.lists(v.owner[h])| then [v.lists(v.owner[h])[1]]
    else []
  }

  /** The active list after a pass over `r`. */
  function PassRing(v: View<Place>, r: seq<nat>, finish: nat -> bool): seq<nat>
  {
    if r == [] then [] else PassRing(v, r[..|r| - 1], finish) + PassOne(v, Last(r), finish)
  }

  /** A chain after a pass: it loses its first args if they were visited and finished. */
  function PassChain(l: seq<nat>, visited: seq<nat>, finish: nat -> bool): seq<nat>
  {
    if l != [] && l[0] in visited && finish(l[0]) then l[1..] else l
  }

  /** What a pass adds to the completed ops of slot `c`. */
  predicate DonePass(
      m: Mem, v: View<Place>, visited: seq<nat>, finish: nat -> bool, before: seq<Op>, after: seq<Op>, c: nat)
  {
    var l := v.lists(On(c));
    after == before + if l != [] && l[0] in visited && finish(l[0]) && l[0] < |m.subs| then m.subs[l[0]] else []
  }

  predicate PassedAt(m: Mem, v: View<Place>, visited: seq<nat>, finish: nat -> bool, f: seq<seq<Op>>,
                     w: View<Place>, done: seq<seq<Op>>, c: nat)
  {
    && w.lists(On(c)) == PassChain(v.lists(On(c)), visited, finish)
    && (c < |f| && c < |done| ==> DonePass(m, v, visited, finish, f[c], done[c], c))
  }

  ghost predicate PassedTo(m: Mem, v: View<Place>, visited: seq<nat>, finish: nat -> bool, f: seq<seq<Op>>,
                           w: View<Place>, done: seq<seq<Op>>)
  {
    forall c: nat :: PassedAt(m, v, visited, finish, f, w, done, c)
  }

  lemma PassRingStep(v: View<Place>, r: seq<nat>, j: nat, finish: nat -> bool)
    requires j < |r|
    ensures PassRing(v, r[..j + 1], finish) == PassRing(v, r[..j], finish) + PassOne(v, r[j], finish)
  {
    assert r[..j + 1][..j] == r[..j];
  }

  /** The next args to be visited are still the first of their chain. */
  lemma PassHead(m: Mem, v: View<Place>, r: seq<nat>, j: nat, finish: nat -> bool, f: seq<seq<Op>>,
                 w: View<Place>, done: seq<seq<Op>>)
    requires Inv(m, v, r) && j < |r| && PassedTo(m, v, r[..j], finish, f, w, done)
    ensures r[j] < |m.slotOf| && r[j] < |v.owner| && v.owner[r[j]] == On(m.slotOf[r[j]]) && m.slotOf[r[j]] < |m.append|
    ensures var l := v.lists(On(m.slotOf[r[j]])); l != [] && l[0] == r[j] && w.lists(On(m.slotOf[r[j]])) == l
    ensures r[j] !in r[..j]
  {
    assert RingFirst(v, r, j) && SlotAt(m, v, r[j]);
    assert PassedAt(m, v, r[..j], finish, f, w, done, m.slotOf[r[j]]);
  }

  /** Other chains do not care whether `r[j]` is visited. */
  lemma PassOther(m: Mem, v: View<Place>, r: seq<nat>, j: nat, d: nat)
    requires Inv(m, v, r) && j < |r| && r[j] < |v.owner| && v.owner[r[j]] != On(d) && v.lists(On(d)) != []
    ensures v.lists(On(d))[0] in r[..j + 1] <==> v.lists(On(d))[0] in r[..j]
  {
    OwnedBy(v, On(d), r[j]);
    assert r[..j + 1] == r[..j] + [r[j]];
  }

  lemma PassKeeps(m: Mem, v: View<Place>, r: seq<nat>, j: nat, finish: nat -> bool, f: seq<seq<Op>>,
                  w: View<Place>, done: seq<seq<Op>>)
    requires Inv(m, v, r) && j < |r| && PassedTo(m, v, r[..j], finish, f, w, done) && !finish(r[j])
    ensures PassedTo(m, v, r[..j + 1], finish, f, w, done)
  {
    var seen := r[..j + 1];
    assert seen == r[..j] + [r[j]];
    forall d: nat ensures PassedAt(m, v, seen, finish, f, w, done, d) {
      assert PassedAt(m, v, r[..j], finish, f, w, done, d);
    }
  }

  lemma PassedSame(m: Mem, v: View<Place>, visited: seq<nat>, seen: seq<nat>, finish: nat -> bool, f: seq<seq<Op>>,
                   w: View<Place>, done: seq<seq<Op>>, w': View<Place>, done': seq<seq<Op>>, d: nat)
    requires PassedAt(m, v, visited, finish, f, w, done, d) && w'.lists(On(d)) == w.lists(On(d))
    requires |done'| == |done| && (d < |done| ==> done'[d] == done[d])
    requires v.lists(On(d)) != [] ==> (v.lists(On(d))[0] in seen <==> v.lists(On(d))[0] in visited)
    ensures PassedAt(m, v, seen, finish, f, w', done', d)
  {
  }

  /** The chain that loses its first args. */
  lemma PassedHead(m: Mem, v: View<Place>, visited: seq<nat>, h: nat, finish: nat -> bool, f: seq<seq<Op>>,
                   w: View<Place>, done: seq<seq<Op>>, w': View<Place>, done': seq<seq<Op>>, c: nat)
    requires PassedAt(m, v, visited, finish, f, w, done, c) && finish(h) && h !in visited && h < |m.subs|
    requires w.lists(On(c)) == v.lists(On(c)) != [] && v.lists(On(c))[0] == h && c < |done| == |f|
    requires w'.lists(On(c)) == v.lists(On(c))[1..] && done' == done[c := done[c] + m.subs[h]]
    ensures PassedAt(m, v, visited + [h], finish, f, w', done', c)
  {
    assert h in visited + [h];
  }

  lemma PassRemoves(m: Mem, v: View<Place>, r: seq<nat>, j: nat, finish: nat -> bool, f: seq<seq<Op>>,
                    w: View<Place>, done: seq<seq<Op>>, w': View<Place>, done': seq<seq<Op>>, c: nat)
    requires Inv(m, v, r) && j < |r| && PassedTo(m, v, r[..j], finish, f, w, done) && finish(r[j]) && Owns(w)
    requires r[j] < |v.owner| && v.owner[r[j]] == On(c) && r[j] < |m.subs| && r[j] !in r[..j]
    requires w.lists(On(c)) == v.lists(On(c)) != [] && v.lists(On(c))[0] == r[j] && c < |done| == |f|
    requires w' == Moved(w, Move(On(c), 1, Free, true)) && done' == done[c := done[c] + m.subs[r[j]]]
    ensures PassedTo(m, v, r[..j + 1], finish, f, w', done')
  {
    var visited, seen := r[..j], r[..j + 1];
    assert seen == visited + [r[j]];
    forall d: nat ensures PassedAt(m, v, seen, finish, f, w', done', d) {
      assert PassedAt(m, v, visited, finish, f, w, done, d);
      RemovedLists(w, r[j], c, w');
      if d == c {
        PassedHead(m, v, visited, r[j], finish, f, w, done, w', done', c);
      } else {
        if v.lists(On(d)) != [] { PassOther(m, v, r, j, d); }
        PassedSame(m, v, visited, seen, finish, f, w, done, w', done', d);
      }
    }
  }

  lemma RingEdits(a: seq<nat>, h: nat, tail: seq<nat>, e: nat)
    ensures var ring, k := a + ([h] + tail), |a|;
      && ring == (a + [h]) + tail && ring[..k] + ring[k + 1..] == (a + []) + tail && ring[k := e] == (a + [e]) + tail
  {
  }

  /** The active list after the args at position `k` have been dealt with. */
  lemma PassRingNext(
      v: View<Place>, r: seq<nat>, j: nat, finish: nat -> bool, a: seq<nat>, ring': seq<nat>, l: seq<nat>)
    requires j < |r| && a == PassRing(v, r[..j], finish) && r[j] < |v.owner| && l == v.lists(v.owner[r[j]]) != []
    requires var ring := a + r[j..]; var k := |a|;
      ring' == if !finish(r[j]) then ring else if |l| == 1 then ring[..k] + ring[k + 1..] else ring[k := l[1]]
    ensures ring' == PassRing(v, r[..j + 1], finish) + r[j + 1..]
  {
    PassRingStep(v, r, j, finish);
    assert r[j..] == [r[j]] + r[j + 1..];
    RingEdits(a, r[j], r[j + 1..], if |l| == 1 then 0 else l[1]);
  }

  /** The state in which a pass began, and the outcome of the progress calls. */
  datatype Pass = Pass(mem: Mem, view: View<Place>, ring: seq<nat>, done: seq<seq<Op>>, finish: nat -> bool)

  /** `j` args have been visited in pass `p`, and `op` and `prev` are the program's cursors. */
  ghost predicate Visiting(
      p: Pass, j: nat, op: int, prev: int, m: Mem, w: View<Place>, ring: seq<nat>, done: seq<seq<Op>>)
  {
    && Inv(p.mem, p.view, p.ring) && m.subs == p.mem.subs && m.slotOf == p.mem.slotOf
    && |done| == |p.done| == |p.mem.append|
    && Cursors(p, j, op, prev, ring) && PassedTo(p.mem, p.view, p.ring[..j], p.finish, p.done, w, done)
  }

  predicate Cursors(p: Pass, j: nat, op: int, prev: int, ring: seq<nat>)
  {
    && j <= |p.ring| && op == (if j < |p.ring| then p.ring[j] else -1)
    && var a := PassRing(p.view, p.ring[..j], p.finish);
    && ring == a + p.ring[j..] && prev == (if a == [] then -1 else Last(a))
  }

  lemma CursorsStart(p: Pass)
    ensures Cursors(p, 0, Head(p.ring), -1, p.ring)
  {
    assert p.ring[..0] == [] && p.ring[0..] == p.ring && [] + p.ring == p.ring;
  }

  lemma PassedStart(m: Mem, v: View<Place>, finish: nat -> bool, done: seq<seq<Op>>)
    ensures PassedTo(m, v, [], finish, done, v, done)
  {
    forall c: nat ensures PassedAt(m, v, [], finish, done, v, done, c) { }
  }

  lemma PassStart(p: Pass)
    requires Inv(p.mem, p.view, p.ring) && |p.done| == |p.mem.append|
    ensures Visiting(p, 0, p.mem.active, -1, p.mem, p.view, p.ring, p.done)
  {
    CursorsStart(p);
    PassedStart(p.mem, p.view, p.finish, p.done);
    assert p.ring[..0] == [];
  }

  lemma PassEnd(p: Pass, j: nat, prev: int, m: Mem, w: View<Place>, ring: seq<nat>, done: seq<seq<Op>>)
    requires Visiting(p, j, -1, prev, m, w, ring, done)
    ensures j == |p.ring| && ring == PassRing(p.view, p.ring, p.finish)
    ensures PassedTo(p.mem, p.view, p.ring, p.finish, p.done, w, done)
  {
    assert p.ring[..j] == p.ring && p.ring[j..] == [];
    assert PassRing(p.view, p.ring, p.finish) + [] == PassRing(p.view, p.ring, p.finish);
  }

  lemma CursorMoves(p: Pass, j: nat, a: seq<nat>, b: seq<nat>, prev: int)
    requires j < |p.ring| && p.ring[j] < |p.view.owner| && a == PassRing(p.view, p.ring[..j], p.finish)
    requires b == PassRing(p.view, p.ring[..j + 1], p.finish) && prev == if a == [] then -1 else Last(a)
    ensures b == a + PassOne(p.view, p.ring[j], p.finish)
    ensures (if b == [] then -1 else Last(b)) ==
      if PassOne(p.view, p.ring[j], p.finish) == [] then prev else PassOne(p.view, p.ring[j], p.finish)[0]
  {
    PassRingStep(p.view, p.ring, j, p.finish);
  }

  lemma FinishedCursors(p: Pass, j: nat, op: nat, prev: int, ring: seq<nat>, ring': seq<nat>, l: seq<nat>)
    requires Cursors(p, j, op, prev, ring) && p.finish(op) && op < |p.view.owner|
    requires l == p.view.lists(p.view.owner[op]) != []
    requires var k := |PassRing(p.view, p.ring[..j], p.finish)|;
      k < |ring| && ring' == if |l| == 1 then ring[..k] + ring[k + 1..] else ring[k := l[1]]
    ensures Cursors(p, j + 1, if j + 1 < |p.ring| then p.ring[j + 1] else -1, if 1 < |l| then l[1] else prev, ring')
  {
    var a := PassRing(p.view, p.ring[..j], p.finish);
    PassRingNext(p.view, p.ring, j, p.finish, a, ring', l);
    CursorMoves(p, j, a, PassRing(p.view, p.ring[..j + 1], p.finish), prev);
  }

  lemma FinishedStep(p: Pass, j: nat, op: nat, prev: int, m: Mem, w: View<Place>, ring: seq<nat>, done: seq<seq<Op>>,
                     m': Mem, w': View<Place>, ring': seq<nat>, done': seq<seq<Op>>)
    requires Visiting(p, j, op, prev, m, w, ring, done) && p.finish(op) && Owns(w) && op < |m.slotOf|
    requires |PassRing(p.view, p.ring[..j], p.finish)| < |ring|
    requires Removed(m, w, ring, done, op, |PassRing(p.view, p.ring[..j], p.finish)|, m', w', ring', done')
    ensures var l := w.lists(On(m.slotOf[op]));
      Visiting(p, j + 1, if j + 1 < |p.ring| then p.ring[j + 1] else -1, if 1 < |l| then l[1] else prev, m', w', ring',
        done')
  {
    var c := m.slotOf[op];
    PassHead(p.mem, p.view, p.ring, j, p.finish, p.done, w, done);
    PassRemoves(p.mem, p.view, p.ring, j, p.finish, p.done, w, done, w', done', c);
    FinishedCursors(p, j, op, prev, ring, ring', p.view.lists(On(c)));
  }

  lemma RunningReads(p: Pass, j: nat, op: nat, prev: int, m: Mem, w: View<Place>, ring: seq<nat>, done: seq<seq<Op>>)
    requires Visiting(p, j, op, prev, m, w, ring, done) && Inv(m, w, ring)
    ensures op < |m.next| == |m.running| && m.next[op] == if j + 1 < |p.ring| then p.ring[j + 1] else -1
  {
    NextInRing(m.next, ring, |PassRing(p.view, p.ring[..j], p.finish)|);
  }

  lemma RunningCursors(p: Pass, j: nat, op: nat, prev: int, ring: seq<nat>)
    requires Cursors(p, j, op, prev, ring) && !p.finish(op) && op < |p.view.owner|
    requires p.view.lists(p.view.owner[op]) != []
    ensures Cursors(p, j + 1, if j + 1 < |p.ring| then p.ring[j + 1] else -1, op, ring)
  {
    var a := PassRing(p.view, p.ring[..j], p.finish);
    PassRingNext(p.view, p.ring, j, p.finish, a, ring, p.view.lists(p.view.owner[op]));
    CursorMoves(p, j, a, PassRing(p.view, p.ring[..j + 1], p.finish), prev);
  }

  lemma RunningStep(
      p: Pass, j: nat, op: nat, prev: int, m: Mem, w: View<Place>, ring: seq<nat>, done: seq<seq<Op>>, m': Mem)
    requires Visiting(p, j, op, prev, m, w, ring, done) && !p.finish(op) && m'.subs == m.subs && m'.slotOf == m.slotOf
    ensures Visiting(p, j + 1, if j + 1 < |p.ring| then p.ring[j + 1] else -1, op, m', w, ring, done)
  {
    PassHead(p.mem, p.view, p.ring, j, p.finish, p.done, w, done);
    PassKeeps(p.mem, p.view, p.ring, j, p.finish, p.done, w, done);
    RunningCursors(p, j, op, prev, ring);
  }

  lemma RunningKeeps(m: Mem, v: View<Place>, ring: seq<nat>, given: seq<seq<Op>>, done: seq<seq<Op>>, m': Mem)
    requires Inv(m, v, ring) && OrderOk(m, v, given, done) && m' == m.(running := m'.running)
    requires |m'.running| == |m.running|
    ensures Inv(m', v, ring) && OrderOk(m', v, given, done)
  {
    forall j ensures SlotAt(m', v, j) { assert SlotAt(m, v, j); }
    forall c: nat ensures ChainAt(m', v, c) && OrderHolds(m', v, given, done, c) {
      assert ChainAt(m, v, c) && OrderHolds(m, v, given, done, c);
    }
  }

  class ProgressState {
    var mem: Mem
    ghost var view: View<Place>
    ghost var ring: seq<nat>
    ghost var given: seq<seq<Op>>
    ghost var done: seq<seq<Op>>

    ghost predicate Valid()
      reads this
    {
      Inv(mem, view, ring) && OrderOk(mem, view, given, done)
    }

    constructor (nslots: nat)
      ensures Valid() && |mem.append| == nslots && ring == [] && view.owner == [] && view.lists(Taken) == []
      ensures forall c :: 0 <= c < nslots ==> mem.append[c] == -1 && given[c] == []
    {
      mem := Mem([], [], [], [], [], [], [], seq(nslots, _ => -1), -1, -1);
      view := View(_ => [], []);
      ring := [];
      given := seq(nslots, _ => []);
      done := seq(nslots, _ => []);
    }

    /** The first half of allocateArgs: a new block of memory for an empty pool. */
    method NewPool()
      requires Valid() && view.lists(Free) == []
      modifies this
      ensures Valid() && view == Grown(old(view), Free, ALLOCATE_SIZE)
      ensures ring == old(ring) && given == old(given) && done == old(done)
      ensures Extended(old(mem), mem, |old(mem).next|)
    {
      var n := |mem.next|;
      var links := NewLinks(n);
      ghost var m, v := mem, view;
      mem := Mem(mem.next + links, mem.nextPeer + seq(ALLOCATE_SIZE, _ => -1), mem.slotOf + seq(ALLOCATE_SIZE, _ => 0),
                 mem.opCount + seq(ALLOCATE_SIZE, _ => 0), mem.kind + seq(ALLOCATE_SIZE, _ => 0),
                 mem.running + seq(ALLOCATE_SIZE, _ => false), mem.subs + seq(ALLOCATE_SIZE, _ => []),
                 mem.append, mem.active, n);
      view := Grown(v, Free, ALLOCATE_SIZE);
      GrowKeeps(m, v, ring, mem);
      OrderKept(m, v, given, done, mem, view);
    }

    /** The second half: takes the first args of the pool. */
    method TakeArgs() returns (e: nat)
      requires Valid() && view.lists(Taken) == [] && view.lists(Free) != []
      modifies this
      ensures Valid() && view.lists(Taken) == [e] && e < |mem.next| && mem.next[e] == -1 == mem.nextPeer[e]
      ensures ring == old(ring) && given == old(given) && done == old(done) && e == old(view).lists(Free)[0]
      ensures mem.append == old(mem).append && mem.active == old(mem).active
      ensures mem.subs == old(mem).subs && mem.opCount == old(mem).opCount
      ensures |view.owner| == |old(view).owner| && forall c: nat :: view.lists(On(c)) == old(view).lists(On(c))
    {
      ghost var m, v := mem, view;
      e := mem.pool;
      mem := mem.(pool := mem.next[e], next := mem.next[e := -1], nextPeer := mem.nextPeer[e := -1]);
      view := Moved(v, Move(Free, 1, Taken, false));
      TakeKeeps(m, v, ring, e, mem);
      TakenLists(v, e, view);
      OrderKept(m, v, given, done, mem, view);
    }

    /** allocateArgs: takes args from the pool, which is refilled with new memory when empty. */
    method AllocateArgs() returns (e: nat)
      requires Valid() && view.lists(Taken) == []
      modifies this
      ensures Valid() && view.lists(Taken) == [e] && e < |mem.next| && mem.next[e] == -1 == mem.nextPeer[e]
      ensures ring == old(ring) && given == old(given) && done == old(done)
      ensures mem.append == old(mem).append && mem.active == old(mem).active
      ensures old(mem).subs <= mem.subs && old(mem).opCount <= mem.opCount
      ensures forall c: nat :: view.lists(On(c)) == old(view).lists(On(c))
      ensures old(view.lists(Free)) != [] ==> e == old(view.lists(Free))[0] && |view.owner| == old(|view.owner|)
    {
      if mem.pool == -1 { NewPool(); }
      e := TakeArgs();
    }

    /** ncclProxyOpToArgs with subIndex 0. */
    method FillArgs(e: nat, op: Op)
      requires Valid() && view.lists(Taken) == [e]
      modifies this`mem
      ensures Valid() && e < |mem.next| && mem.slotOf[e] == op.slot && mem.subs[e] == [op]
      ensures mem.opCount[e] == op.opCount && mem.kind[e] == op.kind && !mem.running[e]
      ensures mem == old(mem).(slotOf := mem.slotOf, subs := mem.subs, opCount := mem.opCount, kind := mem.kind,
        running := mem.running)
      ensures mem.subs == old(mem).subs[e := [op]]
    {
      ghost var m := mem;
      TakenIndex(m, view, ring, e);
      mem := mem.(slotOf := mem.slotOf[e := op.slot], subs := mem.subs[e := [op]],
                  opCount := mem.opCount[e := op.opCount], kind := mem.kind[e := op.kind],
                  running := mem.running[e := false]);
      FillKeeps(m, view, ring, e, mem);
      FillOrder(m, view, given, done, e, mem);
    }

    /** The walk to the end of the active list. */
    method LastActive() returns (last: nat)
      requires Valid() && mem.active != -1
      ensures ring != [] && last == Last(ring)
    {
      last := mem.active;
      ghost var i: nat := 0;
      NextInRing(mem.next, ring, 0);
      while mem.next[last] != -1
        invariant i < |ring| && last == ring[i] && last < |mem.next|
        invariant mem.next[last] == if i + 1 < |ring| then ring[i + 1] else -1
        decreases |ring| - i
      {
        last := mem.next[last];
        i := i + 1;
        NextInRing(mem.next, ring, i);
      }
    }

    /** Args taken and filled become the first of an empty chain. */
    method LinkFirst(e: nat, c: nat)
      requires Valid() && view.lists(Taken) == [e] && e < |mem.next| && mem.next[e] == -1 == mem.nextPeer[e]
      requires c < |mem.append| && mem.append[c] == -1 && mem.slotOf[e] == c && mem.subs[e] != []
      modifies this
      ensures Valid() && old(view).lists(On(c)) == [] && view == Moved(old(view), Move(Taken, 1, On(c), false))
      ensures ring == old(ring) + [e] && done == old(done) && given == old(given)[c := old(given)[c] + old(mem).subs[e]]
      ensures mem.subs == old(mem).subs && mem.append == old(mem).append[c := e]
      ensures mem.opCount == old(mem).opCount && mem.kind == old(mem).kind && mem.running == old(mem).running
    {
      ghost var m, v, r, g := mem, view, ring, given;
      assert ChainAt(mem, view, c);
      var t := mem.(append := mem.append[c := e]);
      if mem.active == -1 {
        t := t.(active := e);
      } else {
        var last := LastActive();
        t := t.(next := t.next[last := e]);
      }
      mem := t;
      view := Moved(v, Move(Taken, 1, On(c), false));
      ring := r + [e];
      given := g[c := g[c] + m.subs[e]];
      LinkFirstKeeps(m, v, r, e, c, mem);
      JoinedLists(v, e, c, view);
      JoinOrder(m, v, g, done, e, c, mem, view);
    }

    /** Args taken and filled are linked behind the last ones of a chain. */
    method LinkNext(e: nat, c: nat, prev: nat)
      requires Valid() && view.lists(Taken) == [e] && e < |mem.next| && mem.next[e] == -1 == mem.nextPeer[e]
      requires c < |mem.append| && mem.append[c] == prev && mem.slotOf[e] == c && mem.subs[e] != []
      modifies this
      ensures Valid() && old(view).lists(On(c)) != [] && view == Moved(old(view), Move(Taken, 1, On(c), false))
      ensures ring == old(ring) && done == old(done) && given == old(given)[c := old(given)[c] + old(mem).subs[e]]
      ensures mem.subs == old(mem).subs && mem.append == old(mem).append[c := e]
      ensures mem.opCount == old(mem).opCount && mem.kind == old(mem).kind && mem.running == old(mem).running
    {
      ghost var m, v, g := mem, view, given;
      SlotIndex(m, v, ring, c);
      mem := mem.(nextPeer := mem.nextPeer[prev := e], append := mem.append[c := e]);
      view := Moved(v, Move(Taken, 1, On(c), false));
      given := g[c := g[c] + m.subs[e]];
      LinkNextKeeps(m, v, ring, e, c, prev, mem);
      JoinedLists(v, e, c, view);
      JoinOrder(m, v, g, done, e, c, mem, view);
    }

    /** ncclProxyOpToArgs with a later subIndex: the op becomes one more sub of args that are already queued. */
    method AddSub(args: nat, op: Op) returns (ok: bool)
      requires Valid() && op.slot < |mem.append| && mem.append[op.slot] == args
      modifies this`mem, this`given
      ensures Valid() && args < |mem.next| == |old(mem).subs| && mem.append == old(mem).append
      ensures if |old(mem).subs[args]| >= MAX_SUBS then !ok && mem == old(mem) && given == old(given)
              else ok == (mem.kind[args] == op.kind && !mem.running[args]) &&
                   mem == old(mem).(subs := old(mem).subs[args := old(mem).subs[args] + [op]]) &&
                   given == old(given)[op.slot := old(given)[op.slot] + [op]]
    {
      ghost var m, g := mem, given;
      SlotIndex(m, view, ring, op.slot);
      if |mem.subs[args]| >= MAX_SUBS {
        ok := false;
      } else {
        mem := mem.(subs := mem.subs[args := mem.subs[args] + [op]]);
        given := g[op.slot := g[op.slot] + [op]];
        ok := mem.kind[args] == op.kind && !mem.running[args];
        SubKeeps(m, view, ring, args, mem);
        SubOrder(m, view, g, done, op, args, mem);
      }
    }

    /** Args for the op, not yet linked. */
    method NewArgs(op: Op) returns (e: nat)
      requires Valid() && view.lists(Taken) == []
      modifies this
      ensures Valid() && view.lists(Taken) == [e] && e < |mem.next| && mem.next[e] == -1 == mem.nextPeer[e]
      ensures ring == old(ring) && given == old(given) && done == old(done) && mem.append == old(mem).append
      ensures mem.slotOf[e] == op.slot && mem.subs[e] == [op]
      ensures mem.opCount[e] == op.opCount && mem.kind[e] == op.kind && !mem.running[e]
      ensures forall c: nat :: view.lists(On(c)) == old(view).lists(On(c))
    {
      e := AllocateArgs();
      FillArgs(e, op);
    }

    /** New args at the end of the op's chain. */
    method AppendArgs(op: Op, args: int)
      requires Valid() && view.lists(Taken) == [] && op.slot < |mem.append| && args == mem.append[op.slot]
      modifies this
      ensures Valid() && view.lists(Taken) == [] && |mem.append| == |old(mem).append| && done == old(done)
      ensures given == old(given)[op.slot := old(given)[op.slot] + [op]]
      ensures forall d: nat :: d != op.slot ==> view.lists(On(d)) == old(view).lists(On(d))
      ensures old(view).lists(On(op.slot)) <= view.lists(On(op.slot))
      ensures |view.lists(On(op.slot))| == |old(view).lists(On(op.slot))| + 1
      ensures Queued(mem, op.slot, op.opCount, op.kind, [op])
      ensures ring == old(ring) + if old(view).lists(On(op.slot)) == [] then view.lists(On(op.slot)) else []
    {
      SlotIndex(mem, view, ring, op.slot);
      var e := NewArgs(op);
      ghost var v := view;
      if args != -1 { LinkNext(e, op.slot, args); } else { LinkFirst(e, op.slot); }
      JoinedLists(v, e, op.slot, view);
    }

    /**
     * ProxyAppend: `ok` is false exactly when aggregation with queued args is refused.  The op is
     * added to its slot all the same, unless there was no room.
     */
    method ProxyAppend(op: Op) returns (ok: bool)
      requires Valid() && view.lists(Taken) == [] && op.slot < |mem.append|
      modifies this
      ensures Valid() && view.lists(Taken) == [] && |mem.append| == |old(mem).append| && done == old(done)
      ensures ok <==> !Refuses(old(mem), op)
      ensures given ==
        if Overflows(old(mem), op) then old(given) else old(given)[op.slot := old(given)[op.slot] + [op]]
      ensures ok ==> var q := if Aggregates(old(mem), op) then old(mem).subs[old(mem).append[op.slot]] else [];
        Queued(mem, op.slot, op.opCount, op.kind, q + [op])
      ensures Overflows(old(mem), op) ==> mem == old(mem)
      ensures forall d: nat :: d != op.slot ==> view.lists(On(d)) == old(view).lists(On(d))
      ensures old(view).lists(On(op.slot)) <= view.lists(On(op.slot))
      ensures |view.lists(On(op.slot))| - |old(view).lists(On(op.slot))| == if Aggregates(old(mem), op) then 0 else 1
      ensures ring == old(ring) + if old(view).lists(On(op.slot)) == [] then view.lists(On(op.slot)) else []
    {
      var args := mem.append[op.slot];
      SlotIndex(mem, view, ring, op.slot);
      if args != -1 && op.shared && mem.opCount[args] == op.opCount {
        ok := AddSub(args, op);
      } else {
        AppendArgs(op, args);
        ok := true;
      }
    }

    /**
     * removeOp on the args at position `k` of the active list: they return to the pool, and the
     * next args of their chain, if any, take their place.  Returns the new values of the caller's
     * `op` and `prevOp`.
     */
    method RemoveOp(op: nat, prev: int, ghost k: nat) returns (op': int, prev': int)
      requires Valid() && k < |ring| && ring[k] == op && prev == if k == 0 then -1 else ring[k - 1]
      modifies this
      ensures Valid() && op < |old(mem).slotOf| && given == old(given)
      ensures Removed(old(mem), old(view), old(ring), old(done), op, k, mem, view, ring, done)
      ensures op' == if k + 1 < |old(ring)| then old(ring)[k + 1] else -1
      ensures var l := old(view).lists(On(old(mem).slotOf[op])); prev' == if 1 < |l| then l[1] else prev
    {
      ghost var m, v, r, f := mem, view, ring, done;
      RemovalReads(m, v, r, k);
      ghost var c := m.slotOf[op];
      mem, op', prev' := UnlinkArgs(mem, op, prev, ring, k);
      view := Moved(v, Move(On(c), 1, Free, true));
      ring := if m.nextPeer[op] != -1 then r[k := m.nextPeer[op]] else r[..k] + r[k + 1..];
      done := f[c := f[c] + m.subs[op]];
      RemovalDone(m, v, r, given, f, k, c, mem, view, ring, done);
    }

    /** One iteration of the pass, when the args `op` finish. */
    method VisitFinished(op: nat, prev: int, ghost p: Pass, ghost j: nat) returns (op': int, prev': int)
      requires Valid() && Visiting(p, j, op, prev, mem, view, ring, done) && p.finish(op)
      modifies this
      ensures Valid() && Visiting(p, j + 1, op', prev', mem, view, ring, done) && given == old(given)
      ensures view.lists(Taken) == old(view).lists(Taken) && |mem.append| == |old(mem).append|
      ensures mem.running == old(mem).running
    {
      ghost var k := |PassRing(p.view, p.ring[..j], p.finish)|;
      op', prev' := RemoveOp(op, prev, k);
      FinishedStep(p, j, op, prev, old(mem), old(view), old(ring), old(done), mem, view, ring, done);
    }

    /** One iteration of the pass, when the args `op` keep running. */
    method VisitRunning(op: nat, prev: int, ghost p: Pass, ghost j: nat) returns (op': int, prev': int)
      requires Valid() && Visiting(p, j, op, prev, mem, view, ring, done) && !p.finish(op)
      modifies this`mem
      ensures Valid() && Visiting(p, j + 1, op', prev', mem, view, ring, done) && given == old(given)
      ensures |mem.append| == |old(mem).append| && op < |old(mem).running|
      ensures mem.running == old(mem).running[op := true]
    {
      RunningReads(p, j, op, prev, mem, view, ring, done);
      mem := mem.(running := mem.running[op := true]);
      RunningKeeps(old(mem), view, ring, given, done, mem);
      prev' := op;
      op' := mem.next[op];
      RunningStep(p, j, op, prev, old(mem), view, ring, done, mem);
    }

    /** One iteration of the pass. */
    method Visit(op: nat, prev: int, finish: nat -> bool, ghost p: Pass, ghost j: nat) returns (op': int, prev': int)
      requires Valid() && Visiting(p, j, op, prev, mem, view, ring, done) && finish == p.finish
      modifies this
      ensures Valid() && Visiting(p, j + 1, op', prev', mem, view, ring, done) && given == old(given)
      ensures view.lists(Taken) == old(view).lists(Taken) && |mem.append| == |old(mem).append|
      ensures finish(op) ==> mem.running == old(mem).running
      ensures !finish(op) ==> op < |old(mem).running| && mem.running == old(mem).running[op := true]
    {
      if finish(op) {
        op', prev' := VisitFinished(op, prev, p, j);
      } else {
        op', prev' := VisitRunning(op, prev, p, j);
      }
    }

    /** The loop over the active list; `error(args)` is what the progress call returns, 0 for success. */
    method Sweep(finish: nat -> bool, error: nat -> int, ghost p: Pass) returns (ghost j: nat, prev: int, status: int)
      requires Valid() && Visiting(p, 0, mem.active, -1, mem, view, ring, done) && finish == p.finish
      modifies this
      ensures Valid() && Visiting(p, j, -1, prev, mem, view, ring, done) && given == old(given)
      ensures view.lists(Taken) == old(view).lists(Taken) && |mem.append| == |old(mem).append|
      ensures status == FirstError(p.ring, error) && Started(old(mem).running, mem.running, p.ring, p.finish)
    {
      status := 0;
      j := 0;
      var op;
      op, prev := mem.active, -1;
      while op != -1
        invariant Valid() && given == old(given)
        invariant view.lists(Taken) == old(view).lists(Taken) && |mem.append| == |old(mem).append|
        invariant Visiting(p, j, op, prev, mem, view, ring, done) && status == FirstError(p.ring[..j], error)
        invariant Started(old(mem).running, mem.running, p.ring[..j], p.finish)
        decreases |p.ring| - j
      {
        StatusStep(p, j, op, prev, ring, error);
        ghost var running := mem.running;
        if error(op) != 0 && status == 0 { status := error(op); }
        op, prev := Visit(op, prev, finish, p, j);
        StartedStep(old(mem).running, running, mem.running, p.ring, j, p.finish);
        j := j + 1;
      }
      StatusEnd(p, j, prev, ring);
    }

    /**
     * progressOps: visits the active list once.  `ended(args)` says whether the transport's
     * progress call completes these args and `error(args)` what it returns, 0 for success; args
     * leave the list in both cases.  The status is the first error.
     */
    method ProgressOps(ended: nat -> bool, error: nat -> int) returns (status: int)
      requires Valid()
      modifies this
      ensures Valid() && given == old(given) && ring == PassRing(old(view), old(ring), Leaves(ended, error))
      ensures PassedTo(old(mem), old(view), old(ring), Leaves(ended, error), old(done), view, done)
      ensures mem.subs == old(mem).subs && |done| == |old(done)|
      ensures view.lists(Taken) == old(view).lists(Taken) && |mem.append| == |old(mem).append|
      ensures status == FirstError(old(ring), error)
      ensures Started(old(mem).running, mem.running, old(ring), Leaves(ended, error))
    {
      var finish := Leaves(ended, error);
      ghost var p := Pass(mem, view, ring, done, finish);
      PassStart(p);
      ghost var j;
      var prev;
      j, prev, status := Sweep(finish, error, p);
      PassEnd(p, j, prev, mem, view, ring, done);
    }
  }

  /** The visited args that go on are running now; nothing else has changed. */
  ghost predicate Started(before: seq<bool>, after: seq<bool>, visited: seq<nat>, finish: nat -> bool)
  {
    |after| == |before| &&
    forall a: nat :: a < |before| ==> (after[a] <==> before[a] || (a in visited && !finish(a)))
  }

  lemma StartedStep(
      before: seq<bool>, running: seq<bool>, after: seq<bool>, ring: seq<nat>, j: nat, finish: nat -> bool)
    requires j < |ring| && Started(before, running, ring[..j], finish)
    requires finish(ring[j]) ==> after == running
    requires !finish(ring[j]) ==> ring[j] < |running| && after == running[ring[j] := true]
    ensures Started(before, after, ring[..j + 1], finish)
  {
    assert ring[..j + 1] == ring[..j] + [ring[j]];
  }

  lemma StatusStep(p: Pass, j: nat, op: int, prev: int, ring: seq<nat>, error: nat -> int)
    requires Cursors(p, j, op, prev, ring) && op != -1
    ensures j < |p.ring| && op == p.ring[j]
    ensures var before := FirstError(p.ring[..j], error);
      FirstError(p.ring[..j + 1], error) == if before != 0 then before else error(op)
  {
    assert p.ring[..j + 1][..j] == p.ring[..j];
  }

  lemma StatusEnd(p: Pass, j: nat, prev: int, ring: seq<nat>)
    requires Cursors(p, j, -1, prev, ring)
    ensures p.ring[..j] == p.ring
  {
  }

  function Leaves(ended: nat -> bool, error: nat -> int): nat -> bool
  {
    (args: nat) => ended(args) || error(args) != 0
  }

  /** The first error among the visited args, 0 if there is none. */
  function FirstError(visited: seq<nat>, error: nat -> int): int
  {
    if visited == [] then 0
    else
      var before := FirstError(visited[..|visited| - 1], error);
      if before != 0 then before else error(visited[|visited| - 1])
  }

  // ---------------------------------------------------------------- results

  lemma OldestFirst(subs: seq<seq<Op>>, l: seq<nat>, given: seq<Op>, done: seq<Op>)
    requires OrderAt(subs, l, given, done) && l != []
    ensures done + subs[l[0]] <= given
  {
    OrderPop(subs, l, given, done);
    assert given == (done + subs[l[0]]) + Flat(subs, l[1..]);
  }

  /**
   * The args of every slot are progressed in append order: whatever is in the active list is the
   * oldest unfinished args of its slot, holding exactly the next ops the slot was given.
   */
  lemma ProgressedInOrder(m: Mem, v: View<Place>, ring: seq<nat>, given: seq<seq<Op>>, done: seq<seq<Op>>, i: nat)
    requires Inv(m, v, ring) && OrderOk(m, v, given, done) && i < |ring|
    ensures ring[i] < |m.slotOf| == |m.subs| && m.slotOf[ring[i]] < |given| == |done|
    ensures var c := m.slotOf[ring[i]]; m.subs[ring[i]] != [] && done[c] + m.subs[ring[i]] <= given[c]
  {
    RemovingAt(m, v, ring, i);
    var c := m.slotOf[ring[i]];
    assert SlotAt(m, v, ring[i]) && RingFirst(v, ring, i) && OrderHolds(m, v, given, done, c);
    OldestFirst(m.subs, v.lists(On(c)), given[c], done[c]);
  }

  /** Pool, active list and the rest of the chains partition all args. */
  lemma ArgsPartition(m: Mem, v: View<Place>, ring: seq<nat>, j: nat)
    requires Inv(m, v, ring) && j < |m.next|
    ensures j in v.lists(v.owner[j]) && forall p :: p != v.owner[j] ==> j !in v.lists(p)
    ensures j in ring <==> First(v, j)
    ensures v.owner[j].On? ==> m.slotOf[j] < |m.append| && m.append[m.slotOf[j]] == Last(v.lists(v.owner[j]))
  {
    OwnedBy(v, v.owner[j], j);
    forall p: Place | p != v.owner[j] ensures j !in v.lists(p) { OwnedBy(v, p, j); }
    if j in ring {
      var i :| 0 <= i < |ring| && ring[i] == j;
      assert RingFirst(v, ring, i);
    }
    assert SlotAt(m, v, j);
    if v.owner[j].On? { assert Covered(v, ring, v.owner[j].slot) && ChainAt(m, v, v.owner[j].slot); }
  }
}

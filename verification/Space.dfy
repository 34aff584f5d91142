/**
 * The address-space allocator ncclSpace (nccl/src/allocator.cc).
 *
 * The whole state is an ascending array of cuts.  Each cut is a boundary between a
 * full and an empty segment of the non-negative line, and the segment after the last
 * cut is empty, so address `x` is occupied exactly when an odd number of cuts lie above it.
 */
module Space {
  import opened Arith

  datatype Option<+T> = None | Some(value: T)

  // ---------------------------------------------------------------- meaning of cuts

  /** Address `x` is occupied: an odd number of cuts is greater than `x`. */
  predicate Full(cuts: seq<int>, x: int)
  {
    cuts != [] && (cuts[|cuts| - 1] > x) != Full(cuts[..|cuts| - 1], x)
  }

  /** The form every operation leaves the array in: positive and strictly ascending. */
  predicate Canonical(cuts: seq<int>)
  {
    && (forall i :: 0 <= i < |cuts| ==> 0 < cuts[i])
    && (forall i, j :: 0 <= i < j < |cuts| ==> cuts[i] < cuts[j])
  }

  /** The unallocated frontier: everything from here on is empty. */
  function Frontier(cuts: seq<int>): int
  {
    if cuts == [] then 0 else cuts[|cuts| - 1]
  }

  /** Lower end of the segment that ends at cut `i` (or of the frontier segment). */
  function Lower(cuts: seq<int>, i: nat): int
    requires i <= |cuts|
  {
    if i == 0 then 0 else cuts[i - 1]
  }

  /** Upper end of that segment, where the frontier segment ends at the caller's limit. */
  function Upper(cuts: seq<int>, i: nat, limit: nat): int
    requires i <= |cuts|
  {
    if i == |cuts| then limit else cuts[i]
  }

  lemma FullAppend(s: seq<int>, c: int, x: int)
    ensures Full(s + [c], x) == ((c > x) != Full(s, x))
  {
    assert (s + [c])[..|s|] == s;
  }

  /** Inserting two cuts toggles exactly the addresses between them. */
  lemma {:induction false} FullInsertPair(a: seq<int>, lo: int, hi: int, b: seq<int>, x: int)
    requires lo <= hi
    ensures Full(a + [lo, hi] + b, x) == (Full(a + b, x) != (lo <= x < hi))
    decreases |b|
  {
    if b == [] {
      assert a + b == a;
      assert a + [lo, hi] + b == (a + [lo]) + [hi];
      FullAppend(a, lo, x);
      FullAppend(a + [lo], hi, x);
    } else {
      var c, b' := b[|b| - 1], b[..|b| - 1];
      assert a + [lo, hi] + b == (a + [lo, hi] + b') + [c];
      assert a + b == (a + b') + [c];
      FullInsertPair(a, lo, hi, b', x);
      FullAppend(a + [lo, hi] + b', c, x);
      FullAppend(a + b', c, x);
    }
  }

  /** Nothing is occupied at or above the last cut. */
  lemma {:induction false} EmptyAbove(s: seq<int>, x: int)
    requires forall i :: 0 <= i < |s| ==> s[i] <= x
    ensures !Full(s, x)
  {
    if s != [] {
      EmptyAbove(s[..|s| - 1], x);
    }
  }

  /** The parity rule of the source: the segment ending at cut `i` is full iff `i%2 != count%2`. */
  lemma {:induction false} SegmentParity(s: seq<int>, i: nat, x: int)
    requires Canonical(s) && i <= |s|
    requires Lower(s, i) <= x && (i < |s| ==> x < s[i])
    ensures Full(s, x) == (i % 2 != |s| % 2)
  {
    if i == |s| {
      EmptyAbove(s, x);
    } else {
      SegmentParity(s[..|s| - 1], i, x);
    }
  }

  /** Two canonical arrays that occupy the same addresses are the same array. */
  lemma {:induction false} CanonicalUnique(s: seq<int>, t: seq<int>)
    requires Canonical(s) && Canonical(t)
    requires forall x :: 0 <= x ==> Full(s, x) == Full(t, x)
    ensures s == t
    decreases |s|
  {
    if s == [] || t == [] || s[|s| - 1] != t[|t| - 1] {
      var x := (if Frontier(s) < Frontier(t) then Frontier(t) else Frontier(s)) - 1;
      if s != [] || t != [] {
        assert Full(s, x) == Full(t, x);
        LastCell(s, x);
        LastCell(t, x);
      }
    } else {
      var s', t' := s[..|s| - 1], t[..|t| - 1];
      forall x | 0 <= x ensures Full(s', x) == Full(t', x) {
        assert Full(s, x) == Full(t, x);
      }
      CanonicalUnique(s', t');
      assert s == s' + [s[|s| - 1]] && t == t' + [t[|t| - 1]];
    }
  }

  /** At or beyond the cell just below the last cut, only that cell is occupied. */
  lemma LastCell(s: seq<int>, x: int)
    requires Canonical(s) && Frontier(s) - 1 <= x
    ensures Full(s, x) == (s != [] && x == Frontier(s) - 1)
  {
    if s != [] {
      EmptyAbove(s[..|s| - 1], x);
    }
  }

  // ---------------------------------------------------------------- alignment and fitting

  /** `alignUp`: round up to a multiple of `a`. */
  function AlignUp(x: nat, a: nat): (r: nat)
    requires 0 < a
    ensures x <= r < x + a && r % a == 0
  {
    var q := (x + a - 1) / a;
    MultipleMod(q, a);
    assert x + a - 1 == a * q + (x + a - 1) % a;
    a * q
  }

  /** No multiple of `a` lies between `x` and its rounding. */
  lemma AlignUpLeast(x: nat, a: nat, m: nat)
    requires 0 < a && x <= m && m % a == 0
    ensures AlignUp(x, a) <= m
  {
    var r := AlignUp(x, a);
    if m < r { NoMultipleBetween(m, r, a); }
  }

  /** `[off, off+size)` is an aligned free interval that ends at or below `bound`. */
  ghost predicate Fits(cuts: seq<int>, off: int, size: nat, align: nat, bound: int)
    requires 0 < align
  {
    0 <= off && off % align == 0 && off + size <= bound &&
    forall x :: off <= x < off + size ==> !Full(cuts, x)
  }

  // ---------------------------------------------------------------- compaction

  predicate Ascending(s: seq<int>)
  {
    && (forall i :: 0 <= i < |s| ==> 0 <= s[i])
    && (forall i, j :: 0 <= i < j < |s| ==> s[i] <= s[j])
  }

  function DropLast(s: seq<int>): seq<int>
  {
    if s == [] then [] else s[..|s| - 1]
  }

  /**
   * The read cursor is at `r` and `done` has been written: it is canonical, means the same as
   * what was read, and `prev` is its last cut, or 0 when the next value must start a new pair.
   */
  ghost predicate Scanned(s: seq<int>, r: nat, done: seq<int>, prev: int)
  {
    && |done| <= r <= |s| && Canonical(done)
    && (forall m :: r <= m < |s| ==> Frontier(done) <= s[m])
    && (prev == 0 || (done != [] && prev == Frontier(done)))
    && (prev == 0 && done != [] ==> forall m :: r <= m < |s| ==> Frontier(done) < s[m])
    && (forall x :: 0 <= x ==> Full(done, x) == Full(s[..r], x))
  }

  /** Reading one more value toggles everything below it, in what was read and in what was written. */
  lemma ScanMeaning(s: seq<int>, r: nat, done: seq<int>, x: int)
    requires r < |s| && Full(done, x) == Full(s[..r], x)
    ensures Full(done + [s[r]], x) == Full(s[..r + 1], x)
  {
    assert s[..r + 1] == s[..r] + [s[r]];
    FullAppend(s[..r], s[r], x);
    FullAppend(done, s[r], x);
  }

  /** One turn of the compaction loop: anything but an equal pair is kept. */
  lemma ScanKeep(s: seq<int>, r: nat, done: seq<int>, prev: int)
    requires Ascending(s) && r < |s| && Scanned(s, r, done, prev) && prev != s[r]
    ensures Scanned(s, r + 1, done + [s[r]], s[r])
  {
    forall x | 0 <= x ensures Full(done + [s[r]], x) == Full(s[..r + 1], x) { ScanMeaning(s, r, done, x); }
    assert done != [] ==> Frontier(done) < s[r];
    assert 0 < s[r];
  }

  /** One turn of the compaction loop: an equal pair (or a zero) is dropped. */
  lemma ScanDrop(s: seq<int>, r: nat, done: seq<int>, prev: int)
    requires Ascending(s) && r < |s| && Scanned(s, r, done, prev) && prev == s[r]
    ensures Scanned(s, r + 1, DropLast(done), 0)
  {
    forall x | 0 <= x ensures Full(DropLast(done), x) == Full(s[..r + 1], x) {
      ScanMeaning(s, r, done, x);
      FullAppend(done, s[r], x);
    }
    assert DropLast(done) != [] ==> Frontier(DropLast(done)) < Frontier(done);
  }

  /** What the compaction loop writes from read position `r` on. */
  function Compacted(s: seq<int>, r: nat, done: seq<int>, prev: int): seq<int>
    requires r <= |s|
    decreases |s| - r
  {
    if r == |s| then done
    else if prev == s[r] then Compacted(s, r + 1, DropLast(done), 0)
    else Compacted(s, r + 1, done + [s[r]], s[r])
  }

  lemma {:induction false} CompactedMeaning(s: seq<int>, r: nat, done: seq<int>, prev: int)
    requires Ascending(s) && Scanned(s, r, done, prev)
    ensures var t := Compacted(s, r, done, prev);
            Canonical(t) && forall x :: 0 <= x ==> Full(t, x) == Full(s, x)
    decreases |s| - r
  {
    if r == |s| {
      assert s[..r] == s;
    } else {
      if prev == s[r] {
        ScanDrop(s, r, done, prev);
        CompactedMeaning(s, r + 1, DropLast(done), 0);
      } else {
        ScanKeep(s, r, done, prev);
        CompactedMeaning(s, r + 1, done + [s[r]], s[r]);
      }
    }
  }

  /** The array after `insertSegment`. */
  function Inserted(s: seq<int>, index: nat, lo: int, hi: int): seq<int>
    requires index <= |s|
  {
    Compacted(s[..index] + [lo, hi] + s[index..], index, s[..index], Lower(s, index))
  }

  /** `t` is canonical and differs from `s` exactly on `[lo, hi)`. */
  ghost predicate Toggled(s: seq<int>, lo: int, hi: int, t: seq<int>)
  {
    Canonical(t) && forall x :: 0 <= x ==> Full(t, x) == (Full(s, x) != (lo <= x < hi))
  }

  lemma GapScanned(s: seq<int>, index: nat, lo: int, hi: int)
    requires Canonical(s) && index <= |s|
    requires Lower(s, index) <= lo <= hi && (index < |s| ==> hi <= s[index])
    ensures var t := s[..index] + [lo, hi] + s[index..];
            Ascending(t) && Scanned(t, index, s[..index], Lower(s, index))
  {
    var t := s[..index] + [lo, hi] + s[index..];
    assert t[..index] == s[..index];
    forall i, j | 0 <= i < j < |t| ensures t[i] <= t[j] { GapOrder(s, index, lo, hi, t, i, j); }
    forall m | index <= m < |t| ensures Lower(s, index) <= t[m] { GapOrder(s, index, lo, hi, t, index, m); }
  }

  lemma GapOrder(s: seq<int>, index: nat, lo: int, hi: int, t: seq<int>, i: nat, j: nat)
    requires Canonical(s) && index <= |s| && t == s[..index] + [lo, hi] + s[index..] && i <= j < |t|
    requires Lower(s, index) <= lo <= hi && (index < |s| ==> hi <= s[index])
    ensures t[i] <= t[j]
  {
    assert t[i] == if i < index then s[i] else if i == index then lo else if i == index + 1 then hi else s[i - 2];
    assert t[j] == if j < index then s[j] else if j == index then lo else if j == index + 1 then hi else s[j - 2];
  }

  /** Inserting an interval inside one segment toggles exactly that interval. */
  lemma InsertedToggles(s: seq<int>, index: nat, lo: int, hi: int)
    requires Canonical(s) && index <= |s|
    requires Lower(s, index) <= lo <= hi && (index < |s| ==> hi <= s[index])
    ensures Toggled(s, lo, hi, Inserted(s, index, lo, hi))
  {
    var a, b := s[..index], s[index..];
    var t := a + [lo, hi] + b;
    GapScanned(s, index, lo, hi);
    CompactedMeaning(t, index, a, Lower(s, index));
    assert a + b == s;
    forall x | 0 <= x ensures Full(t, x) == (Full(s, x) != (lo <= x < hi)) {
      FullInsertPair(a, lo, hi, b, x);
    }
  }

  lemma FillGap(s: seq<int>, t: seq<int>, index: nat, lo: int, hi: int)
    requires index <= |s| && |t| == |s| + 2 && t[..index] == s[..index] && t[index + 2..] == s[index..]
    ensures t[index := lo][index + 1 := hi] == s[..index] + [lo, hi] + s[index..]
  {
    var u := t[index := lo][index + 1 := hi];
    assert u[..index] == s[..index] && u[index..index + 2] == [lo, hi] && u[index + 2..] == s[index..];
    assert u == u[..index] + u[index..index + 2] + u[index + 2..];
  }

  /** One iteration of the compaction loop: the new write cursor and previous cut. */
  method CompactOne(cuts: array<int>, count: nat, r: nat, w: nat, prev: int) returns (w': nat, prev': int)
    requires w <= r < count <= cuts.Length
    modifies cuts
    ensures w' <= r + 1 && cuts[r + 1..count] == old(cuts[r..count])[1..]
    ensures cuts[..w'] == if prev == old(cuts[r]) then DropLast(old(cuts[..w])) else old(cuts[..w]) + [old(cuts[r])]
    ensures prev' == if prev == old(cuts[r]) then 0 else old(cuts[r])
  {
    var cur := cuts[r];
    cuts[w] := cur;
    w' := w + 1;
    if prev == cur {
      w' := w' - (if w' == 1 then 1 else 2);
      cur := 0;
    }
    prev' := cur;
  }

  /** Copy `src` into `dst`, leaving two free places before `index`. */
  method CopyAround(src: array<int>, dst: array<int>, n: nat, index: nat)
    requires src != dst && index <= n <= src.Length && n + 2 <= dst.Length
    modifies dst
    ensures dst[..index] == src[..index] && dst[index + 2..n + 2] == src[index..n]
  {
    for i := 0 to index
      invariant dst[..i] == src[..i]
    {
      dst[i] := src[i];
    }
    for i := index to n
      invariant dst[..index] == src[..index]
      invariant dst[index + 2..i + 2] == src[index..i]
    {
      dst[i + 2] := src[i];
    }
  }

  /** Move everything from `index` on two places up, from the top. */
  method ShiftUp(a: array<int>, n: nat, index: nat)
    requires index <= n && n + 2 <= a.Length
    modifies a
    ensures a[..index] == old(a[..index]) && a[index + 2..n + 2] == old(a[index..n])
  {
    var i := n - 1;
    while index <= i
      invariant index - 1 <= i < n
      invariant forall k :: 0 <= k <= i ==> a[k] == old(a[k])
      invariant forall k :: i + 2 < k < n + 2 ==> a[k] == old(a[k - 2])
    {
      a[i + 2] := a[i];
      i := i - 1;
    }
  }

  // ---------------------------------------------------------------- the data structure

  class AddressSpace {
    var cuts: array<int>
    var count: nat
    var capacity: nat

    ghost predicate Sized()
      reads this
    {
      count <= capacity == cuts.Length && (capacity == 0 || 16 <= capacity)
    }

    ghost predicate Valid()
      reads this, cuts
    {
      Sized() && Canonical(cuts[..count])
    }

    /** The abstract value: the live part of the array. */
    ghost function Cuts(): seq<int>
      requires count <= cuts.Length
      reads this, cuts
    {
      cuts[..count]
    }

    constructor ()
      ensures Valid() && fresh(cuts) && Cuts() == []
    {
      cuts := new int[0];
      count, capacity := 0, 0;
    }

    /** Two free places before `index`, in the same array or in a larger one. */
    method MakeRoom(index: nat)
      requires Sized() && index <= count
      modifies this`capacity, this`cuts, cuts
      ensures Sized() && count + 2 <= capacity && (cuts == old(cuts) || fresh(cuts))
      ensures capacity ==
        if count + 2 <= old(capacity) then old(capacity) else if old(capacity) == 0 then 16 else 2 * old(capacity)
      ensures cuts[..index] == old(cuts[..index]) && cuts[index + 2..count + 2] == old(cuts[index..count])
    {
      if count + 2 > capacity {
        capacity := capacity * 2;
        if capacity == 0 { capacity := 16; }
        var cuts1 := new int[capacity];
        CopyAround(cuts, cuts1, count, index);
        cuts := cuts1;
      } else {
        ShiftUp(cuts, count, index);
      }
    }

    /** First half of `insertSegment`: make room before `index`, growing the array if needed. */
    method OpenGap(index: nat, lo: int, hi: int)
      requires Sized() && index <= count
      modifies this, cuts
      ensures Sized() && (cuts == old(cuts) || fresh(cuts))
      ensures Cuts() == old(Cuts()[..index] + [lo, hi] + Cuts()[index..])
    {
      ghost var s := Cuts();
      MakeRoom(index);
      ghost var t := cuts[..count + 2];
      assert t[..index] == cuts[..index] && t[index + 2..] == cuts[index + 2..count + 2];
      FillGap(s, t, index, lo, hi);
      cuts[index] := lo;
      cuts[index + 1] := hi;
      count := count + 2;
      assert Cuts() == t[index := lo][index + 1 := hi];
    }

    /** Second half of `insertSegment`: drop equal pairs and zeros in place, from `index` on. */
    method Compact(index: nat)
      requires Sized() && index <= count
      modifies this`count, cuts
      ensures Sized() && count <= old(count)
      ensures Cuts() == old(Compacted(Cuts(), index, Cuts()[..index], Lower(Cuts(), index)))
    {
      ghost var s := Cuts();
      var r: nat, w: nat := index, index;
      var prev := if r == 0 then 0 else cuts[r - 1];
      assert cuts[..w] == s[..r];
      while r < count
        modifies cuts
        invariant w <= r <= count
        invariant cuts[r..count] == s[r..]
        invariant Compacted(s, r, cuts[..w], prev) == Compacted(s, index, s[..index], Lower(s, index))
      {
        assert cuts[r] == s[r] by { assert cuts[r..count][0] == s[r..][0]; }
        assert s[r..][1..] == s[r + 1..];
        w, prev := CompactOne(cuts, count, r, w, prev);
        r := r + 1;
      }
      count := w;
    }

    /** `insertSegment`. */
    method InsertSegment(index: nat, lo: int, hi: int)
      requires Sized() && index <= count
      modifies this, cuts
      ensures Sized() && (cuts == old(cuts) || fresh(cuts))
      ensures Cuts() == old(Inserted(Cuts(), index, lo, hi))
    {
      ghost var s := Cuts();
      OpenGap(index, lo, hi);
      assert Cuts()[..index] == s[..index];
      Compact(index);
    }

    /** The search of `ncclSpaceAlloc`: the first empty segment that holds an aligned block. */
    method FindSegment(limit: nat, size: nat, align: nat) returns (found: bool, i: nat, off: nat)
      requires Valid() && 0 < align
      ensures found ==> FirstFit(Cuts(), i, limit, size, align, off)
      ensures !found && 0 < size ==> NoFit(Cuts(), limit, size, align)
    {
      ghost var s := Cuts();
      i, off := count % 2, 0;
      PassedStart(s, limit, size, align);
      while i <= count
        invariant i % 2 == count % 2
        invariant Passed(s, i, limit, size, align)
      {
        var lo: nat := if i == 0 then 0 else cuts[i - 1];
        var hi := if i == count then limit else cuts[i];
        off := AlignUp(lo, align);
        SearchStep(s, i, limit, size, align, off);
        if off + size <= hi {
          return true, i, off;
        }
        i := i + 2;
      }
      PassedAll(s, i, limit, size, align);
      found := false;
    }

    /**
     * `ncclSpaceAlloc`.  `lo` and `hi` name the empty segment that was chosen and `start` where
     * the newly full range begins: the fast path also marks the alignment padding as full.
     */
    method Alloc(limit: nat, size: nat, align: nat)
      returns (r: Option<nat>, ghost lo: int, ghost hi: int, ghost start: int)
      requires Valid() && 0 < align
      modifies this, cuts
      ensures Valid() && (cuts == old(cuts) || fresh(cuts))
      ensures r.None? ==> Cuts() == old(Cuts()) && (0 < size ==> NoFit(old(Cuts()), limit, size, align))
      ensures r.Some? ==>
        && Chosen(old(Cuts()), limit, size, align, r.value, lo, hi)
        && start == (if r.value + size == hi then r.value else lo)
        && Occupied(old(Cuts()), start, r.value + size, Cuts())
    {
      ghost var s := Cuts();
      var found, i, off := FindSegment(limit, size, align);
      if !found {
        return None, 0, 0, 0;
      }
      lo, hi := Lower(s, i), Upper(s, i, limit);
      start := if off + size == hi then off else lo;
      AllocMarks(s, i, limit, off, size);
      Mark(i, limit, off, size);
      r := Some(off);
    }

    /** The two ways `ncclSpaceAlloc` records a block in empty segment `i`. */
    method Mark(i: nat, limit: nat, off: nat, size: nat)
      requires Sized() && i <= count
      modifies this, cuts
      ensures Sized() && (cuts == old(cuts) || fresh(cuts))
      ensures Cuts() == old(Marked(Cuts(), i, limit, off, size))
    {
      ghost var s := Cuts();
      if i == 0 || off + size == (if i == count then limit else cuts[i]) {
        InsertSegment(i, off, off + size);
      } else {
        cuts[i - 1] := off + size;
        assert Cuts() == s[i - 1 := off + size];
      }
    }

    /** The search of `ncclSpaceFree`: the first full segment that ends above `offset`. */
    method FindFull(offset: int) returns (found: bool, i: nat)
      requires Valid()
      ensures found ==> i < count && i % 2 != count % 2
      ensures found ==> offset < Cuts()[i] && (2 <= i ==> Cuts()[i - 2] <= offset)
      ensures !found ==> !Full(Cuts(), offset)
    {
      if count == 0 || cuts[count - 1] <= offset {
        EmptyAbove(Cuts(), offset);
        return false, 0;
      }
      i := 1 - count % 2;
      while cuts[i] <= offset
        invariant i < count && i % 2 != count % 2
        invariant 2 <= i ==> cuts[i - 2] <= offset
        decreases count - i
      {
        i := i + 2;
      }
      found := true;
    }

    /** The three ways `ncclSpaceFree` takes an interval out of full segment `i`. */
    method Unmark(i: nat, offset: int, size: nat)
      requires Sized() && i < count
      modifies this, cuts
      ensures Sized() && (cuts == old(cuts) || fresh(cuts))
      ensures Cuts() == old(Unmarked(Cuts(), i, offset, size))
    {
      ghost var s := Cuts();
      var lo := if i == 0 then 0 else cuts[i - 1];
      var hi := cuts[i];
      if i != 0 && lo == offset && offset + size != hi {
        cuts[i - 1] := offset + size;
        assert Cuts() == s[i - 1 := offset + size];
      } else if lo != offset && offset + size == hi {
        cuts[i] := offset;
        assert Cuts() == s[i := offset];
      } else {
        InsertSegment(i, offset, offset + size);
      }
    }

    /** `ncclSpaceFree`: succeeds iff the interval lies wholly in occupied space. */
    method Free(offset: int, size: nat) returns (ok: bool)
      requires Valid()
      modifies this, cuts
      ensures Valid() && (cuts == old(cuts) || fresh(cuts))
      ensures ok <==> WhollyFull(old(Cuts()), offset, size)
      ensures !ok ==> Cuts() == old(Cuts())
      ensures ok ==> Released(old(Cuts()), offset, offset + size, Cuts())
    {
      var found, i := FindFull(offset);
      if !found {
        NotWhollyFull(Cuts(), offset, size);
        return false;
      }
      FreeTest(Cuts(), i, offset, size);
      if offset < (if i == 0 then 0 else cuts[i - 1]) || cuts[i] < offset + size {
        return false;
      }
      FreeUnmarks(Cuts(), i, offset, size);
      Unmark(i, offset, size);
      ok := true;
    }
  }

  /** `t` is canonical and occupies `[lo, hi)` in addition to what `s` occupies. */
  ghost predicate Occupied(s: seq<int>, lo: int, hi: int, t: seq<int>)
  {
    Canonical(t) && forall x :: 0 <= x ==> Full(t, x) == (Full(s, x) || lo <= x < hi)
  }

  /** `t` is canonical and occupies what `s` occupies outside `[lo, hi)`. */
  ghost predicate Released(s: seq<int>, lo: int, hi: int, t: seq<int>)
  {
    Canonical(t) && forall x :: 0 <= x ==> Full(t, x) == (Full(s, x) && !(lo <= x < hi))
  }

  ghost predicate WhollyFull(s: seq<int>, offset: int, size: nat)
  {
    0 <= offset && forall x :: offset <= x < offset + Max(size, 1) ==> Full(s, x)
  }

  ghost predicate NoFit(s: seq<int>, limit: nat, size: nat, align: nat)
    requires 0 < align
  {
    forall o :: !Fits(s, o, size, align, Max(limit, Frontier(s)))
  }

  /** No offset that fits lies below empty segment `i`, where the search now stands. */
  ghost predicate Passed(s: seq<int>, i: nat, limit: nat, size: nat, align: nat)
    requires 0 < align
  {
    0 < size ==> forall o :: Fits(s, o, size, align, Max(limit, Frontier(s))) ==> i <= |s| && Lower(s, i) <= o
  }

  lemma PassedAll(s: seq<int>, i: nat, limit: nat, size: nat, align: nat)
    requires 0 < align && |s| < i && Passed(s, i, limit, size, align)
    ensures 0 < size ==> NoFit(s, limit, size, align)
  {
  }

  lemma PassedStart(s: seq<int>, limit: nat, size: nat, align: nat)
    requires Canonical(s) && 0 < align
    ensures Passed(s, |s| % 2, limit, size, align)
  {
    forall o | 0 < size && Fits(s, o, size, align, Max(limit, Frontier(s))) ensures Lower(s, |s| % 2) <= o {
      assert !Full(s, o);
      if |s| % 2 == 1 && o < s[0] { SegmentParity(s, 0, o); }
    }
  }

  /**
   * `off` is an aligned offset in the empty segment `[lo, hi)`; for a non-empty request it is
   * the least offset that fits anywhere, and the gap above the segment start is below `align`.
   */
  ghost predicate Chosen(s: seq<int>, limit: nat, size: nat, align: nat, off: int, lo: int, hi: int)
    requires 0 < align
  {
    && Fits(s, off, size, align, Max(limit, Frontier(s)))
    && (0 < size ==> forall o :: Fits(s, o, size, align, Max(limit, Frontier(s))) ==> off <= o)
    && 0 <= lo <= off < lo + align && off + size <= hi
    && (lo == 0 || lo in s)
    && (forall x :: lo <= x < hi ==> !Full(s, x))
  }

  /** The search stops at empty segment `i` with offset `off`. */
  ghost predicate FirstFit(s: seq<int>, i: nat, limit: nat, size: nat, align: nat, off: nat)
    requires 0 < align
  {
    && i <= |s| && i % 2 == |s| % 2 && (i == 0 ==> off == 0)
    && Lower(s, i) <= off && off + size <= Upper(s, i, limit)
    && Chosen(s, limit, size, align, off, Lower(s, i), Upper(s, i, limit))
  }

  lemma ChosenHere(s: seq<int>, i: nat, limit: nat, size: nat, align: nat)
    requires Canonical(s) && i <= |s| && i % 2 == |s| % 2 && 0 < align
    requires Passed(s, i, limit, size, align)
    requires AlignUp(Lower(s, i), align) + size <= Upper(s, i, limit)
    ensures FirstFit(s, i, limit, size, align, AlignUp(Lower(s, i), align))
  {
    var lo, hi := Lower(s, i), Upper(s, i, limit);
    forall x | lo <= x < hi ensures !Full(s, x) { SegmentParity(s, i, x); }
    assert i < |s| ==> s[i] <= Frontier(s);
    if 0 < size {
      forall o | Fits(s, o, size, align, Max(limit, Frontier(s))) ensures AlignUp(lo, align) <= o {
        AlignUpLeast(lo, align, o);
      }
    }
    if i == 0 { AlignUpLeast(0, align, 0); }
  }

  function Marked(s: seq<int>, i: nat, limit: nat, off: nat, size: nat): seq<int>
    requires i <= |s|
  {
    if i == 0 || off + size == Upper(s, i, limit) then Inserted(s, i, off, off + size)
    else s[i - 1 := off + size]
  }

  lemma AllocMarks(s: seq<int>, i: nat, limit: nat, off: nat, size: nat)
    requires Canonical(s) && i <= |s| && i % 2 == |s| % 2
    requires Lower(s, i) <= off && off + size <= Upper(s, i, limit) && (i == 0 ==> off == 0)
    ensures Occupied(s, if off + size == Upper(s, i, limit) then off else Lower(s, i), off + size,
                     Marked(s, i, limit, off, size))
  {
    if i == 0 || off + size == Upper(s, i, limit) {
      AllocInserts(s, i, off, off + size);
    } else {
      AllocRaises(s, i, off + size);
    }
  }

  /** Slow path of alloc: an interval inserted in an empty segment becomes occupied. */
  lemma AllocInserts(s: seq<int>, i: nat, lo: int, hi: int)
    requires Canonical(s) && i <= |s| && i % 2 == |s| % 2
    requires Lower(s, i) <= lo <= hi && (i < |s| ==> hi <= s[i])
    ensures Occupied(s, lo, hi, Inserted(s, i, lo, hi))
  {
    InsertedToggles(s, i, lo, hi);
    forall x | lo <= x < hi ensures !Full(s, x) { SegmentParity(s, i, x); }
  }

  /** Fast path of alloc: raising the cut below an empty segment occupies the bottom of it. */
  lemma AllocRaises(s: seq<int>, i: nat, c: int)
    requires Canonical(s) && 0 < i <= |s| && i % 2 == |s| % 2
    requires s[i - 1] <= c && (i < |s| ==> c < s[i])
    ensures Occupied(s, s[i - 1], c, s[i - 1 := c])
  {
    RaiseCut(s, i, c);
    forall x | s[i - 1] <= x < c ensures !Full(s, x) { SegmentParity(s, i, x); }
  }

  function Unmarked(s: seq<int>, i: nat, offset: int, size: nat): seq<int>
    requires i < |s|
  {
    if i != 0 && Lower(s, i) == offset && offset + size != s[i] then s[i - 1 := offset + size]
    else if Lower(s, i) != offset && offset + size == s[i] then s[i := offset]
    else Inserted(s, i, offset, offset + size)
  }

  lemma FreeUnmarks(s: seq<int>, i: nat, offset: int, size: nat)
    requires Canonical(s) && i < |s| && i % 2 != |s| % 2
    requires Lower(s, i) <= offset && offset + size <= s[i]
    ensures Released(s, offset, offset + size, Unmarked(s, i, offset, size))
  {
    if i != 0 && Lower(s, i) == offset && offset + size != s[i] {
      FreeRaises(s, i, offset + size);
    } else if Lower(s, i) != offset && offset + size == s[i] {
      FreeLowers(s, i, offset);
    } else {
      FreeInserts(s, i, offset, offset + size);
    }
  }

  lemma FreeInserts(s: seq<int>, i: nat, lo: int, hi: int)
    requires Canonical(s) && i < |s| && i % 2 != |s| % 2
    requires Lower(s, i) <= lo <= hi <= s[i]
    ensures Released(s, lo, hi, Inserted(s, i, lo, hi))
  {
    InsertedToggles(s, i, lo, hi);
    forall x | lo <= x < hi ensures Full(s, x) { SegmentParity(s, i, x); }
  }

  lemma FreeRaises(s: seq<int>, i: nat, c: int)
    requires Canonical(s) && 0 < i < |s| && i % 2 != |s| % 2
    requires s[i - 1] <= c < s[i]
    ensures Released(s, s[i - 1], c, s[i - 1 := c])
  {
    RaiseCut(s, i, c);
    forall x | s[i - 1] <= x < c ensures Full(s, x) { SegmentParity(s, i, x); }
  }

  lemma FreeLowers(s: seq<int>, i: nat, c: int)
    requires Canonical(s) && i < |s| && i % 2 != |s| % 2
    requires Lower(s, i) < c <= s[i]
    ensures Released(s, c, s[i], s[i := c])
  {
    LowerCut(s, i, c);
    forall x | c <= x < s[i] ensures Full(s, x) { SegmentParity(s, i, x); }
  }

  lemma NotWhollyFull(s: seq<int>, offset: int, size: nat)
    requires !Full(s, offset)
    ensures !WhollyFull(s, offset, size)
  {
  }

  /** The range test of `ncclSpaceFree` decides whether the interval is wholly occupied. */
  lemma FreeTest(s: seq<int>, i: nat, offset: int, size: nat)
    requires Canonical(s) && i < |s| && i % 2 != |s| % 2
    requires offset < s[i] && (2 <= i ==> s[i - 2] <= offset)
    ensures WhollyFull(s, offset, size) <==> Lower(s, i) <= offset && offset + size <= s[i]
  {
    if Lower(s, i) <= offset && offset + size <= s[i] {
      forall x | Lower(s, i) <= x < s[i] ensures Full(s, x) { SegmentParity(s, i, x); }
    } else if 0 <= offset < Lower(s, i) {
      SegmentParity(s, i - 1, offset);
    } else if s[i] < offset + size {
      SegmentParity(s, i + 1, s[i]);
    }
  }

  /** Moving the cut below segment `i` up to `c` toggles `[old cut, c)`. */
  lemma RaiseCut(s: seq<int>, i: nat, c: int)
    requires Canonical(s) && 0 < i <= |s|
    requires s[i - 1] <= c && (i < |s| ==> c < s[i])
    ensures Toggled(s, s[i - 1], c, s[i - 1 := c])
  {
    forall x ensures Full(s[i - 1 := c], x) == (Full(s, x) != (s[i - 1] <= x < c)) {
      FullReplace(s, i - 1, c, x);
    }
  }

  /** Moving the cut above segment `i` down to `c` toggles `[c, old cut)`. */
  lemma LowerCut(s: seq<int>, i: nat, c: int)
    requires Canonical(s) && i < |s|
    requires Lower(s, i) < c <= s[i]
    ensures Toggled(s, c, s[i], s[i := c])
  {
    forall x ensures Full(s[i := c], x) == (Full(s, x) != (c <= x < s[i])) {
      FullReplace(s, i, c, x);
    }
  }

  lemma {:induction false} FullReplace(s: seq<int>, i: nat, c: int, x: int)
    requires i < |s|
    ensures Full(s[i := c], x) == (Full(s, x) != ((c > x) != (s[i] > x)))
  {
    var n := |s| - 1;
    if i == n {
      assert s[i := c][..n] == s[..n];
    } else {
      assert s[i := c][..n] == s[..n][i := c];
      FullReplace(s[..n], i, c, x);
    }
  }

  /** A free interval that begins in or behind empty segment `i` but does not end in it lies behind it. */
  lemma BeyondSegment(s: seq<int>, i: nat, limit: nat, size: nat, o: int)
    requires Canonical(s) && i <= |s| && i % 2 == |s| % 2 && 0 < size && Lower(s, i) <= o
    requires o + size <= Max(limit, Frontier(s)) && Upper(s, i, limit) < o + size
    requires forall x :: o <= x < o + size ==> !Full(s, x)
    ensures i + 2 <= |s| && s[i + 1] <= o
  {
    assert i < |s|;
    assert !Full(s, o);
    if o < s[i] {
      SegmentParity(s, i + 1, s[i]);
    } else if o < s[i + 1] {
      SegmentParity(s, i + 1, o);
    }
  }

  /** If the aligned block does not fit in empty segment `i`, no fitting offset lies in or before it. */
  lemma SkipSegment(s: seq<int>, i: nat, limit: nat, size: nat, align: nat)
    requires Canonical(s) && i <= |s| && i % 2 == |s| % 2 && 0 < align
    requires Passed(s, i, limit, size, align)
    requires Upper(s, i, limit) < AlignUp(Lower(s, i), align) + size
    ensures Passed(s, i + 2, limit, size, align)
  {
    forall o | 0 < size && Fits(s, o, size, align, Max(limit, Frontier(s)))
      ensures i + 2 <= |s| && s[i + 1] <= o
    {
      AlignUpLeast(Lower(s, i), align, o);
      BeyondSegment(s, i, limit, size, o);
    }
  }

  /** One turn of the search: the segment is taken if the aligned block fits, else it is passed. */
  lemma SearchStep(s: seq<int>, i: nat, limit: nat, size: nat, align: nat, off: nat)
    requires Canonical(s) && i <= |s| && i % 2 == |s| % 2 && 0 < align
    requires Passed(s, i, limit, size, align) && off == AlignUp(Lower(s, i), align)
    ensures if off + size <= Upper(s, i, limit) then FirstFit(s, i, limit, size, align, off)
            else Passed(s, i + 2, limit, size, align)
  {
    if off + size <= Upper(s, i, limit) {
      ChosenHere(s, i, limit, size, align);
    } else {
      SkipSegment(s, i, limit, size, align);
    }
  }

  // ---------------------------------------------------------------- consequences for callers

  /**
   * Inner holes are not tested against `limit`, so a first-fit block can end above it.
   * It does exactly when nothing fits below the limit but something fits below the frontier.
   */
  lemma LimitExceededIff(s: seq<int>, off: int, limit: nat, size: nat, align: nat)
    requires Canonical(s) && 0 < size && 0 < align
    requires Fits(s, off, size, align, Max(limit, Frontier(s)))
    requires forall o :: Fits(s, o, size, align, Max(limit, Frontier(s))) ==> off <= o
    ensures limit < off + size <==>
              && (forall o :: !Fits(s, o, size, align, limit))
              && (exists o :: Fits(s, o, size, align, Frontier(s)))
  {
    if off + size <= limit {
      assert Fits(s, off, size, align, limit);
    } else {
      assert Fits(s, off, size, align, Frontier(s));
      forall o ensures !Fits(s, o, size, align, limit) {
        if Fits(s, o, size, align, limit) {
          assert Fits(s, o, size, align, Max(limit, Frontier(s)));
        }
      }
    }
  }

  /** A concrete violation: blocks at [0,4) and [8,12) are live and a request comes with limit 5. */
  lemma LimitExceededExample()
    ensures var s := [4, 8, 12];
            Canonical(s) && Fits(s, 4, 2, 1, Max(5, Frontier(s))) &&
            (forall o :: Fits(s, o, 2, 1, Max(5, Frontier(s))) ==> 4 <= o) && 5 < 4 + 2
  {
    var s := [4, 8, 12];
    forall x | 0 <= x < 4 ensures Full(s, x) { SegmentParity(s, 0, x); }
    forall x | 4 <= x < 8 ensures !Full(s, x) { SegmentParity(s, 1, x); }
    forall o | Fits(s, o, 2, 1, Max(5, Frontier(s))) ensures 4 <= o {
      assert !Full(s, o);
    }
  }

  // ---------------------------------------------------------------- whole runs

  datatype Block = Block(off: int, size: nat)

  predicate Inside(b: Block, x: int) { b.off <= x < b.off + b.size }

  predicate Apart(a: Block, b: Block)
  {
    a.off + a.size <= b.off || b.off + b.size <= a.off
  }

  /**
   * What one successful `Alloc` does to the cuts: `lo` is where the empty segment begins and
   * `start` where the newly full range begins.
   */
  ghost predicate AllocStep(s: seq<int>, b: Block, align: nat, limit: nat, lo: int, start: int, s': seq<int>)
    requires 0 < align
  {
    && 0 < b.size && Fits(s, b.off, b.size, align, Max(limit, Frontier(s)))
    && 0 <= lo <= b.off < lo + align && (lo == 0 || lo in s) && (start == lo || start == b.off)
    && (forall x :: start <= x < b.off ==> !Full(s, x))
    && Canonical(s')
    && (forall x :: 0 <= x ==> Full(s', x) == (Full(s, x) || start <= x < b.off + b.size))
  }

  /** What one successful `Free` does to the cuts. */
  ghost predicate FreeStep(s: seq<int>, b: Block, s': seq<int>)
  {
    && Canonical(s')
    && (forall x :: 0 <= x ==> Full(s', x) == (Full(s, x) && !Inside(b, x)))
  }

  /** The contract of `AddressSpace.Alloc` for a non-empty request is one `AllocStep`. */
  lemma AllocIsStep(
      s: seq<int>, limit: nat, size: nat, align: nat, off: int, lo: int, hi: int, start: int, s': seq<int>)
    requires 0 < align && 0 < size && Canonical(s)
    requires Chosen(s, limit, size, align, off, lo, hi)
    requires start == (if off + size == hi then off else lo) && Occupied(s, start, off + size, s')
    ensures AllocStep(s, Block(off, size), align, limit, lo, start, s')
  {
  }

  /** The allocator together with the blocks handed out and not yet given back. */
  datatype Config = Config(cuts: seq<int>, live: set<Block>)

  /** Every call has its own limit and alignment. */
  datatype Event = Take(block: Block, align: nat, limit: nat, lo: int, start: int) | Give(block: Block)

  ghost predicate Step(c: Config, e: Event, c': Config)
  {
    match e
    case Take(b, align, limit, lo, start) =>
      0 < align && AllocStep(c.cuts, b, align, limit, lo, start, c'.cuts) && c'.live == c.live + {b}
    case Give(b) => b in c.live && FreeStep(c.cuts, b, c'.cuts) && c'.live == c.live - {b}
  }

  /** A run from the empty space; callers free what they took. */
  ghost predicate Run(trace: seq<Config>, events: seq<Event>)
  {
    && |trace| == |events| + 1
    && trace[0] == Config([], {})
    && (forall i :: 0 <= i < |events| ==> Step(trace[i], events[i], trace[i + 1]))
  }

  /** The highest limit among the first `n` calls. */
  function Highest(events: seq<Event>, n: nat): nat
    requires n <= |events|
  {
    if n == 0 then 0
    else match events[n - 1]
      case Take(_, _, limit, _, _) => Max(limit, Highest(events, n - 1))
      case Give(_) => Highest(events, n - 1)
  }

  ghost predicate Safe(c: Config, limit: nat)
  {
    && Canonical(c.cuts)
    && (forall x :: 0 <= x && Full(c.cuts, x) ==> x < limit)
    && (forall b :: b in c.live ==> 0 <= b.off && 0 < b.size && b.off + b.size <= limit)
    && (forall b, x :: b in c.live && Inside(b, x) ==> Full(c.cuts, x))
    && (forall a, b :: a in c.live && b in c.live && a != b ==> Apart(a, b))
  }

  lemma SafeFrontier(c: Config, limit: nat)
    requires Safe(c, limit)
    ensures Frontier(c.cuts) <= limit
  {
    if c.cuts != [] { LastCell(c.cuts, Frontier(c.cuts) - 1); }
  }

  lemma TakenIsApart(c: Config, limit: nat, a: Block, b: Block)
    requires Safe(c, limit) && a in c.live && 0 < b.size
    requires forall x :: Inside(b, x) ==> !Full(c.cuts, x)
    ensures Apart(a, b) && a != b
  {
    var x := Max(a.off, b.off);
    assert Inside(a, a.off);
    assert (Inside(a, x) && Inside(b, x)) || Apart(a, b);
  }

  lemma StepSafe(c: Config, e: Event, limit: nat, limit': nat, c': Config)
    requires Safe(c, limit) && Step(c, e, c') && limit <= limit' && (e.Take? ==> e.limit <= limit')
    ensures Safe(c', limit')
  {
    SafeFrontier(c, limit);
    match e
    case Take(b, _, _, _, _) =>
      forall a | a in c.live ensures Apart(a, b) && a != b {
        TakenIsApart(c, limit, a, b);
      }
    case Give(b) =>
      forall a, x | a in c'.live && Inside(a, x) ensures Full(c'.cuts, x) {
        assert Apart(a, b);
        assert !Inside(b, x);
      }
  }

  /**
   * In every run, whatever the mix of sizes, alignments and limits, live blocks are disjoint,
   * occupied and below the highest limit used so far, and the cuts stay positive and strictly
   * ascending.
   */
  lemma {:induction false} RunSafe(trace: seq<Config>, events: seq<Event>, i: nat)
    requires Run(trace, events) && i < |trace|
    ensures Safe(trace[i], Highest(events, i))
  {
    if i != 0 {
      RunSafe(trace, events, i - 1);
      StepSafe(trace[i - 1], events[i - 1], Highest(events, i - 1), Highest(events, i), trace[i]);
    }
  }

  /** The occupied addresses are those of the live blocks. */
  ghost predicate Exact(c: Config)
  {
    forall x :: 0 <= x ==> (Full(c.cuts, x) <==> exists b :: b in c.live && Inside(b, x))
  }

  ghost predicate AlignedTo(c: Config, align: nat)
    requires 0 < align
  {
    && (forall i :: 0 <= i < |c.cuts| ==> c.cuts[i] % align == 0)
    && (forall b :: b in c.live ==> b.off % align == 0 && b.size % align == 0)
  }

  /** A cut is where occupancy changes. */
  lemma CutIsEdge(s: seq<int>, i: nat)
    requires Canonical(s) && i < |s|
    ensures Full(s, s[i] - 1) != Full(s, s[i])
  {
    SegmentParity(s, i, s[i] - 1);
    SegmentParity(s, i + 1, s[i]);
  }

  /** An allocation aligned to all cuts needs no padding. */
  lemma NoPadding(c: Config, e: Event, c': Config)
    requires e.Take? && Step(c, e, c') && AlignedTo(c, e.align)
    ensures e.lo == e.start == e.block.off
  {
    var i :| e.lo == 0 || (0 <= i < |c.cuts| && c.cuts[i] == e.lo);
    AlignedStart(e.lo, e.block.off, e.align);
  }

  lemma AlignedStart(lo: int, off: int, align: nat)
    requires 0 < align && (lo == 0 || lo % align == 0) && off % align == 0 && lo <= off < lo + align
    ensures lo == off
  {
    MultipleMod(0, align);
    NoMultipleBetween(lo, off, align);
  }

  lemma StepExact(c: Config, e: Event, limit: nat, c': Config)
    requires Safe(c, limit) && Exact(c) && Step(c, e, c') && (e.Take? ==> e.start == e.block.off)
    ensures Exact(c')
  {
    var b := e.block;
    forall x | 0 <= x ensures Full(c'.cuts, x) <==> exists a :: a in c'.live && Inside(a, x) {
      if Inside(b, x) {
        assert e.Take? ==> b in c'.live;
        if e.Give? {
          forall a | a in c'.live ensures !Inside(a, x) { assert Apart(a, b); }
        }
      } else if exists a :: a in c.live && Inside(a, x) {
        var a :| a in c.live && Inside(a, x);
        assert a in c'.live;
      }
    }
  }

  /** Where the occupied set changes, the change sits at an end of the block or at an old cut. */
  lemma StepAligned(c: Config, e: Event, align: nat, c': Config)
    requires 0 < align && Step(c, e, c') && AlignedTo(c, align)
    requires e.block.size % align == 0 && (e.Take? ==> e.lo == e.start == e.block.off)
    ensures AlignedTo(c', align)
  {
    var b := e.block;
    assert b.off % align == 0;
    AlignedSum(b.off, b.size, align);
    forall i | 0 <= i < |c'.cuts| ensures c'.cuts[i] % align == 0 {
      var x := c'.cuts[i];
      CutIsEdge(c'.cuts, i);
      if x != b.off && x != b.off + b.size {
        assert Inside(b, x - 1) == Inside(b, x);
        assert Full(c.cuts, x - 1) != Full(c.cuts, x);
        EdgeIsCut(c.cuts, x);
      }
    }
  }

  /** Occupancy changes only at cuts. */
  lemma {:induction false} EdgeIsCut(s: seq<int>, x: int)
    requires Full(s, x - 1) != Full(s, x)
    ensures x in s
  {
    if s[|s| - 1] != x {
      EdgeIsCut(s[..|s| - 1], x);
    }
  }

  /** Every size is a multiple of every alignment used. */
  predicate Regular(events: seq<Event>)
  {
    forall k, m :: 0 <= k < |events| && 0 <= m < |events| ==> SizeFits(events[k], events[m])
  }

  predicate SizeFits(e: Event, f: Event)
  {
    f.Take? && 0 < f.align ==> e.block.size % f.align == 0
  }

  /**
   * When every size is a multiple of every alignment used, no padding is ever marked: the
   * occupied addresses are exactly the union of the live blocks, and once all are freed the array
   * is empty.
   */
  lemma {:induction false} RunExact(trace: seq<Config>, events: seq<Event>, i: nat)
    requires Run(trace, events) && Regular(events) && i < |trace|
    ensures Exact(trace[i])
    ensures forall m :: 0 <= m < |events| && events[m].Take? && 0 < events[m].align ==>
      AlignedTo(trace[i], events[m].align)
    ensures trace[i].live == {} ==> trace[i].cuts == []
  {
    RunSafe(trace, events, i);
    if i != 0 {
      var c, e, c' := trace[i - 1], events[i - 1], trace[i];
      RunExact(trace, events, i - 1);
      assert Step(c, e, c');
      if e.Take? { NoPadding(c, e, c'); }
      RunSafe(trace, events, i - 1);
      StepExact(c, e, Highest(events, i - 1), c');
      forall m | 0 <= m < |events| && events[m].Take? && 0 < events[m].align ensures AlignedTo(c', events[m].align) {
        assert SizeFits(e, events[m]);
        StepAligned(c, e, events[m].align, c');
      }
    }
    if trace[i].live == {} {
      CanonicalUnique(trace[i].cuts, []);
    }
  }

  /** An unpadded allocation followed by its free restores the very same array. */
  lemma AllocFreeRestores(s: seq<int>, b: Block, align: nat, limit: nat, lo: int, s1: seq<int>, s2: seq<int>)
    requires 0 < align && Canonical(s)
    requires AllocStep(s, b, align, limit, lo, b.off, s1) && FreeStep(s1, b, s2)
    ensures s2 == s
  {
    forall x | 0 <= x ensures Full(s2, x) == Full(s, x) {
      assert Inside(b, x) ==> !Full(s, x);
    }
    CanonicalUnique(s2, s);
  }
}

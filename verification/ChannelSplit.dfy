/**
 * Splitting collectives over channels (nccl/src/enqueue.cc, the branch of
 * `scheduleCollTasksToPlan` for tasks that do not use collnet).  A task's elements are cut into
 * cells of at least 16K traffic; a first ("lo") channel takes what fits into the traffic budget
 * of the current channel, full "mid" channels follow, and a "hi" channel takes the rest.
 */
module ChannelSplit {
  import opened Arith

  const MIN_TRAFFIC_PER_CHANNEL: nat := 16384

  function DivUp(a: nat, b: nat): (q: nat)
    requires 0 < b
  {
    (a + b - 1) / b
  }

  /** `trafficPerByte` already includes the factor 4 of the LL protocol. */
  datatype Task = Task(
      count: nat, elementSize: nat, trafficPerByte: nat, trafficBytes: nat, nMaxChannels: nat, nvls: bool) {

    /** Tasks without elements are dropped before they are queued. */
    predicate Valid()
    {
      && 0 < count && 0 < trafficPerByte && 0 < nMaxChannels
      && (elementSize == 1 || elementSize == 2 || elementSize == 4 || elementSize == 8)
    }

    function CellSize(): nat
      requires Valid()
    {
      DivUp(DivUp(MIN_TRAFFIC_PER_CHANNEL, trafficPerByte), 16) * 16
    }

    function ElementsPerCell(): nat
      requires Valid()
    {
      CellSize() / elementSize
    }
  }

  // ---------------------------------------------------------------- arithmetic of cells

  lemma DivUpBounds(a: nat, b: nat)
    requires 0 < b
    ensures (DivUp(a, b) - 1) * b < a + (if a == 0 then 1 else 0) && a <= DivUp(a, b) * b
    ensures 0 < a ==> 0 < DivUp(a, b)
  {
    var q, r := (a + b - 1) / b, (a + b - 1) % b;
    assert a + b - 1 == q * b + r;
    assert (q - 1) * b == q * b - b;
  }

  lemma CellSizeFacts(t: Task)
    requires t.Valid()
    ensures 0 < t.CellSize() && t.CellSize() % 16 == 0
    ensures 0 < t.ElementsPerCell() && t.ElementsPerCell() * t.elementSize == t.CellSize()
  {
    var m := DivUp(DivUp(MIN_TRAFFIC_PER_CHANNEL, t.trafficPerByte), 16);
    DivUpBounds(MIN_TRAFFIC_PER_CHANNEL, t.trafficPerByte);
    DivUpBounds(DivUp(MIN_TRAFFIC_PER_CHANNEL, t.trafficPerByte), 16);
    WholeElements(m, t.elementSize);
  }

  /** A cell is the least multiple of 16 bytes with at least 16K traffic. */
  lemma CellSizeLeast(t: Task)
    requires t.Valid()
    ensures t.CellSize() % 16 == 0 && (t.CellSize() - 16) * t.trafficPerByte < 16384 <= t.CellSize() * t.trafficPerByte
  {
    CellSizeFacts(t);
    var b, x, c := t.trafficPerByte, DivUp(MIN_TRAFFIC_PER_CHANNEL, t.trafficPerByte), t.CellSize();
    DivUpBounds(MIN_TRAFFIC_PER_CHANNEL, b);
    DivUpBounds(x, 16);
    MulMono(b, c - 16, x - 1);
    MulMono(b, x, c);
  }

  lemma WholeElements(m: nat, e: nat)
    requires e == 1 || e == 2 || e == 4 || e == 8
    ensures (m * 16) / e * e == m * 16 && (0 < m ==> 0 < m * 16 / e)
  {
    var k := if e == 1 then m * 16 else if e == 2 then m * 8 else if e == 4 then m * 4 else m * 2;
    assert m * 16 == k * e + 0;
    DivModUnique(m * 16, e, k, 0);
  }

  lemma MulLt(a: int, b: int, e: int)
    requires 0 < e && a < b
    ensures a * e < b * e
  {
    assert b * e - a * e == (b - a) * e;
    MulMono(e, 1, b - a);
  }

  lemma MulLess(a: int, b: int, e: int)
    requires 0 < e
    ensures a < b <==> a * e < b * e
    ensures a <= b <==> a * e <= b * e
  {
    if a < b { MulLt(a, b, e); } else if b < a { MulLt(b, a, e); }
  }

  lemma MulAssoc(a: int, b: int, c: int)
    ensures a * (b * c) == (a * b) * c
  {
  }

  /** The cells of a task cover its elements, and the last cell is not empty. */
  lemma CellsCover(n: nat, e: nat, p: nat, cells: nat)
    requires 0 < n && 0 < e && 0 < p && 0 < p * e && cells == DivUp(n * e, p * e)
    ensures 0 < cells && (cells - 1) * p < n <= cells * p
  {
    MulLt(0, n, e);
    DivUpBounds(n * e, p * e);
    MulAssoc(cells - 1, p, e);
    MulAssoc(cells, p, e);
    MulLess((cells - 1) * p, n, e);
    MulLess(n, cells * p, e);
  }

  /** Cells of a channel, and of the channels of each kind. */
  lemma SpreadPlain(rest: nat, per: nat, mid: nat, hi: nat)
    requires 0 < per && mid == rest / per && hi == rest % per
    ensures mid * per + hi == rest && hi < per && mid + (if hi != 0 then 1 else 0) <= rest
  {
    MulMono(mid, 1, per);
  }

  /** When the channels run out, the rest is spread evenly over those that are left. */
  lemma SpreadOver(rest: nat, left: nat, per: nat, hi: nat)
    requires 0 < left <= rest && per == rest / left && hi == per + rest % left
    ensures 1 <= per <= hi && (left - 1) * per + hi == rest
    ensures left * per <= rest < left * (per + 1)
  {
    assert rest == left * per + rest % left;
    MulNext(left, per);
    assert (left - 1) * per == left * per - per;
    MulLess(0, per, left);
  }

  /** Spreading over fewer channels gives each at least as much. */
  lemma FullerChannels(rest: nat, per: nat, left: nat)
    requires 0 < per && 0 < left && left < rest / per + (if rest % per != 0 then 1 else 0)
    ensures per <= rest / left
  {
    var mid := rest / per;
    assert rest == per * mid + rest % per;
    MulMono(per, left, mid);
    if rest / left < per {
      var q := rest / left;
      assert rest == left * q + rest % left;
      MulMono(left, q + 1, per);
      assert false;
    }
  }

  /** The number of cells that a count of elements takes up. */
  lemma CellCount(k: nat, p: nat, cut: nat)
    requires 0 < p && cut < p && 0 < k
    ensures 0 <= k * p - cut && DivUp(k * p - cut, p) == k
  {
    MulMono(p, 1, k);
    DivModUnique(k * p - cut + p - 1, p, k, p - 1 - cut);
  }

  lemma ScaleCells(lo: nat, mid: nat, per: nat, hi: nat, cells: nat, p: nat)
    requires cells == lo + mid * per + hi
    ensures cells * p == lo * p + mid * (per * p) + hi * p
  {
    MulAssoc(mid, per, p);
  }

  // ---------------------------------------------------------------- the split of one task

  datatype Split = Split(channelLo: nat, channelHi: nat, nMid: nat, countLo: nat, countMid: nat, countHi: nat) {

    /** Elements given to channel `c`. */
    function Size(c: nat): nat
    {
      if c == channelLo then countLo else if c == channelHi then countHi else countMid
    }

    /** First element of channel `c`, by the formulas used for `loopOffset`. */
    function Offset(c: nat): nat
    {
      if c <= channelLo then 0
      else if c == channelHi then countLo + nMid * countMid
      else countLo + (c - channelLo - 1) * countMid
    }
  }

  /** The split covers the collective's elements exactly, on whole cells except at the end. */
  ghost predicate Tiles(sp: Split, t: Task)
    requires t.Valid()
  {
    && sp.countLo + sp.nMid * sp.countMid + sp.countHi == t.count
    && 0 < sp.countLo && (0 < sp.nMid ==> 0 < sp.countMid && 0 < sp.countHi)
    && sp.channelHi == sp.channelLo + sp.nMid + (if 0 < sp.countHi then 1 else 0)
    && (0 < sp.countHi ==> Divides(t.ElementsPerCell(), sp.countLo)) && Divides(t.ElementsPerCell(), sp.countMid)
  }

  /** Channel after channel, without gap or overlap. */
  lemma ChannelsAbut(sp: Split, t: Task, c: nat)
    requires t.Valid() && Tiles(sp, t) && sp.channelLo <= c <= sp.channelHi
    ensures sp.Offset(sp.channelLo) == 0 && 0 < sp.Size(c)
    ensures sp.Offset(c) + sp.Size(c) == if c < sp.channelHi then sp.Offset(c + 1) else t.count
  {
    if sp.channelLo < c < sp.channelHi {
      var k := c - sp.channelLo - 1;
      assert (k + 1) * sp.countMid == k * sp.countMid + sp.countMid;
    }
    if c == sp.channelLo < sp.channelHi && 0 < sp.nMid { assert 0 * sp.countMid == 0; }
  }

  lemma MultipleOf16(x: int, k: int, e: int)
    requires e % 16 == 0 && x == e * k
    ensures x % 16 == 0
  {
    var m := e / 16;
    MulAssoc(16, m, k);
    assert x == 16 * (m * k);
  }

  lemma CellOffset(sp: Split, t: Task, c: nat) returns (k: int)
    requires t.Valid() && Tiles(sp, t) && sp.channelLo <= c <= sp.channelHi
    ensures sp.Offset(c) == k * t.ElementsPerCell()
  {
    var p := t.ElementsPerCell();
    if c == sp.channelLo {
      k := 0;
    } else {
      var a := Quotient(p, sp.countLo);
      var b := Quotient(p, sp.countMid);
      var m := if c == sp.channelHi then sp.nMid else c - sp.channelLo - 1;
      k := a + m * b;
      assert sp.countLo == p * a && sp.countMid == p * b;
      MulAssoc(m, b, p);
      assert (a + m * b) * p == a * p + (m * b) * p;
    }
  }

  /** Every channel starts on a 16-byte boundary of the buffer. */
  lemma ChannelsAligned(sp: Split, t: Task, c: nat)
    requires t.Valid() && Tiles(sp, t) && sp.channelLo <= c <= sp.channelHi
    ensures sp.Offset(c) * t.elementSize % 16 == 0
  {
    CellSizeFacts(t);
    var k := CellOffset(sp, t, c);
    MulAssoc(k, t.ElementsPerCell(), t.elementSize);
    MultipleOf16(sp.Offset(c) * t.elementSize, k, t.CellSize());
  }

  /** What is in use of the traffic budget `t` stays below it, except on the last channel. */
  predicate InBudget(channelId: int, traffic: int, perChannel: nat, nMax: nat)
  {
    0 <= channelId < nMax && 0 <= traffic && (traffic < perChannel || channelId + 1 == nMax)
  }

  /** How many cells go to each channel: `lo` to the first, `per` to each of `mid`, `hi` to the last. */
  ghost predicate CellsSplit(cells: nat, lo: int, mid: int, per: int, hi: int, left: int)
  {
    && 0 < lo && 0 <= mid && 0 <= hi && 0 < per && lo + mid * per + hi == cells
    && (mid != 0 ==> hi != 0) && 1 + mid + (if hi != 0 then 1 else 0) <= left
  }

  /**
   * Where the cells behind the first channel go, `left` channels being available with it: full
   * channels of `full` cells and a last one with the rest, or, if these would be too many, an even
   * spread over all channels.
   */
  ghost predicate RestSpread(rest: int, mid: int, per: int, hi: int, full: nat, left: int)
  {
    && mid * per + hi == rest
    && if rest == 0 then mid == 0 && hi == 0
       else if rest <= (left - 1) * full then 1 <= hi <= full && (mid != 0 ==> per == full)
       else mid == left - 2 && (left - 1) * per <= rest < (left - 1) * (per + 1)
  }

  lemma OneMidLess(mid: int, per: int)
    ensures (mid - 1) * per + per == mid * per
  {
  }

  /** The overflow branch. */
  method SpreadEvenly(rest: nat, perFull: nat, left: nat) returns (mid: nat, per: nat, hi: nat)
    requires 0 < perFull && 1 < left && left < 1 + rest / perFull + (if rest % perFull != 0 then 1 else 0)
    ensures mid * per + hi == rest && mid + 2 == left && hi != 0 && perFull <= per
    ensures (left - 1) * per <= rest < (left - 1) * (per + 1)
  {
    SpreadPlain(rest, perFull, rest / perFull, rest % perFull);
    mid := left - 2;
    per := rest / (mid + 1);
    hi := per + rest % (mid + 1);
    SpreadOver(rest, mid + 1, per, hi);
    FullerChannels(rest, perFull, mid + 1);
  }

  /** The rest of the cells over the channels after the first, evenly when channels run out. */
  method SpreadRest(rest: nat, perFull: nat, left: nat) returns (mid: nat, per: nat, hi: nat)
    requires 0 < perFull && 0 < left && (left == 1 ==> rest == 0)
    ensures mid * per + hi == rest && 1 + mid + (if hi != 0 then 1 else 0) <= left
    ensures perFull <= per && (per != perFull ==> mid + 2 == left && hi != 0)
    ensures if rest <= (left - 1) * perFull then per == perFull && hi < perFull
            else mid + 2 == left && hi != 0 && (left - 1) * per <= rest < (left - 1) * (per + 1)
  {
    mid, per, hi := rest / perFull, perFull, rest % perFull;
    SpreadPlain(rest, perFull, mid, hi);
    var nChannels := 1 + mid + (if hi != 0 then 1 else 0);
    TooMany(rest, perFull, mid, hi, left);
    if left < nChannels {
      mid, per, hi := SpreadEvenly(rest, perFull, left);
    }
  }

  /** The channels do not suffice exactly when they cannot hold the rest as full channels. */
  lemma TooMany(rest: nat, full: nat, mid: nat, hi: nat, left: nat)
    requires 0 < full && mid * full + hi == rest && hi < full
    ensures left < 1 + mid + (if hi != 0 then 1 else 0) <==> (left - 1) * full < rest
  {
    if left - 1 <= mid { MulMono(full, left - 1, mid); } else { MulMono(full, mid + 1, left - 1); }
    MulNext(full, mid);
    if left - 1 < mid { MulMono(full, left, mid); MulNext(full, left - 1); }
  }

  /** Cells over channels, with `left` channels available; `first` cells fit into the current one. */
  method SplitCells(cells: nat, first: nat, perFull: nat, left: nat) returns (mid: int, per: int, hi: int)
    requires 0 < first <= cells && 0 < perFull && 0 < left && (left == 1 ==> first == cells)
    ensures CellsSplit(cells, first, mid, per, hi, left)
    ensures perFull <= per && (per != perFull ==> mid + 2 == left)
    ensures RestSpread(cells - first, mid, per, hi, perFull, left)
  {
    mid, per, hi := SpreadRest(cells - first, perFull, left);
    if hi == 0 && mid != 0 {
      OneMidLess(mid, per);
      hi := per;
      mid := mid - 1;
    } else if hi == 0 {
      assert cells == first;
    }
  }

  /** Elements per channel: the cells that stick out beyond the last element are cut off at the end. */
  lemma CountsTile(t: Task, cells: nat, lo: nat, mid: nat, per: nat, hi: nat, left: int, p: nat, sp: Split)
    requires t.Valid() && p == t.ElementsPerCell() && CellsSplit(cells, lo, mid, per, hi, left)
    requires (cells - 1) * p < t.count <= cells * p
    requires sp.nMid == mid && sp.countMid == (if mid != 0 then per * p else 0)
    requires sp.countLo == lo * p - (if hi != 0 then 0 else cells * p - t.count)
    requires sp.countHi == if hi != 0 then hi * p - (cells * p - t.count) else 0
    requires sp.channelHi == sp.channelLo + mid + (if hi != 0 then 1 else 0)
    ensures Tiles(sp, t)
  {
    CellSizeFacts(t);
    ScaleCells(lo, mid, per, hi, cells, p);
    assert cells * p - (cells - 1) * p == p;
    MulMono(p, 1, lo);
    MulMono(p, 1, per);
    if hi != 0 { MulMono(p, 1, hi); }
    assert IsTimes(lo * p, p, lo) && IsTimes(per * p, p, per) && IsTimes(0, p, 0);
  }

  function Traffic(t: Task, cells: nat): int
    requires t.Valid()
  {
    cells * t.ElementsPerCell() * (t.elementSize * t.trafficPerByte)
  }

  /**
   * The first channel is filled up to its budget before the next one is used, and not by a cell
   * more; on the last channel it takes everything.
   */
  ghost predicate FillsBudget(sp: Split, t: Task, perChannel: nat, nMax: nat, traffic: int)
    requires t.Valid() && 0 < t.ElementsPerCell()
  {
    var lo, perCell := DivUp(sp.countLo, t.ElementsPerCell()), t.CellSize() * t.trafficPerByte;
    && (sp.channelLo + 1 == nMax ==> sp.countHi == 0)
    && (sp.channelLo + 1 != nMax ==> (lo - 1) * perCell < perChannel - traffic)
    && (sp.countHi != 0 ==> perChannel - traffic <= lo * perCell)
  }

  /** `full` cells are just enough to use up the budget of a channel. */
  predicate FullChannel(full: nat, perChannel: nat, perCell: nat)
  {
    (full - 1) * perCell < perChannel <= full * perCell
  }

  /** The channels after the first. */
  ghost predicate Spreads(sp: Split, t: Task, perChannel: nat, nMax: nat)
    requires t.Valid() && 0 < t.ElementsPerCell()
  {
    var p := t.ElementsPerCell();
    var rest, hi := DivUp(t.count, p) - DivUp(sp.countLo, p), DivUp(sp.countHi, p);
    exists per: nat, full: nat :: SpreadBy(sp, t, perChannel, nMax, rest, hi, per, full)
  }

  ghost predicate SpreadBy(
      sp: Split, t: Task, perChannel: nat, nMax: nat, rest: int, hi: nat, per: nat, full: nat)
    requires t.Valid() && 0 < t.ElementsPerCell()
  {
    && FullChannel(full, perChannel, t.CellSize() * t.trafficPerByte)
    && RestSpread(rest, sp.nMid, per, hi, full, nMax - sp.channelLo)
    && sp.countMid == if sp.nMid != 0 then per * t.ElementsPerCell() else 0
  }

  /** A channel never gets more than all cells. */
  lemma SpreadCapped(rest: nat, mid: int, per: int, hi: int, cells: nat, full: nat, left: int)
    requires RestSpread(rest, mid, per, hi, Min(cells, full), left) && rest < cells && 0 < full
    requires 0 <= mid && 0 <= hi && 0 < left && (left == 1 ==> rest == 0)
    ensures RestSpread(rest, mid, per, hi, full, left)
  {
    if cells < full && rest != 0 {
      MulMono(cells, 1, left - 1);
      MulMono(full, 1, left - 1);
      if mid != 0 { MulMono(cells, 1, mid); }
    }
  }

  /** The current channel and its traffic afterwards: a channel whose budget is used up is left. */
  function NextChannel(sp: Split, t: Task, perChannel: nat, nMax: nat, traffic: nat): (int, int)
    requires t.Valid() && 0 < t.ElementsPerCell()
  {
    var p := t.ElementsPerCell();
    var used :=
      if sp.countHi != 0 then Traffic(t, DivUp(sp.countHi, p)) else traffic + Traffic(t, DivUp(sp.countLo, p));
    if used >= perChannel && sp.channelHi + 1 != nMax then (sp.channelHi + 1, 0) else (sp.channelHi, used)
  }

  /**
   * One iteration of the scheduling loop: `channelId` and `traffic` are the loop's variables,
   * `perChannel` the traffic each channel should get.
   */
  method SplitTask(t: Task, perChannel: nat, nMax: nat, channelId: nat, traffic: nat)
    returns (sp: Split, channelId': int, traffic': int)
    requires t.Valid() && 0 < perChannel && InBudget(channelId, traffic, perChannel, nMax)
    ensures Tiles(sp, t) && sp.channelLo == channelId && sp.channelHi < nMax
    ensures InBudget(channelId', traffic', perChannel, nMax) && sp.channelHi <= channelId' <= sp.channelHi + 1
    ensures 0 < t.ElementsPerCell() && FillsBudget(sp, t, perChannel, nMax, traffic) && Spreads(sp, t, perChannel, nMax)
    ensures (channelId', traffic') == NextChannel(sp, t, perChannel, nMax, traffic)
  {
    CellSizeFacts(t);
    var cells, lo, full := FirstCells(t, perChannel, nMax, channelId, traffic);
    var mid, per, hi := SplitCells(cells, lo, full, nMax - channelId);
    channelId' := channelId;
    if lo == 0 {
      // The first channel is skipped: never taken, as the budget is never used up here.
      channelId' := channelId' + 1;
      if mid == 0 { lo, hi := hi, 0; } else { lo, mid := per, mid - 1; }
    }
    sp := Counts(t, cells, lo, mid, per, hi, channelId', nMax - channelId);
    BudgetFilled(t, sp, cells, lo, hi, perChannel, nMax, traffic);
    SpreadDone(t, sp, cells, lo, mid, per, hi, perChannel, nMax);
    channelId', traffic' := Advance(t, sp, lo, hi, perChannel, nMax, traffic);
  }

  /** As many cells as it takes to fill the room, if there are so many. */
  lemma RoomInCells(cells: nat, room: nat, perCell: nat)
    requires 0 < perCell && 0 < room && 0 < cells
    ensures var lo := Min(cells, DivUp(room, perCell));
      0 < lo && (lo - 1) * perCell < room && (lo < cells ==> room <= lo * perCell)
  {
    var fits := DivUp(room, perCell);
    DivUpBounds(room, perCell);
    MulLess(Min(cells, fits) - 1, fits - 1, perCell);
  }

  /** The cells of the collective, those for the first channel, and those of a full channel. */
  method FirstCells(t: Task, perChannel: nat, nMax: nat, channelId: nat, traffic: nat)
    returns (cells: nat, lo: int, full: nat)
    requires t.Valid() && 0 < perChannel && InBudget(channelId, traffic, perChannel, nMax) && 0 < t.CellSize()
    requires 0 < t.ElementsPerCell() && t.ElementsPerCell() * t.elementSize == t.CellSize()
    ensures (cells - 1) * t.ElementsPerCell() < t.count <= cells * t.ElementsPerCell()
    ensures 0 < full && 0 < lo <= cells && (channelId + 1 == nMax ==> lo == cells)
    ensures 0 < t.CellSize() * t.trafficPerByte
    ensures full == Min(cells, DivUp(perChannel, t.CellSize() * t.trafficPerByte))
    ensures var perCell := t.CellSize() * t.trafficPerByte;
      channelId + 1 != nMax ==>
        (lo - 1) * perCell < perChannel - traffic && (lo < cells ==> perChannel - traffic <= lo * perCell)
  {
    var cellSize := t.CellSize();
    cells := DivUp(t.count * t.elementSize, cellSize);
    CellsCover(t.count, t.elementSize, t.ElementsPerCell(), cells);
    var perCell := cellSize * t.trafficPerByte;
    MulLt(0, cellSize, t.trafficPerByte);
    DivUpBounds(perChannel, perCell);
    full := Min(cells, DivUp(perChannel, perCell));
    if channelId + 1 == nMax {
      lo := cells;
    } else {
      RoomInCells(cells, perChannel - traffic, perCell);
      lo := Min(cells, DivUp(perChannel - traffic, perCell));
    }
  }

  /** Element counts of the channels. */
  method Counts(t: Task, cells: nat, lo: nat, mid: nat, per: nat, hi: nat, channelId: nat, left: nat)
    returns (sp: Split)
    requires t.Valid() && CellsSplit(cells, lo, mid, per, hi, left)
    requires var p := t.ElementsPerCell(); 0 < p && (cells - 1) * p < t.count <= cells * p
    ensures Tiles(sp, t) && sp.channelLo == channelId && sp.channelHi == channelId + mid + (if hi != 0 then 1 else 0)
    ensures DivUp(sp.countLo, t.ElementsPerCell()) == lo && (hi == 0 <==> sp.countHi == 0)
    ensures DivUp(sp.countHi, t.ElementsPerCell()) == hi && DivUp(t.count, t.ElementsPerCell()) == cells
    ensures sp.nMid == mid && sp.countMid == if mid != 0 then per * t.ElementsPerCell() else 0
  {
    var p := t.ElementsPerCell();
    ScaleCells(lo, mid, per, hi, cells, p);
    SlackFits(cells, p, t.count, lo, hi);
    var cut := cells * p - t.count;
    var countLo, countHi := lo * p, hi * p;
    if countHi != 0 { countHi := countHi - cut; } else { countLo := countLo - cut; }
    var nChannels := 1 + mid + (if hi != 0 then 1 else 0);
    sp := Split(channelId, channelId + nChannels - 1, mid, countLo, if mid != 0 then per * p else 0, countHi);
    CountsTile(t, cells, lo, mid, per, hi, left, p, sp);
    CellCount(lo, p, if hi != 0 then 0 else cut);
    CellCount(cells, p, cut);
    if hi != 0 { CellCount(hi, p, cut); } else { NoCells(p); }
  }

  lemma NoCells(p: nat)
    requires 0 < p
    ensures DivUp(0, p) == 0
  {
    DivModUnique(p - 1, p, 0, p - 1);
  }

  lemma SpreadDone(t: Task, sp: Split, cells: nat, lo: nat, mid: nat, per: nat, hi: nat, perChannel: nat, nMax: nat)
    requires t.Valid() && 0 < t.ElementsPerCell() && 0 < t.CellSize() * t.trafficPerByte && 0 < perChannel
    requires DivUp(sp.countLo, t.ElementsPerCell()) == lo && DivUp(sp.countHi, t.ElementsPerCell()) == hi
    requires DivUp(t.count, t.ElementsPerCell()) == cells && 0 < lo <= cells && sp.channelLo < nMax
    requires sp.nMid == mid && sp.countMid == if mid != 0 then per * t.ElementsPerCell() else 0
    requires sp.channelLo + 1 == nMax ==> lo == cells
    requires var full := Min(cells, DivUp(perChannel, t.CellSize() * t.trafficPerByte));
      RestSpread(cells - lo, mid, per, hi, full, nMax - sp.channelLo)
    ensures Spreads(sp, t, perChannel, nMax)
  {
    var perCell := t.CellSize() * t.trafficPerByte;
    var full := DivUp(perChannel, perCell);
    DivUpBounds(perChannel, perCell);
    SpreadCapped(cells - lo, mid, per, hi, cells, full, nMax - sp.channelLo);
    assert SpreadBy(sp, t, perChannel, nMax, cells - lo, hi, per, full);
  }

  lemma BudgetFilled(t: Task, sp: Split, cells: nat, lo: nat, hi: nat, perChannel: nat, nMax: nat, traffic: nat)
    requires t.Valid() && 0 < t.ElementsPerCell() && DivUp(sp.countLo, t.ElementsPerCell()) == lo
    requires hi == 0 <==> sp.countHi == 0
    requires 0 < lo && lo + hi <= cells && (sp.channelLo + 1 == nMax ==> lo == cells)
    requires var perCell := t.CellSize() * t.trafficPerByte;
      sp.channelLo + 1 != nMax ==>
        (lo - 1) * perCell < perChannel - traffic && (lo < cells ==> perChannel - traffic <= lo * perCell)
    ensures FillsBudget(sp, t, perChannel, nMax, traffic)
  {
  }

  /** The update of the loop's variables. */
  method Advance(t: Task, sp: Split, lo: nat, hi: nat, perChannel: nat, nMax: nat, traffic: nat)
    returns (channelId': int, traffic': int)
    requires t.Valid() && Tiles(sp, t) && sp.channelHi < nMax && 0 < perChannel && 0 < t.ElementsPerCell()
    requires DivUp(sp.countLo, t.ElementsPerCell()) == lo
    requires sp.countHi != 0 ==> DivUp(sp.countHi, t.ElementsPerCell()) == hi
    ensures (channelId', traffic') == NextChannel(sp, t, perChannel, nMax, traffic)
    ensures InBudget(channelId', traffic', perChannel, nMax) && sp.channelHi <= channelId' <= sp.channelHi + 1
  {
    var p, perElement := t.ElementsPerCell(), t.elementSize * t.trafficPerByte;
    var nChannels := sp.channelHi - sp.channelLo + 1;
    MulMono(perElement, 0, lo * p);
    MulMono(perElement, 0, hi * p);
    channelId', traffic' := sp.channelLo, traffic;
    if sp.countHi != 0 {
      channelId', traffic' := channelId' + nChannels - 1, hi * p * perElement;
    } else if sp.nMid != 0 {
      // Never taken either: mid channels are always followed by a hi channel.
      channelId', traffic' := channelId' + nChannels, 0;
    } else {
      traffic' := traffic' + lo * p * perElement;
    }
    if traffic' >= perChannel && channelId' + 1 != nMax {
      channelId', traffic' := channelId' + 1, 0;
    }
  }

  lemma SlackFits(cells: nat, p: nat, count: nat, lo: nat, hi: nat)
    requires (cells - 1) * p < count <= cells * p && 0 < lo
    ensures 0 <= cells * p - count < p && cells * p - count < lo * p && 0 <= lo * p && 0 <= hi * p
    ensures hi != 0 <==> hi * p != 0
    ensures hi != 0 ==> cells * p - count < hi * p
  {
    assert (cells - 1) * p == cells * p - p;
    MulMono(p, 1, lo);
    if hi != 0 { MulMono(p, 1, hi); }
  }

  // ---------------------------------------------------------------- the whole plan

  function Kind(t: Task): nat { if t.nvls then 1 else 0 }

  /** The traffic of the first `n` tasks of kind `k`, each counted with at least 16K. */
  function SumTraffic(tasks: seq<Task>, n: nat, k: nat): nat
    requires n <= |tasks|
  {
    if n == 0 then 0
    else SumTraffic(tasks, n - 1, k) + if Kind(tasks[n - 1]) == k then Max(16384, tasks[n - 1].trafficBytes) else 0
  }

  /** The channels that the first `n` tasks of kind `k` may use together. */
  function SumChannels(tasks: seq<Task>, n: nat, k: nat): nat
    requires n <= |tasks|
  {
    if n == 0 then 0
    else SumChannels(tasks, n - 1, k) + if Kind(tasks[n - 1]) == k then tasks[n - 1].nMaxChannels else 0
  }

  /** The totals of both kinds after `n` tasks. */
  ghost predicate Totals(tasks: seq<Task>, nMax: seq<nat>, n: nat, trafficBytes: seq<nat>, nChannels: seq<nat>)
  {
    && n <= |tasks| && |trafficBytes| == |nChannels| == |nMax| == 2
    && forall k: nat :: k < 2 ==>
         trafficBytes[k] == SumTraffic(tasks, n, k) && nChannels[k] == Min(SumChannels(tasks, n, k), nMax[k])
  }

  lemma TotalsNext(tasks: seq<Task>, nMax: seq<nat>, n: nat, trafficBytes: seq<nat>, nChannels: seq<nat>, k: nat)
    requires Totals(tasks, nMax, n, trafficBytes, nChannels) && n < |tasks| && k == Kind(tasks[n])
    ensures Totals(tasks, nMax, n + 1, trafficBytes[k := trafficBytes[k] + Max(16384, tasks[n].trafficBytes)],
              nChannels[k := Min(nChannels[k] + tasks[n].nMaxChannels, nMax[k])])
  {
  }

  predicate TasksOk(tasks: seq<Task>, nMax: seq<nat>)
  {
    |nMax| == 2 && forall i :: 0 <= i < |tasks| ==> tasks[i].Valid() && 0 < nMax[Kind(tasks[i])]
  }

  /** How many tasks from the front pass the first budget test. */
  ghost predicate Counted(tasks: seq<Task>, fits: nat -> bool, nPlan: nat)
  {
    && nPlan <= |tasks| && (forall i :: 0 <= i < nPlan ==> fits(i)) && (nPlan < |tasks| ==> !fits(nPlan))
  }

  /**
   * The first loop: counts the tasks that fit into the plan (`fits` stands for the budget test)
   * and adds up their traffic and channels by kind.
   */
  method Estimate(tasks: seq<Task>, nMax: seq<nat>, fits: nat -> bool)
    returns (nPlan: nat, trafficBytes: seq<nat>, nChannels: seq<nat>)
    requires TasksOk(tasks, nMax)
    ensures Counted(tasks, fits, nPlan) && Totals(tasks, nMax, nPlan, trafficBytes, nChannels)
  {
    trafficBytes, nChannels, nPlan := [0, 0], [0, 0], 0;
    while nPlan < |tasks| && fits(nPlan)
      invariant Totals(tasks, nMax, nPlan, trafficBytes, nChannels) && forall i :: 0 <= i < nPlan ==> fits(i)
    {
      var t := tasks[nPlan];
      var k := Kind(t);
      TotalsNext(tasks, nMax, nPlan, trafficBytes, nChannels, k);
      trafficBytes := trafficBytes[k := trafficBytes[k] + Max(MIN_TRAFFIC_PER_CHANNEL, t.trafficBytes)];
      nChannels := nChannels[k := Min(nChannels[k] + t.nMaxChannels, nMax[k])];
      nPlan := nPlan + 1;
    }
  }

  /** The traffic each channel should get: the average over the channels of the kind, but at least 16K. */
  function Budget(tasks: seq<Task>, nPlan: nat, nMax: seq<nat>, k: nat): nat
    requires nPlan <= |tasks| && k < |nMax| && 0 < Min(SumChannels(tasks, nPlan, k), nMax[k])
  {
    Max(16384, SumTraffic(tasks, nPlan, k) / Min(SumChannels(tasks, nPlan, k), nMax[k]))
  }

  lemma {:induction false} HasChannels(tasks: seq<Task>, n: nat, i: nat)
    requires i < n <= |tasks| && 0 < tasks[i].nMaxChannels
    ensures 0 < SumChannels(tasks, n, Kind(tasks[i]))
  {
    if i < n - 1 { HasChannels(tasks, n - 1, i); }
  }

  /** The traffic of a task on channel `c`: that of its cells there. */
  function Amount(t: Task, sp: Split, c: nat): int
    requires t.Valid()
  {
    CellSizeFacts(t);
    if sp.channelLo <= c <= sp.channelHi then Traffic(t, DivUp(sp.Size(c), t.ElementsPerCell())) else 0
  }

  /** The traffic on channel `c` of the tasks before task `i` that follow each other with kind `k`. */
  function Load(tasks: seq<Task>, splits: seq<Split>, i: nat, k: nat, c: nat): int
    requires i <= |splits| <= |tasks| && forall j :: 0 <= j < i ==> tasks[j].Valid()
  {
    if i == 0 || Kind(tasks[i - 1]) != k then 0
    else Load(tasks, splits, i - 1, k, c) + Amount(tasks[i - 1], splits[i - 1], c)
  }

  lemma {:induction false} LoadExtends(tasks: seq<Task>, splits: seq<Split>, sp: Split, i: nat, k: nat, c: nat)
    requires i <= |splits| < |tasks| && forall j :: 0 <= j < i ==> tasks[j].Valid()
    ensures Load(tasks, splits + [sp], i, k, c) == Load(tasks, splits, i, k, c)
  {
    if i != 0 { LoadExtends(tasks, splits, sp, i - 1, k, c); }
  }

  /** The channel on which task `i` starts: where the one before it ended, or the next one if that is full. */
  function StartChannel(tasks: seq<Task>, splits: seq<Split>, perChannel: nat, nMax: nat, i: nat): nat
    requires i <= |splits| <= |tasks| && i < |tasks| && forall j :: 0 <= j < i ==> tasks[j].Valid()
  {
    var k := Kind(tasks[i]);
    if i == 0 || Kind(tasks[i - 1]) != k then 0
    else
      var h := splits[i - 1].channelHi;
      if perChannel <= Load(tasks, splits, i, k, h) && h + 1 != nMax then h + 1 else h
  }

  /**
   * Task `i` is tiled over the channels available to its kind.  It starts where the tasks before
   * it have left room, fills that channel up to the budget, and spreads the rest.
   */
  ghost predicate Scheduled(tasks: seq<Task>, splits: seq<Split>, nMax: seq<nat>, nPlan: nat, i: nat)
    requires i < nPlan <= |tasks| && i < |splits| <= |tasks| && TasksOk(tasks, nMax)
  {
    var t, sp, n := tasks[i], splits[i], nMax[Kind(tasks[i])];
    CellSizeFacts(t);
    HasChannels(tasks, nPlan, i);
    var perChannel := Budget(tasks, nPlan, nMax, Kind(t));
    && Tiles(sp, t) && sp.channelHi < n && sp.channelLo == StartChannel(tasks, splits, perChannel, n, i)
    && FillsBudget(sp, t, perChannel, n, Load(tasks, splits, i, Kind(t), sp.channelLo))
    && Spreads(sp, t, perChannel, n)
  }

  lemma ScheduledExtends(tasks: seq<Task>, splits: seq<Split>, sp: Split, nMax: seq<nat>, nPlan: nat, i: nat)
    requires i < nPlan <= |tasks| && i < |splits| < |tasks| && TasksOk(tasks, nMax)
    requires Scheduled(tasks, splits, nMax, nPlan, i)
    ensures Scheduled(tasks, splits + [sp], nMax, nPlan, i)
  {
    var k := Kind(tasks[i]);
    LoadExtends(tasks, splits, sp, i, k, splits[i].channelLo);
    if i != 0 { LoadExtends(tasks, splits, sp, i, k, splits[i - 1].channelHi); }
  }

  /** The loop's variables: the channel on which the next task of kind `k` starts, and the load there. */
  ghost predicate AtChannel(tasks: seq<Task>, splits: seq<Split>, k: nat, perChannel: nat, nMax: nat,
                            channelId: int, traffic: int)
    requires 0 < |splits| <= |tasks| && forall j :: 0 <= j < |splits| ==> tasks[j].Valid()
  {
    var n := |splits|;
    var h := splits[n - 1].channelHi;
    && (forall c: nat :: h < c ==> Load(tasks, splits, n, k, c) == 0)
    && (if perChannel <= Load(tasks, splits, n, k, h) && h + 1 != nMax then channelId == h + 1 && traffic == 0
        else channelId == h && traffic == Load(tasks, splits, n, k, h))
  }

  /** The load ahead of the next task, seen from the start channel. */
  ghost predicate Ahead(tasks: seq<Task>, splits: seq<Split>, k: nat, channelId: int, traffic: int)
    requires |splits| <= |tasks| && forall j :: 0 <= j < |splits| ==> tasks[j].Valid()
  {
    && 0 <= channelId && Load(tasks, splits, |splits|, k, channelId) == traffic
    && forall c: nat :: channelId < c ==> Load(tasks, splits, |splits|, k, c) == 0
  }

  lemma AdvanceLoad(tasks: seq<Task>, splits: seq<Split>, sp: Split, perChannel: nat, nMax: nat,
                    traffic: int, channelId': int, traffic': int)
    requires |splits| < |tasks| && forall j :: 0 <= j < |tasks| ==> tasks[j].Valid()
    requires var t := tasks[|splits|];
      && 0 < t.ElementsPerCell() && Tiles(sp, t) && 0 <= traffic
      && (channelId', traffic') == NextChannel(sp, t, perChannel, nMax, traffic)
    requires Ahead(tasks, splits, Kind(tasks[|splits|]), sp.channelLo, traffic)
    ensures AtChannel(tasks, splits + [sp], Kind(tasks[|splits|]), perChannel, nMax, channelId', traffic')
  {
    var n, t, k, all := |splits|, tasks[|splits|], Kind(tasks[|splits|]), splits + [sp];
    forall c: nat ensures Load(tasks, all, n + 1, k, c) == Load(tasks, splits, n, k, c) + Amount(t, sp, c) {
      LoadExtends(tasks, splits, sp, n, k, c);
    }
    assert sp.channelHi != sp.channelLo <==> sp.countHi != 0;
  }

  ghost predicate AllScheduled(tasks: seq<Task>, splits: seq<Split>, nMax: seq<nat>, nPlan: nat)
    requires |splits| <= nPlan <= |tasks| && TasksOk(tasks, nMax)
  {
    forall i: nat :: i < |splits| ==> Scheduled(tasks, splits, nMax, nPlan, i)
  }

  /** What the loop knows before each task. */
  ghost predicate Between(tasks: seq<Task>, splits: seq<Split>, nMax: seq<nat>, nPlan: nat, kindPrev: int,
                          perChannel: nat, channelId: int, traffic: int)
    requires |splits| <= nPlan <= |tasks| && TasksOk(tasks, nMax)
  {
    && AllScheduled(tasks, splits, nMax, nPlan)
    && if splits == [] then kindPrev == -1
       else kindPrev == Kind(tasks[|splits| - 1]) &&
            Running(tasks, splits, nMax, nPlan, kindPrev, perChannel, channelId, traffic)
  }

  /** One iteration of the second loop, up to the budget test. */
  method PlanTask(tasks: seq<Task>, nMax: seq<nat>, ghost splits: seq<Split>, ghost nPlan: nat, next: nat,
                  trafficBytes: seq<nat>, nChannels: seq<nat>, kindPrev: int, perChannel: nat, channelId: int,
                  traffic: int)
    returns (sp: Split, kind: nat, perChannel': nat, channelId': int, traffic': int)
    requires |splits| == next < nPlan <= |tasks| && TasksOk(tasks, nMax)
    requires Totals(tasks, nMax, nPlan, trafficBytes, nChannels)
    requires Between(tasks, splits, nMax, nPlan, kindPrev, perChannel, channelId, traffic)
    ensures Between(tasks, splits + [sp], nMax, nPlan, kind, perChannel', channelId', traffic')
  {
    var t := tasks[next];
    kind := Kind(t);
    perChannel', channelId', traffic' := perChannel, channelId, traffic;
    HasChannels(tasks, nPlan, next);
    if kind != kindPrev {
      perChannel' := Max(MIN_TRAFFIC_PER_CHANNEL, trafficBytes[kind] / nChannels[kind]);
      channelId', traffic' := 0, 0;
    }
    StartsHere(tasks, splits, nMax, nPlan, perChannel', channelId', traffic');
    ghost var start, load := channelId', traffic';
    sp, channelId', traffic' := SplitTask(t, perChannel', nMax[kind], channelId', traffic');
    TaskDone(tasks, splits, sp, nMax, nPlan, perChannel', start, load, channelId', traffic');
  }

  /** The second loop. */
  method SchedulePlan(tasks: seq<Task>, nMax: seq<nat>, fits: nat -> bool, admit: nat -> bool)
    returns (splits: seq<Split>, ghost nPlan: nat)
    requires TasksOk(tasks, nMax)
    ensures Counted(tasks, fits, nPlan) && |splits| <= nPlan && AllScheduled(tasks, splits, nMax, nPlan)
    ensures (forall i: nat :: i < |splits| ==> admit(i)) && (|splits| < nPlan ==> !admit(|splits|))
  {
    var left, trafficBytes, nChannels := Estimate(tasks, nMax, fits);
    nPlan := left;
    splits := [];
    var kindPrev: int, perChannel: nat, channelId: int, traffic: int := -1, 0, 0, 0;
    while left != 0
      invariant |splits| + left == nPlan && nPlan <= |tasks| && forall i: nat :: i < |splits| ==> admit(i)
      invariant Between(tasks, splits, nMax, nPlan, kindPrev, perChannel, channelId, traffic)
      decreases left
    {
      var sp;
      sp, kindPrev, perChannel, channelId, traffic := PlanTask(
        tasks, nMax, splits, nPlan, |splits|, trafficBytes, nChannels, kindPrev, perChannel, channelId, traffic);
      if !admit(|splits|) { return; }
      splits := splits + [sp];
      left := left - 1;
    }
  }

  /** What the loop knows between two tasks of kind `k`. */
  ghost predicate Running(tasks: seq<Task>, splits: seq<Split>, nMax: seq<nat>, nPlan: nat, k: int,
                          perChannel: nat, channelId: int, traffic: int)
    requires 0 < |splits| <= nPlan <= |tasks| && TasksOk(tasks, nMax)
  {
    && 0 <= k < 2 && 0 < Min(SumChannels(tasks, nPlan, k), nMax[k]) && perChannel == Budget(tasks, nPlan, nMax, k)
    && InBudget(channelId, traffic, perChannel, nMax[k])
    && AtChannel(tasks, splits, k, perChannel, nMax[k], channelId, traffic)
  }

  lemma StartsHere(tasks: seq<Task>, splits: seq<Split>, nMax: seq<nat>, nPlan: nat, perChannel: nat,
                   channelId: int, traffic: int)
    requires |splits| < nPlan <= |tasks| && TasksOk(tasks, nMax)
    requires var k := Kind(tasks[|splits|]);
      && 0 < Min(SumChannels(tasks, nPlan, k), nMax[k]) && perChannel == Budget(tasks, nPlan, nMax, k)
      && if splits == [] || Kind(tasks[|splits| - 1]) != k then channelId == 0 && traffic == 0
         else Running(tasks, splits, nMax, nPlan, k, perChannel, channelId, traffic)
    ensures var k := Kind(tasks[|splits|]);
      && InBudget(channelId, traffic, perChannel, nMax[k]) && Ahead(tasks, splits, k, channelId, traffic)
      && channelId == StartChannel(tasks, splits, perChannel, nMax[k], |splits|)
  {
  }

  lemma TaskDone(tasks: seq<Task>, splits: seq<Split>, sp: Split, nMax: seq<nat>, nPlan: nat, perChannel: nat,
                 channelId: int, traffic: int, channelId': int, traffic': int)
    requires |splits| < nPlan <= |tasks| && TasksOk(tasks, nMax)
    requires var t := tasks[|splits|]; var k := Kind(t); var n := nMax[k];
      && 0 < Min(SumChannels(tasks, nPlan, k), n) && perChannel == Budget(tasks, nPlan, nMax, k)
      && Ahead(tasks, splits, k, channelId, traffic) && 0 <= traffic && sp.channelLo == channelId
      && channelId == StartChannel(tasks, splits, perChannel, n, |splits|)
      && Tiles(sp, t) && sp.channelHi < n && InBudget(channelId', traffic', perChannel, n)
      && 0 < t.ElementsPerCell() && FillsBudget(sp, t, perChannel, n, traffic) && Spreads(sp, t, perChannel, n)
      && (channelId', traffic') == NextChannel(sp, t, perChannel, n, traffic)
    requires AllScheduled(tasks, splits, nMax, nPlan)
    ensures AllScheduled(tasks, splits + [sp], nMax, nPlan)
    ensures Running(tasks, splits + [sp], nMax, nPlan, Kind(tasks[|splits|]), perChannel, channelId', traffic')
  {
    var m, k, all := |splits|, Kind(tasks[|splits|]), splits + [sp];
    AdvanceLoad(tasks, splits, sp, perChannel, nMax[k], traffic, channelId', traffic');
    forall i: nat | i < m + 1 ensures Scheduled(tasks, all, nMax, nPlan, i) {
      if i < m {
        ScheduledExtends(tasks, splits, sp, nMax, nPlan, i);
      } else {
        LoadExtends(tasks, splits, sp, m, k, sp.channelLo);
        if m != 0 { LoadExtends(tasks, splits, sp, m, k, splits[m - 1].channelHi); }
      }
    }
  }

  lemma TrafficIs(t: Task, cells: nat)
    requires t.Valid()
    ensures Traffic(t, cells) == cells * (t.CellSize() * t.trafficPerByte)
  {
    CellSizeFacts(t);
    MulAssoc(cells * t.ElementsPerCell(), t.elementSize, t.trafficPerByte);
    MulAssoc(cells, t.ElementsPerCell(), t.elementSize);
    MulAssoc(cells, t.CellSize(), t.trafficPerByte);
  }

  /** A task whose cells do not fit into what is left of its first channel's budget goes on to the next one. */
  lemma Spills(sp: Split, t: Task, perChannel: nat, nMax: nat, traffic: nat)
    requires t.Valid() && 0 < t.ElementsPerCell() && Tiles(sp, t) && FillsBudget(sp, t, perChannel, nMax, traffic)
    requires sp.channelLo + 1 != nMax
    requires perChannel - traffic <= (DivUp(t.count, t.ElementsPerCell()) - 1) * (t.CellSize() * t.trafficPerByte)
    ensures sp.channelLo < sp.channelHi
  {
    assert sp.countHi == 0 ==> sp.countLo == t.count;
  }
}

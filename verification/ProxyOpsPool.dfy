/**
 * The pool of proxy ops shared by the ranks of a node and one progress thread
 * (nccl/src/proxy.cc).  All ops live in one array and are chained by index through `next`.
 * Clients take ops from a private free chain, fill them, and post whole chains; the progress
 * thread drains the posted chain and hands the ops back through `freeOps[r]` with a
 * compare-and-swap.
 *
 * A step of the state machine is one atomic access or one lock-protected section, together
 * with the writes around it to ops that no other thread can reach.
 */
module ProxyOpsPool {
  import opened Arith
  import opened LinkedChains

  /** Ops owned by each local rank: 2 * MAXCHANNELS * 2 * NCCL_MAX_DEV_WORK_P2P_PER_BATCH. */
  const MAX_OPS_PER_PEER: nat := 2 * 64 * 2 * 8

  datatype Op = Op(opCount: nat, payload: int)

  function Peer(i: nat): nat { i / MAX_OPS_PER_PEER }

  /**
   * The chains an op can be in, by the variable that holds the chain's head:
   * `Private(r)`   - `freeOp` of client r;            `Shared(r)` - `freeOps[r]` of the pool;
   * `Pending(r)`   - `nextOps` of client r;           `Posted`    - `nextOps` of the pool;
   * `Draining`     - `nextOps` of the progress state; `Returning(r)` - local `freeOp[r]`.
   * `Pending`, `Posted` and `Returning` also keep their last op in an `...End` variable.
   * `Lost(r)`      - in no chain of the program: the local `freeOp[r]` went out of scope.
   */
  datatype Place =
    | Private(r: nat)
    | Shared(r: nat)
    | Pending(r: nat)
    | Posted
    | Draining
    | Returning(r: nat)
    | Lost(r: nat)

  predicate Tailed(p: Place)
  {
    p.Pending? || p.Posted? || p.Returning?
  }

  // ---------------------------------------------------------------- state and steps

  /** `Full` - about to post because all ops are pending; `Failed` - that was refused. */
  datatype Mode = Ready | Full | Failed

  /**
   * Where the progress thread is; `Give(i, loaded, seen)` is the loop that returns ops to rank i,
   * and `Abandon(i)` the early return after an error, which drops the local chains one by one.
   */
  datatype Phase = Idle | Drain | Give(i: nat, loaded: bool, seen: int) | Abandon(i: nat)

  /** An op as the progress thread sees it: the rank it belongs to follows from its index. */
  datatype Entry = Entry(peer: nat, op: Op)

  /**
   * `head` and `tail` are the program variables listed at `Place`.  `submitted[r]` and
   * `processed` record the ops rank r appended and those given to `ProxyAppend`.
   */
  datatype State = State(
    next: seq<int>, ops: seq<Op>, head: Place -> int, tail: Place -> int,
    count: seq<nat>, mode: seq<Mode>, phase: Phase,
    submitted: seq<seq<Op>>, processed: seq<Entry>)

  datatype Event =
    | Refill(r: nat)                       // a successful exchange on freeOps[r]
    | Append(r: nat, op: Op)               // ncclLocalOpAppend up to the count test
    | PartialPost(r: nat, path: seq<nat>)  // its last part; `path` is what the loop walks over
    | Start(r: nat)                        // ncclProxyStart
    | Begin                                // ncclProxyGetPostedOps up to the loops
    | DrainOne
    | Fail                                 // an op without connection, or ProxyAppend fails on it
    | AbandonOne
    | EndDrain                             // end of chain or batch limit
    | GiveSkip
    | GiveLoad
    | GiveSwap                             // the compare-and-swap, failed or not
    | GiveSpurious                         // it fails although the value is the expected one

  ghost predicate Sized(s: State)
  {
    && |s.count| == |s.mode| == |s.submitted| && |s.next| == |s.ops| == |s.count| * MAX_OPS_PER_PEER
  }

  function At(next: seq<int>, i: int): int { if 0 <= i < |next| then next[i] else -1 }

  function Put<T>(q: seq<T>, i: int, x: T): (r: seq<T>)
    ensures |r| == |q|
  {
    if 0 <= i < |q| then q[i := x] else q
  }

  predicate Enabled(s: State, e: Event)
    requires Sized(s)
  {
    var n := |s.count|;
    match e
    case Refill(r) => r < n && !s.mode[r].Full? && s.head(Private(r)) == -1 && s.head(Shared(r)) != -1
    case Append(r, _) => r < n && !s.mode[r].Full? && s.head(Private(r)) != -1
    case PartialPost(r, path) =>
      r < n && s.mode[r].Full? && Path(s.next, path, s.head(Pending(r)), s.tail(Pending(r)))
    case Start(r) => r < n && !s.mode[r].Full?
    case Begin => s.phase.Idle?
    case DrainOne => s.phase.Drain? && s.head(Draining) != -1
    case Fail => s.phase.Drain? && s.head(Draining) != -1
    case AbandonOne => s.phase.Abandon?
    case EndDrain => s.phase.Drain?
    case GiveSkip => s.phase.Give? && (s.phase.i < n ==> s.head(Returning(s.phase.i)) == -1)
    case GiveLoad => s.phase.Give? && s.phase.i < n && !s.phase.loaded && s.head(Returning(s.phase.i)) != -1
    case GiveSwap => s.phase.Give? && s.phase.i < n && s.phase.loaded
    case GiveSpurious =>
      s.phase.Give? && s.phase.i < n && s.phase.loaded && s.head(Shared(s.phase.i)) == s.phase.seen
  }

  /** How many of the first `m` ops of a pending chain can be posted: up to the last whose opCount is not `c`. */
  function Cut(ops: seq<Op>, l: seq<nat>, m: nat, c: nat): (k: nat)
    requires m <= |l| && forall i :: 0 <= i < |l| ==> l[i] < |ops|
    ensures k <= m
    ensures 0 < k ==> ops[l[k - 1]].opCount != c
    ensures forall i :: k <= i < m ==> ops[l[i]].opCount == c
  {
    if m == 0 then 0 else if ops[l[m - 1]].opCount != c then m else Cut(ops, l, m - 1, c)
  }

  function CutOf(ops: seq<Op>, l: seq<nat>): (k: nat)
    requires l != [] && forall i :: 0 <= i < |l| ==> l[i] < |ops|
    ensures k < |l|
  {
    Cut(ops, l, |l| - 1, ops[Last(l)].opCount)
  }

  /** ncclProxyPost, under the pool's mutex. */
  function Post(s: State, first: int, last: int): State
    requires Sized(s)
  {
    s.(head := if s.head(Posted) == -1 then Upd(s.head, Posted, first) else s.head,
       next := if s.head(Posted) == -1 then s.next else Put(s.next, s.tail(Posted), first),
       tail := Upd(s.tail, Posted, last))
  }

  function ApplyAppend(s: State, r: nat, op: Op): State
    requires Sized(s) && Enabled(s, Append(r, op))
  {
    var i, empty, c := s.head(Private(r)), s.head(Pending(r)) == -1, s.count[r] + 1;
    var cleared := Put(s.next, i, -1);
    s.(next := if empty then cleared else Put(cleared, s.tail(Pending(r)), i),
       ops := Put(s.ops, i, op),
       head := Upd(Upd(s.head, Private(r), At(s.next, i)), Pending(r), if empty then i else s.head(Pending(r))),
       tail := Upd(s.tail, Pending(r), i),
       count := s.count[r := c],
       mode := if c == MAX_OPS_PER_PEER then s.mode[r := Full] else s.mode,
       submitted := s.submitted[r := s.submitted[r] + [op]])
  }

  function ApplyPartialPost(s: State, r: nat, path: seq<nat>): State
    requires Sized(s) && Enabled(s, PartialPost(r, path))
  {
    var k := CutOf(s.ops, path);
    if k == 0 then
      s.(mode := s.mode[r := Failed])
    else
      var last := path[k - 1];
      Post(s.(head := Upd(s.head, Pending(r), s.next[last]), next := s.next[last := -1],
              count := s.count[r := if k <= s.count[r] then s.count[r] - k else 0], mode := s.mode[r := Ready]),
           path[0], last)
  }

  function ApplyStart(s: State, r: nat): State
    requires Sized(s) && Enabled(s, Start(r))
  {
    if s.head(Pending(r)) == -1 then s else
    var t := Post(s, s.head(Pending(r)), s.tail(Pending(r)));
    t.(head := Upd(t.head, Pending(r), -1), tail := Upd(t.tail, Pending(r), -1), count := t.count[r := 0],
      mode := t.mode[r := Ready])
  }

  /** Takes the posted chain unless ops are left from the last call; clears the local `freeOp` array. */
  function ApplyBegin(s: State): State
    requires Sized(s) && Enabled(s, Begin)
  {
    var h := (p: Place) => if p.Returning? then -1 else s.head(p);
    if s.head(Draining) != -1 then
      s.(phase := Drain, head := h)
    else
      s.(phase := Drain, head := Upd(Upd(h, Draining, s.head(Posted)), Posted, -1), tail := Upd(s.tail, Posted, -1))
  }

  function ApplyDrainOne(s: State): State
    requires Sized(s) && Enabled(s, DrainOne)
  {
    var i := s.head(Draining);
    if !(0 <= i < |s.next|) then s else
    var q := Returning(Peer(i));
    var empty := s.head(q) == -1;
    s.(processed := s.processed + [Entry(Peer(i), s.ops[i])],
       tail := if empty then Upd(s.tail, q, i) else s.tail,
       next := if empty then s.next else s.next[i := s.head(q)],
       head := Upd(Upd(s.head, q, i), Draining, s.next[i]))
  }

  function ApplyGiveLoad(s: State): State
    requires Sized(s) && s.phase.Give? && s.phase.i < |s.count|
  {
    var seen := s.head(Shared(s.phase.i));
    s.(phase := Give(s.phase.i, true, seen), next := Put(s.next, s.tail(Returning(s.phase.i)), seen))
  }

  /** The failed op stays at the head of `nextOps`; the ops drained before it are forgotten. */
  function ApplyAbandon(s: State): State
    requires Sized(s) && Enabled(s, AbandonOne)
  {
    var i := s.phase.i;
    s.(head := Upd(s.head, Returning(i), -1), phase := if i + 1 < |s.count| then Abandon(i + 1) else Idle)
  }

  /** The loop ends because the expected value is unchanged, and nothing was swapped. */
  function ApplySpurious(s: State): State
    requires Sized(s) && Enabled(s, GiveSpurious)
  {
    var i := s.phase.i;
    s.(head := Upd(s.head, Returning(i), -1), phase := if i + 1 < |s.count| then Give(i + 1, false, -1) else Idle)
  }

  function Apply(s: State, e: Event): State
    requires Sized(s) && Enabled(s, e)
  {
    var n := |s.count|;
    match e
    case Refill(r) => s.(head := Upd(Upd(s.head, Private(r), s.head(Shared(r))), Shared(r), -1))
    case Append(r, op) => ApplyAppend(s, r, op)
    case PartialPost(r, path) => ApplyPartialPost(s, r, path)
    case Start(r) => ApplyStart(s, r)
    case Begin => ApplyBegin(s)
    case DrainOne => ApplyDrainOne(s)
    case Fail => s.(phase := Abandon(0))
    case AbandonOne => ApplyAbandon(s)
    case EndDrain => s.(phase := Give(0, false, -1))
    case GiveSkip => s.(phase := if s.phase.i + 1 < n then Give(s.phase.i + 1, false, -1) else Idle)
    case GiveLoad => ApplyGiveLoad(s)
    case GiveSpurious => ApplySpurious(s)
    case GiveSwap =>
      var i := s.phase.i;
      if s.head(Shared(i)) == s.phase.seen then
        s.(head := Upd(Upd(s.head, Shared(i), s.head(Returning(i))), Returning(i), -1), phase := Give(i, false, -1))
      else ApplyGiveLoad(s)
  }

  // ---------------------------------------------------------------- invariant

  /** A chain as the program sees it: head and tail variables, links, end mark. */
  predicate Chained(next: seq<int>, l: seq<nat>, head: int, tail: int, p: Place)
  {
    && head == Head(l) && Linked(next, l)
    && (l != [] ==> (Tailed(p) ==> tail == Last(l)) && (!p.Returning? ==> next[Last(l)] == -1))
  }

  /** The chain at place `x` as the program sees it. */
  predicate ChainAt(s: State, v: View<Place>, x: Place)
  {
    x.Lost? || Chained(s.next, v.lists(x), s.head(x), s.tail(x), x)
  }

  ghost predicate Chains(s: State, v: View<Place>)
    requires Sized(s)
  {
    forall p :: ChainAt(s, v, p)
  }

  /** The ops of rank r never enter another rank's chains. */
  ghost predicate AtHome(v: View<Place>)
  {
    forall j :: 0 <= j < |v.owner| ==> v.owner[j].Posted? || v.owner[j].Draining? || v.owner[j].r == Peer(j)
  }

  predicate CountFits(count: nat, mode: Mode, l: seq<nat>)
  {
    && count == |l| <= MAX_OPS_PER_PEER
    && (mode.Ready? <==> count < MAX_OPS_PER_PEER)
  }

  ghost predicate Counted(s: State, v: View<Place>)
    requires Sized(s) && Chains(s, v)
  {
    forall r: nat :: r < |s.count| ==> CountFits(s.count[r], s.mode[r], v.lists(Pending(r)))
  }

  /** While ops are returned to rank i, lower ranks have theirs; a loaded head is already linked in. */
  ghost predicate Phased(s: State, v: View<Place>)
    requires Sized(s) && Chains(s, v)
  {
    && (forall r: nat :: r < |s.count| && Given(s.phase, r) ==> v.lists(Returning(r)) == [])
    && (s.phase.Give? && s.phase.loaded && s.phase.i < |s.count| ==> LoadedLink(s, v, Returning(s.phase.i)))
  }

  predicate Given(phase: Phase, r: nat)
  {
    phase.Idle? || ((phase.Give? || phase.Abandon?) && r < phase.i)
  }

  ghost predicate LoadedLink(s: State, v: View<Place>, q: Place)
    requires s.phase.Give?
  {
    var l := v.lists(q);
    l != [] && Last(l) < |s.next| && s.next[Last(l)] == s.phase.seen
  }

  function Entries(ops: seq<Op>, l: seq<nat>): (q: seq<Entry>)
    requires Fit(l, |ops|)
    ensures |q| == |l|
  {
    seq(|l|, i requires 0 <= i < |l| => Entry(Peer(l[i]), ops[l[i]]))
  }

  /** The ops of rank r in a sequence of entries, in order. */
  function Of(r: nat, q: seq<Entry>): seq<Op>
  {
    if q == [] then [] else Of(r, q[..|q| - 1]) + if q[|q| - 1].peer == r then [q[|q| - 1].op] else []
  }

  /**
   * What rank r has submitted is what has been processed of it, then what is being drained, then
   * what is posted, then what is pending, in this order.
   */
  predicate OrderAt(ops: seq<Op>, processed: seq<Entry>, draining: seq<nat>, posted: seq<nat>, pending: seq<nat>,
                    submitted: seq<Op>, r: nat)
  {
    && Fit(draining, |ops|) && Fit(posted, |ops|) && Fit(pending, |ops|)
    && submitted == Of(r, processed + Entries(ops, draining) + Entries(ops, posted) + Entries(ops, pending))
  }

  ghost predicate InOrder(s: State, v: View<Place>)
    requires Sized(s) && Chains(s, v)
  {
    forall r: nat :: r < |s.count| ==>
      OrderAt(s.ops, s.processed, v.lists(Draining), v.lists(Posted), v.lists(Pending(r)), s.submitted[r], r)
  }

  ghost predicate Core(s: State, v: View<Place>)
  {
    Sized(s) && |v.owner| == |s.next| && Owns(v) && Chains(s, v) && AtHome(v) && Counted(s, v) && Phased(s, v)
  }

  ghost predicate Rep(s: State, v: View<Place>)
  {
    Core(s, v) && InOrder(s, v)
  }

  /** Each step moves one block of ops between two chains, or none. */
  function MotionOf(s: State, v: View<Place>, e: Event): Motion<Place>
    requires Sized(s) && Enabled(s, e)
  {
    match e
    case Refill(r) => Move(Shared(r), |v.lists(Shared(r))|, Private(r), false)
    case Append(r, _) => Move(Private(r), 1, Pending(r), false)
    case PartialPost(r, path) => Move(Pending(r), CutOf(s.ops, path), Posted, false)
    case Start(r) => Move(Pending(r), |v.lists(Pending(r))|, Posted, false)
    case Begin => if s.head(Draining) != -1 then Stay else Move(Posted, |v.lists(Posted)|, Draining, false)
    case DrainOne => if s.head(Draining) < 0 then Stay else Move(Draining, 1, Returning(Peer(s.head(Draining))), true)
    case Fail => Stay
    case AbandonOne => Move(Returning(s.phase.i), |v.lists(Returning(s.phase.i))|, Lost(s.phase.i), false)
    case EndDrain => Stay
    case GiveSkip => Stay
    case GiveLoad => Stay
    case GiveSpurious => Move(Returning(s.phase.i), |v.lists(Returning(s.phase.i))|, Lost(s.phase.i), false)
    case GiveSwap =>
      var i := s.phase.i;
      if s.head(Shared(i)) == s.phase.seen then Move(Returning(i), |v.lists(Returning(i))|, Shared(i), true) else Stay
  }

  // ---------------------------------------------------------------- steps keep the chains

  lemma ChainKept(next: seq<int>, l: seq<nat>, head: int, tail: int, p: Place, j: nat, y: int)
    requires Chained(next, l, head, tail, p) && j < |next| && forall i :: 0 <= i < |l| ==> l[i] != j
    ensures Chained(next[j := y], l, head, tail, p)
  {
    LinkedFrame(next, l, j, y);
  }

  /** Appending a whole chain behind another one, as `ncclProxyPost` does. */
  lemma ChainJoin(next: seq<int>, a: seq<nat>, tail: int, b: seq<nat>, last: int, p: Place)
    requires Chained(next, a, Head(a), tail, p) && Tailed(p) && !p.Returning?
    requires b != [] && Linked(next, b) && Last(b) == last && next[last] == -1 && Distinct(a + b)
    ensures a != [] ==> 0 <= tail < |next|
    ensures Chained(if a == [] then next else next[tail := b[0]], a + b, if a == [] then b[0] else Head(a), last, p)
  {
    if a == [] {
      assert a + b == b;
    } else {
      var next' := next[tail := b[0]];
      assert forall i :: 0 <= i < |a| - 1 ==> (a + b)[i] == a[i] && (a + b)[|a| - 1] == tail;
      LinkedFrame(next, a, tail, b[0]);
      forall i | 0 <= i < |b| ensures b[i] != tail { assert (a + b)[|a| + i] == b[i] && (a + b)[|a| - 1] == tail; }
      LinkedFrame(next, b, tail, b[0]);
      LinkedJoin(next', a, b);
      assert Last(a + b) == last && next'[last] == -1;
    }
  }

  /** Putting a chain in front of another one, as the return of ops does. */
  lemma ChainPrepend(next: seq<int>, a: seq<nat>, b: seq<nat>, tail: int, p: Place)
    requires a != [] && Linked(next, a) && Chained(next, b, Head(b), tail, p) && !Tailed(p)
    requires next[Last(a)] == Head(b)
    ensures Chained(next, a + b, a[0], tail, p)
  {
    LinkedJoin(next, a, b);
    if b == [] { assert a + b == a; } else { assert Last(a + b) == Last(b); }
  }

  /** A chain without its first `k` ops. */
  lemma ChainSuffix(next: seq<int>, l: seq<nat>, head: int, tail: int, p: Place, k: nat)
    requires Chained(next, l, head, tail, p) && !p.Returning? && 0 < k <= |l|
    ensures Chained(next, l[k..], next[l[k - 1]], tail, p)
  {
    LinkedSplit(next, l, k);
    if k < |l| { assert Last(l[k..]) == Last(l); }
  }

  /** The pending chain is the path the loop of `ncclLocalOpAppend` walks over. */
  lemma PendingPath(s: State, v: View<Place>, r: nat, path: seq<nat>)
    requires Core(s, v) && r < |s.count| && Path(s.next, path, s.head(Pending(r)), s.tail(Pending(r)))
    ensures path == v.lists(Pending(r))
  {
    var l := v.lists(Pending(r));
    assert ChainAt(s, v, Pending(r)) && OnceIn(v, Pending(r));
    assert Path(s.next, l, s.head(Pending(r)), s.tail(Pending(r)));
    PathUnique(s.next, l, path, s.head(Pending(r)), s.tail(Pending(r)));
  }

  lemma PeerBound(i: nat, n: nat)
    requires i < n * MAX_OPS_PER_PEER
    ensures Peer(i) < n
  {
  }

  lemma MotionFits(s: State, v: View<Place>, e: Event)
    requires Core(s, v) && Enabled(s, e)
    ensures CanMove(v, MotionOf(s, v, e))
  {
    match e
    case Refill(r) =>
    case Append(r, op) =>
      assert ChainAt(s, v, Private(r));
    case PartialPost(r, path) => PendingPath(s, v, r, path);
    case Start(r) =>
    case DrainOne =>
      assert ChainAt(s, v, Draining);
      PeerBound(s.head(Draining), |s.count|);
    case GiveSwap =>
    case _ =>
  }

  /** All that the step lemmas need to know about a place `x` and the places `p`, `q` a step touches. */
  ghost predicate Near(s: State, v: View<Place>, x: Place, p: Place, q: Place)
  {
    && !x.Lost? && !p.Lost? && !q.Lost? && ChainAt(s, v, x) && ChainAt(s, v, p) && ChainAt(s, v, q)
    && Distinct(v.lists(x)) && Distinct(v.lists(p)) && Distinct(v.lists(q))
    && (x != p ==> Disjoint(v.lists(x), v.lists(p))) && (x != q ==> Disjoint(v.lists(x), v.lists(q)))
    && (p != q ==> Disjoint(v.lists(p), v.lists(q)))
  }

  lemma NearBy(s: State, v: View<Place>, x: Place, p: Place, q: Place)
    requires Core(s, v) && !x.Lost? && !p.Lost? && !q.Lost?
    ensures Near(s, v, x, p, q)
  {
    assert ChainAt(s, v, x) && ChainAt(s, v, p) && ChainAt(s, v, q);
    assert OnceIn(v, x) && OnceIn(v, p) && OnceIn(v, q);
    if x != p { ListsApart(v, x, p); }
    if x != q { ListsApart(v, x, q); }
    if p != q { ListsApart(v, p, q); }
  }

  lemma RefillLists(v: View<Place>, r: nat, x: Place, w: View<Place>)
    requires v.lists(Private(r)) == [] && w == Moved(v, Move(Shared(r), |v.lists(Shared(r))|, Private(r), false))
    ensures w.lists(x) ==
      if x == Private(r) then v.lists(Shared(r)) else if x == Shared(r) then [] else v.lists(x)
  {
    var l := v.lists(Shared(r));
    assert l[..|l|] == l && [] + l == l && l[|l|..] == [];
  }

  lemma RefillChain(s: State, v: View<Place>, r: nat, x: Place, w: View<Place>)
    requires Sized(s) && Enabled(s, Refill(r)) && Near(s, v, x, Private(r), Shared(r))
    requires CanMove(v, MotionOf(s, v, Refill(r))) && w == Moved(v, MotionOf(s, v, Refill(r)))
    ensures ChainAt(Apply(s, Refill(r)), w, x)
  {
    RefillLists(v, r, x, w);
    var t := Apply(s, Refill(r));
    assert t.next == s.next && t.tail == s.tail;
  }

  /** An op taken from the head of `l` and linked behind `d`, seen from `l`, from `d` and from elsewhere. */
  lemma TakenFrom(next: seq<int>, l: seq<nat>, d: seq<nat>, lh: int, lt: int, dt: int, p: Place, q: Place)
    requires Chained(next, l, lh, lt, p) && !p.Returning? && l != [] && Distinct(l)
    requires d != [] ==> Linked(next, d) && dt == Last(d)
    requires forall i, k :: 0 <= i < |l| && 0 <= k < |d| ==> l[i] != d[k]
    ensures var cleared := next[l[0] := -1];
      Chained(if d == [] then cleared else cleared[dt := l[0]], l[1..], next[l[0]], lt, p)
  {
    var cleared := next[l[0] := -1];
    ChainSuffix(next, l, lh, lt, p, 1);
    ChainKept(next, l[1..], next[l[0]], lt, p, l[0], -1);
    if d != [] { ChainKept(cleared, l[1..], next[l[0]], lt, p, dt, l[0]); }
  }

  lemma LinkedBehind(next: seq<int>, i: nat, d: seq<nat>, dt: int, q: Place)
    requires i < |next| && Chained(next, d, Head(d), dt, q) && Tailed(q) && !q.Returning? && Distinct(d) && i !in d
    ensures var cleared := next[i := -1];
      Chained(if d == [] then cleared else cleared[dt := i], d + [i], if d == [] then i else Head(d), i, q)
  {
    var cleared := next[i := -1];
    ChainKept(next, d, Head(d), dt, q, i, -1);
    DistinctConcat(d, [i]);
    ChainJoin(cleared, d, dt, [i], i, q);
  }

  lemma AppendChain(s: State, v: View<Place>, r: nat, op: Op, x: Place, w: View<Place>)
    requires Sized(s) && Enabled(s, Append(r, op)) && Near(s, v, x, Private(r), Pending(r))
    requires CanMove(v, MotionOf(s, v, Append(r, op))) && w == Moved(v, MotionOf(s, v, Append(r, op)))
    ensures ChainAt(Apply(s, Append(r, op)), w, x)
  {
    var p, q := Private(r), Pending(r);
    var l, d := v.lists(p), v.lists(q);
    var i := l[0];
    assert l[..1] == [i];
    if x == p {
      TakenFrom(s.next, l, d, s.head(p), s.tail(p), s.tail(q), p, q);
    } else if x == q {
      LinkedBehind(s.next, i, d, s.tail(q), q);
    } else {
      ChainKept(s.next, v.lists(x), s.head(x), s.tail(x), x, i, -1);
      if d != [] { ChainKept(s.next[i := -1], v.lists(x), s.head(x), s.tail(x), x, Last(d), i); }
    }
  }

  /** The first `k` ops of a pending chain `l`, cut off and posted behind `d`: seen from `d`. */
  lemma PostedBehind(next: seq<int>, l: seq<nat>, lh: int, lt: int, p: Place, k: nat, d: seq<nat>, dt: int)
    requires Chained(next, l, lh, lt, p) && !p.Returning? && Distinct(l) && 0 < k <= |l|
    requires Chained(next, d, Head(d), dt, Posted) && Distinct(d)
    requires forall i, j :: 0 <= i < |l| && 0 <= j < |d| ==> l[i] != d[j]
    ensures var cut := next[l[k - 1] := -1];
      Chained(if d == [] then cut else cut[dt := l[0]], d + l[..k], if d == [] then l[0] else Head(d), l[k - 1], Posted)
  {
    var a, last := l[..k], l[k - 1];
    LinkedSplit(next, l, k);
    LinkedFrame(next, a, last, -1);
    ChainKept(next, d, Head(d), dt, Posted, last, -1);
    DistinctConcat(d, a);
    ChainJoin(next[last := -1], d, dt, a, last, Posted);
  }

  /** The same, seen from the rest of the pending chain. */
  lemma PostedFrom(next: seq<int>, l: seq<nat>, lh: int, lt: int, p: Place, k: nat, d: seq<nat>, dt: int)
    requires Chained(next, l, lh, lt, p) && !p.Returning? && Distinct(l) && 0 < k < |l|
    requires Chained(next, d, Head(d), dt, Posted)
    requires forall i, j :: 0 <= i < |l| && 0 <= j < |d| ==> l[i] != d[j]
    ensures var cut := next[l[k - 1] := -1];
      Chained(if d == [] then cut else cut[dt := l[0]], l[k..], next[l[k - 1]], lt, p)
  {
    var cut := next[l[k - 1] := -1];
    ChainSuffix(next, l, lh, lt, p, k);
    ChainKept(next, l[k..], next[l[k - 1]], lt, p, l[k - 1], -1);
    if d != [] { ChainKept(cut, l[k..], next[l[k - 1]], lt, p, Last(d), l[0]); }
  }

  /** The same, seen from any other chain. */
  lemma PostedAside(s: State, v: View<Place>, r: nat, k: nat, x: Place)
    requires Near(s, v, x, Pending(r), Posted) && x != Pending(r) && !x.Posted? && 0 < k <= |v.lists(Pending(r))|
    ensures var l, d := v.lists(Pending(r)), v.lists(Posted);
      var cut := s.next[l[k - 1] := -1];
      Chained(if d == [] then cut else cut[s.tail(Posted) := l[0]], v.lists(x), s.head(x), s.tail(x), x)
  {
    var l, d := v.lists(Pending(r)), v.lists(Posted);
    ChainKept(s.next, v.lists(x), s.head(x), s.tail(x), x, l[k - 1], -1);
    if d != [] {
      ChainKept(s.next[l[k - 1] := -1], v.lists(x), s.head(x), s.tail(x), x, Last(d), l[0]);
    }
  }

  ghost predicate Posts(s: State, v: View<Place>, e: Event, l: seq<nat>, k: nat)
  {
    && Sized(s) && Enabled(s, e) && ChainAt(s, v, Posted) && (e.PartialPost? || e.Start?) && l == v.lists(Pending(e.r))
    && (e.PartialPost? ==> e.path == l && k == CutOf(s.ops, l)) && (e.Start? ==> k == |l|)
    && ChainAt(s, v, Pending(e.r)) && k <= |l|
  }

  /** What posting `k` ops of the pending chain `l` does to `next`. */
  lemma PostNext(s: State, v: View<Place>, e: Event, l: seq<nat>, k: nat)
    requires Posts(s, v, e, l, k) && 0 < k
    ensures l[k - 1] < |s.next| && (v.lists(Posted) != [] ==> 0 <= s.tail(Posted) < |s.next|)
    ensures var cut := s.next[l[k - 1] := -1];
      Apply(s, e).next == (if v.lists(Posted) == [] then cut else cut[s.tail(Posted) := l[0]])
  {
    if e.Start? { assert s.next[l[k - 1] := -1] == s.next; }
  }

  /** What it does to the head variables. */
  lemma PostHeads(s: State, v: View<Place>, e: Event, l: seq<nat>, k: nat, x: Place)
    requires Posts(s, v, e, l, k) && 0 < k
    ensures Apply(s, e).head(x) ==
      if x == Pending(e.r) then s.next[l[k - 1]] else if x == Posted && v.lists(Posted) == [] then l[0] else s.head(x)
  {
    assert s.head(Posted) == -1 <==> v.lists(Posted) == [];
    if e.Start? {
      assert Apply(s, e) == ApplyStart(s, e.r) && s.head(Pending(e.r)) == l[0];
    } else {
      assert Apply(s, e) == ApplyPartialPost(s, e.r, l);
    }
  }

  /** What it does to the tail variables. */
  lemma PostTails(s: State, v: View<Place>, e: Event, l: seq<nat>, k: nat, x: Place)
    requires Posts(s, v, e, l, k) && 0 < k
    ensures Apply(s, e).tail(x) ==
      if x == Posted then l[k - 1] else if x == Pending(e.r) && e.Start? then -1 else s.tail(x)
  {
  }

  lemma PostLists(v: View<Place>, r: nat, k: nat, x: Place, w: View<Place>)
    requires k <= |v.lists(Pending(r))| && w == Moved(v, Move(Pending(r), k, Posted, false))
    ensures var l := v.lists(Pending(r));
      w.lists(x) == (if x == Pending(r) then l[k..] else if x == Posted then v.lists(x) + l[..k] else v.lists(x))
  {
  }

  lemma PostChain(s: State, v: View<Place>, e: Event, l: seq<nat>, k: nat, x: Place, w: View<Place>)
    requires Posts(s, v, e, l, k) && 0 < k && Near(s, v, x, Pending(e.r), Posted)
    requires w == Moved(v, Move(Pending(e.r), k, Posted, false))
    ensures ChainAt(Apply(s, e), w, x)
  {
    var p, d := Pending(e.r), v.lists(Posted);
    PostNext(s, v, e, l, k);
    PostHeads(s, v, e, l, k, x);
    PostTails(s, v, e, l, k, x);
    PostLists(v, e.r, k, x, w);
    if x == p {
      if k < |l| { PostedFrom(s.next, l, s.head(p), s.tail(p), p, k, d, s.tail(Posted)); }
    } else if x == Posted {
      PostedBehind(s.next, l, s.head(p), s.tail(p), p, k, d, s.tail(Posted));
    } else {
      PostedAside(s, v, e.r, k, x);
    }
  }

  /** Nothing to post: a refused cut, or an empty pending chain. */
  lemma PostNothing(s: State, v: View<Place>, e: Event, l: seq<nat>, x: Place, w: View<Place>)
    requires Posts(s, v, e, l, 0) && ChainAt(s, v, x)
    requires w == Moved(v, Move(Pending(e.r), 0, Posted, false))
    ensures ChainAt(Apply(s, e), w, x)
  {
    PostLists(v, e.r, 0, x, w);
    assert l[0..] == l && v.lists(Posted) + l[..0] == v.lists(Posted);
    var t := Apply(s, e);
    assert t.head == s.head && t.tail == s.tail && t.next == s.next;
  }

  lemma PostStepChain(s: State, v: View<Place>, e: Event, x: Place, w: View<Place>)
    requires Core(s, v) && !x.Lost? && Enabled(s, e) && (e.PartialPost? || e.Start?)
    requires CanMove(v, MotionOf(s, v, e)) && w == Moved(v, MotionOf(s, v, e))
    ensures ChainAt(Apply(s, e), w, x)
  {
    var l, k := v.lists(Pending(e.r)), MotionOf(s, v, e).k;
    NearBy(s, v, x, Pending(e.r), Posted);
    if e.PartialPost? { PendingPath(s, v, e.r, e.path); }
    if k == 0 { PostNothing(s, v, e, l, x, w); } else { PostChain(s, v, e, l, k, x, w); }
  }

  lemma BeginLists(v: View<Place>, x: Place, w: View<Place>)
    requires v.lists(Draining) == [] && w == Moved(v, Move(Posted, |v.lists(Posted)|, Draining, false))
    ensures w.lists(x) == if x == Draining then v.lists(Posted) else if x == Posted then [] else v.lists(x)
  {
    var l := v.lists(Posted);
    assert l[..|l|] == l && [] + l == l && l[|l|..] == [];
  }

  lemma BeginEnds(s: State, x: Place)
    requires Sized(s) && Enabled(s, Begin)
    ensures var t := ApplyBegin(s);
      && t.next == s.next
      && t.head(x) == (if x.Returning? then -1 else if s.head(Draining) != -1 then s.head(x)
                       else if x == Draining then s.head(Posted) else if x == Posted then -1 else s.head(x))
      && (x != Posted || s.head(Draining) != -1 ==> t.tail(x) == s.tail(x))
  {
  }

  lemma BeginChain(s: State, v: View<Place>, x: Place, w: View<Place>)
    requires Sized(s) && Enabled(s, Begin) && ChainAt(s, v, x) && ChainAt(s, v, Posted) && ChainAt(s, v, Draining)
    requires x.Returning? ==> v.lists(x) == []
    requires CanMove(v, MotionOf(s, v, Begin)) && w == Moved(v, MotionOf(s, v, Begin))
    ensures ChainAt(ApplyBegin(s), w, x)
  {
    BeginEnds(s, x);
    if s.head(Draining) == -1 { BeginLists(v, x, w); }
  }

  /** What draining one op does to the chains, spelled out. */
  lemma DrainEffect(s: State, v: View<Place>, i: nat, x: Place, w: View<Place>)
    requires Sized(s) && Enabled(s, DrainOne) && s.head(Draining) == i && Near(s, v, x, Draining, Returning(Peer(i)))
    requires CanMove(v, MotionOf(s, v, DrainOne)) && w == Moved(v, MotionOf(s, v, DrainOne))
    ensures var t, l, q := ApplyDrainOne(s), v.lists(Draining), Returning(Peer(i));
      && l != [] && l[0] == i < |s.next|
      && t.next == (if v.lists(q) == [] then s.next else s.next[i := v.lists(q)[0]])
      && w.lists(x) == (if x == Draining then l[1..] else if x == q then [i] + v.lists(q) else v.lists(x))
      && t.head(x) == (if x == Draining then s.next[i] else if x == q then i else s.head(x))
      && t.tail(x) == (if x == q && v.lists(q) == [] then i else s.tail(x))
  {
    assert v.lists(Draining)[..1] == [i];
  }

  /** An op put in front of a chain that is being returned. */
  lemma PushedFront(next: seq<int>, i: nat, d: seq<nat>, head: int, tail: int, q: Place)
    requires Chained(next, d, head, tail, q) && q.Returning? && i < |next| && i !in d
    ensures Chained(if d == [] then next else next[i := d[0]], [i] + d, i, if d == [] then i else tail, q)
  {
    if d != [] {
      LinkedFrame(next, d, i, d[0]);
      LinkedJoin(next[i := d[0]], [i], d);
      assert Last([i] + d) == Last(d);
    }
  }

  lemma DrainChain(s: State, v: View<Place>, i: nat, x: Place, w: View<Place>)
    requires Sized(s) && Enabled(s, DrainOne) && s.head(Draining) == i && Near(s, v, x, Draining, Returning(Peer(i)))
    requires CanMove(v, MotionOf(s, v, DrainOne)) && w == Moved(v, MotionOf(s, v, DrainOne))
    ensures ChainAt(ApplyDrainOne(s), w, x)
  {
    DrainEffect(s, v, i, x, w);
    var l, d := v.lists(Draining), v.lists(Returning(Peer(i)));
    if x == Draining {
      ChainSuffix(s.next, l, i, s.tail(x), x, 1);
      if d != [] { ChainKept(s.next, l[1..], s.next[i], s.tail(x), x, i, d[0]); }
    } else if x == Returning(Peer(i)) {
      PushedFront(s.next, i, d, s.head(x), s.tail(x), x);
    } else {
      if d != [] { ChainKept(s.next, v.lists(x), s.head(x), s.tail(x), x, i, d[0]); }
    }
  }

  lemma LoadChain(s: State, v: View<Place>, x: Place, q: Place)
    requires Sized(s) && s.phase.Give? && s.phase.i < |s.count| && q == Returning(s.phase.i)
    requires Near(s, v, x, q, Shared(s.phase.i)) && v.lists(q) != []
    ensures ChainAt(ApplyGiveLoad(s), v, x)
    ensures ApplyGiveLoad(s).next[Last(v.lists(q))] == s.head(Shared(s.phase.i))
  {
    var d := v.lists(q);
    if x == q {
      LinkedFrame(s.next, d, Last(d), s.head(Shared(s.phase.i)));
    } else {
      ChainKept(s.next, v.lists(x), s.head(x), s.tail(x), x, Last(d), s.head(Shared(s.phase.i)));
    }
  }

  lemma SwapChain(s: State, v: View<Place>, x: Place, q: Place, w: View<Place>)
    requires Sized(s) && Enabled(s, GiveSwap) && q == Returning(s.phase.i) && Near(s, v, x, q, Shared(s.phase.i))
    requires v.lists(q) != [] && s.next[Last(v.lists(q))] == s.phase.seen
    requires CanMove(v, MotionOf(s, v, GiveSwap)) && w == Moved(v, MotionOf(s, v, GiveSwap))
    ensures ChainAt(Apply(s, GiveSwap), w, x)
  {
    var p, l := Shared(s.phase.i), v.lists(q);
    assert l[..|l|] == l && l[|l|..] == [];
    if s.head(p) == s.phase.seen {
      ChainPrepend(s.next, l, v.lists(p), s.tail(p), p);
    } else {
      LoadChain(s, v, x, q);
    }
  }

  lemma ClientStepChain(s: State, v: View<Place>, e: Event, x: Place, w: View<Place>)
    requires Core(s, v) && !x.Lost? && Enabled(s, e) && (e.Refill? || e.Append?)
    requires CanMove(v, MotionOf(s, v, e)) && w == Moved(v, MotionOf(s, v, e))
    ensures ChainAt(Apply(s, e), w, x)
  {
    NearBy(s, v, x, Private(e.r), if e.Refill? then Shared(e.r) else Pending(e.r));
    if e.Refill? { RefillChain(s, v, e.r, x, w); } else { AppendChain(s, v, e.r, e.op, x, w); }
  }

  lemma BeginStepChain(s: State, v: View<Place>, x: Place, w: View<Place>)
    requires Core(s, v) && !x.Lost? && Enabled(s, Begin)
    requires CanMove(v, MotionOf(s, v, Begin)) && w == Moved(v, MotionOf(s, v, Begin))
    ensures ChainAt(ApplyBegin(s), w, x)
  {
    NearBy(s, v, x, Posted, Draining);
    if x.Returning? && v.lists(x) != [] {
      OwnedBy(v, x, v.lists(x)[0]);
      PeerBound(v.lists(x)[0], |s.count|);
      assert false;
    }
    BeginChain(s, v, x, w);
  }

  lemma DrainStepChain(s: State, v: View<Place>, x: Place, w: View<Place>)
    requires Core(s, v) && !x.Lost? && Enabled(s, DrainOne)
    requires CanMove(v, MotionOf(s, v, DrainOne)) && w == Moved(v, MotionOf(s, v, DrainOne))
    ensures ChainAt(ApplyDrainOne(s), w, x)
  {
    var i := s.head(Draining);
    assert ChainAt(s, v, Draining);
    NearBy(s, v, x, Draining, Returning(Peer(i)));
    DrainChain(s, v, i, x, w);
  }

  lemma GiveStepChain(s: State, v: View<Place>, e: Event, x: Place, w: View<Place>)
    requires Core(s, v) && !x.Lost? && Enabled(s, e) && (e.GiveLoad? || e.GiveSwap?)
    requires CanMove(v, MotionOf(s, v, e)) && w == Moved(v, MotionOf(s, v, e))
    ensures ChainAt(Apply(s, e), w, x)
  {
    var q := Returning(s.phase.i);
    NearBy(s, v, x, q, Shared(s.phase.i));
    if e.GiveLoad? { LoadChain(s, v, x, q); } else { SwapChain(s, v, x, q, w); }
  }

  lemma DropChain(s: State, v: View<Place>, e: Event, x: Place, w: View<Place>)
    requires Sized(s) && Enabled(s, e) && (e.AbandonOne? || e.GiveSpurious?) && ChainAt(s, v, x)
    requires CanMove(v, MotionOf(s, v, e)) && w == Moved(v, MotionOf(s, v, e))
    ensures ChainAt(Apply(s, e), w, x)
  {
    var l := v.lists(Returning(s.phase.i));
    assert l[|l|..] == [];
    assert Apply(s, e).next == s.next && Apply(s, e).tail == s.tail;
  }

  /** Every step keeps every chain. */
  lemma StepChain(s: State, v: View<Place>, e: Event, x: Place, w: View<Place>)
    requires Core(s, v) && Enabled(s, e) && CanMove(v, MotionOf(s, v, e)) && w == Moved(v, MotionOf(s, v, e))
    ensures ChainAt(Apply(s, e), w, x)
  {
    if x.Lost? { return; }
    match e
    case Refill(_) => ClientStepChain(s, v, e, x, w);
    case Append(_, _) => ClientStepChain(s, v, e, x, w);
    case PartialPost(_, _) => PostStepChain(s, v, e, x, w);
    case Start(_) => PostStepChain(s, v, e, x, w);
    case Begin => BeginStepChain(s, v, x, w);
    case DrainOne => DrainStepChain(s, v, x, w);
    case GiveLoad => GiveStepChain(s, v, e, x, w);
    case GiveSwap => GiveStepChain(s, v, e, x, w);
    case Fail => assert ChainAt(s, v, x);
    case AbandonOne => assert ChainAt(s, v, x); DropChain(s, v, e, x, w);
    case GiveSpurious => assert ChainAt(s, v, x); DropChain(s, v, e, x, w);
    case EndDrain => assert ChainAt(s, v, x);
    case GiveSkip => assert ChainAt(s, v, x);
  }

  lemma StepSized(s: State, e: Event)
    requires Sized(s) && Enabled(s, e)
    ensures Sized(Apply(s, e)) && |Apply(s, e).count| == |s.count| && |Apply(s, e).next| == |s.next|
  {
  }

  lemma StepChains(s: State, v: View<Place>, e: Event, w: View<Place>)
    requires Core(s, v) && Enabled(s, e) && CanMove(v, MotionOf(s, v, e)) && w == Moved(v, MotionOf(s, v, e))
    ensures Sized(Apply(s, e)) && Chains(Apply(s, e), w)
  {
    StepSized(s, e);
    MoveOwns(v, MotionOf(s, v, e));
    forall p: Place ensures ChainAt(Apply(s, e), w, p) {
      StepChain(s, v, e, p, w);
    }
  }

  // ---------------------------------------------------------------- steps keep the rest

  lemma StepAtHome(s: State, v: View<Place>, e: Event, w: View<Place>)
    requires Core(s, v) && Enabled(s, e) && CanMove(v, MotionOf(s, v, e)) && w == Moved(v, MotionOf(s, v, e))
    ensures AtHome(w)
  {
    var m := MotionOf(s, v, e);
    if m.Move? {
      forall j | 0 <= j < |w.owner|
        ensures w.owner[j].Posted? || w.owner[j].Draining? || w.owner[j].r == Peer(j) {
        OwnedBy(v, m.p, j);
        assert j in v.lists(m.p)[..m.k] ==> j in v.lists(m.p);
        if e.DrainOne? {
          assert ChainAt(s, v, Draining);
          assert v.lists(Draining)[..1] == [s.head(Draining)];
        }
      }
    }
  }

  ghost predicate CountAt(s: State, v: View<Place>, r: nat)
  {
    r < |s.count| == |s.mode| && CountFits(s.count[r], s.mode[r], v.lists(Pending(r)))
  }

  lemma PostTallies(s: State, v: View<Place>, e: Event, l: seq<nat>, k: nat)
    requires Posts(s, v, e, l, k) && s.count[e.r] == |l|
    ensures var t := Apply(s, e);
      && |t.count| == |t.mode| == |s.count| && t.count[e.r] == |l| - k
      && t.mode[e.r] ==
        (if e.PartialPost? then (if k == 0 then Failed else Ready) else if l == [] then s.mode[e.r] else Ready)
      && forall r :: 0 <= r < |s.count| && r != e.r ==> t.count[r] == s.count[r] && t.mode[r] == s.mode[r]
  {
  }

  lemma PostCount(s: State, v: View<Place>, e: Event, l: seq<nat>, k: nat, w: View<Place>, r: nat)
    requires Posts(s, v, e, l, k) && w == Moved(v, Move(Pending(e.r), k, Posted, false))
    requires CountAt(s, v, r) && CountAt(s, v, e.r)
    ensures CountAt(Apply(s, e), w, r)
  {
    PostLists(v, e.r, k, Pending(r), w);
    PostTallies(s, v, e, l, k);
    var t := Apply(s, e);
    if r != e.r { assert CountFits(t.count[r], t.mode[r], w.lists(Pending(r))); }
  }

  /** A client with a full pending chain has no op anywhere else. */
  lemma HoldsAll(s: State, v: View<Place>, r: nat, p: Place)
    requires Core(s, v) && r < |s.count| && !s.mode[r].Ready? && p != Pending(r) && !p.Posted? && !p.Draining?
    requires p.r == r
    ensures v.lists(p) == [] && (!p.Lost? ==> s.head(p) == -1)
  {
    var l := v.lists(Pending(r));
    assert CountFits(s.count[r], s.mode[r], l) && ChainAt(s, v, p);
    if v.lists(p) != [] {
      var j := v.lists(p)[0];
      OwnedBy(v, p, j);
      HasAll(s, v, r, j);
      OwnedBy(v, Pending(r), j);
      assert false;
    }
  }

  lemma HasAll(s: State, v: View<Place>, r: nat, j: nat)
    requires Core(s, v) && r < |s.count| && |v.lists(Pending(r))| == MAX_OPS_PER_PEER && Peer(j) == r
    ensures j in v.lists(Pending(r))
  {
    var l := v.lists(Pending(r));
    PendingPeers(s, v, r);
    assert OnceIn(v, Pending(r));
    var all, held := set x: nat | x in Block(r), set x: nat | x in l;
    DistinctCard(Block(r));
    DistinctCard(l);
    forall x | x in held ensures x in all { BlockMember(r, x); }
    SubsetCard(held, all);
    BlockMember(r, j);
    assert j in all;
  }

  lemma AppendCount(s: State, v: View<Place>, u: nat, op: Op, w: View<Place>, r: nat)
    requires Sized(s) && Enabled(s, Append(u, op)) && CanMove(v, MotionOf(s, v, Append(u, op)))
    requires w == Moved(v, MotionOf(s, v, Append(u, op))) && CountAt(s, v, r) && CountAt(s, v, u) && s.mode[u].Ready?
    ensures CountAt(Apply(s, Append(u, op)), w, r)
  {
  }

  lemma ProgressCount(s: State, v: View<Place>, e: Event, w: View<Place>, r: nat)
    requires Sized(s) && Enabled(s, e) && CanMove(v, MotionOf(s, v, e)) && w == Moved(v, MotionOf(s, v, e))
    requires CountAt(s, v, r) && !e.Append? && !e.PartialPost? && !e.Start?
    ensures CountAt(Apply(s, e), w, r)
  {
  }

  lemma CountKept(s: State, v: View<Place>, e: Event, w: View<Place>, r: nat)
    requires Core(s, v) && Enabled(s, e) && CanMove(v, MotionOf(s, v, e)) && w == Moved(v, MotionOf(s, v, e))
    requires r < |s.count|
    ensures CountAt(Apply(s, e), w, r)
  {
    assert CountAt(s, v, r);
    if e.Append? {
      assert CountAt(s, v, e.r);
      if s.mode[e.r].Failed? { HoldsAll(s, v, e.r, Private(e.r)); }
      AppendCount(s, v, e.r, e.op, w, r);
    } else if e.PartialPost? || e.Start? {
      assert CountAt(s, v, e.r) && ChainAt(s, v, Pending(e.r)) && ChainAt(s, v, Posted);
      if e.PartialPost? { PendingPath(s, v, e.r, e.path); }
      PostCount(s, v, e, v.lists(Pending(e.r)), MotionOf(s, v, e).k, w, r);
    } else {
      ProgressCount(s, v, e, w, r);
    }
  }

  lemma StepCounted(s: State, v: View<Place>, e: Event, w: View<Place>)
    requires Core(s, v) && Enabled(s, e) && CanMove(v, MotionOf(s, v, e)) && w == Moved(v, MotionOf(s, v, e))
    requires Sized(Apply(s, e)) && Chains(Apply(s, e), w)
    ensures Counted(Apply(s, e), w)
  {
    var t := Apply(s, e);
    StepSized(s, e);
    forall r: nat | r < |t.count| ensures CountFits(t.count[r], t.mode[r], w.lists(Pending(r))) {
      CountKept(s, v, e, w, r);
    }
  }

  /** A client's step writes no op of another chain than the two it moves ops between. */
  lemma AppendKeepsNext(s: State, v: View<Place>, r: nat, op: Op, q: Place)
    requires Sized(s) && Enabled(s, Append(r, op)) && q.Returning? && Near(s, v, q, Private(r), Pending(r))
    requires v.lists(q) != []
    ensures Apply(s, Append(r, op)).next[Last(v.lists(q))] == s.next[Last(v.lists(q))]
  {
    var l, d, j := v.lists(Private(r)), v.lists(Pending(r)), Last(v.lists(q));
    assert j != l[0] && (d != [] ==> j != Last(d));
  }

  lemma PostKeepsNext(s: State, v: View<Place>, e: Event, q: Place)
    requires Sized(s) && Enabled(s, e) && (e.PartialPost? || e.Start?) && q.Returning?
    requires Near(s, v, q, Pending(e.r), Posted) && v.lists(q) != []
    requires e.PartialPost? ==> e.path == v.lists(Pending(e.r))
    ensures Apply(s, e).next[Last(v.lists(q))] == s.next[Last(v.lists(q))]
  {
    var l, d, j := v.lists(Pending(e.r)), v.lists(Posted), Last(v.lists(q));
    assert (l != [] ==> j != Last(l)) && (d != [] ==> j != Last(d));
    if e.PartialPost? {
      var k := CutOf(s.ops, l);
      assert 0 < k ==> j != l[k - 1];
    }
  }

  lemma ClientKeepsNext(s: State, v: View<Place>, e: Event, q: Place)
    requires Core(s, v) && Enabled(s, e) && q.Returning? && v.lists(q) != []
    requires e.Refill? || e.Append? || e.PartialPost? || e.Start?
    ensures var j := Last(v.lists(q)); j < |s.next| && Apply(s, e).next[j] == s.next[j]
  {
    assert ChainAt(s, v, q);
    match e
    case Refill(r) =>
    case Append(r, op) => NearBy(s, v, q, Private(r), Pending(r)); AppendKeepsNext(s, v, r, op, q);
    case PartialPost(r, path) =>
      PendingPath(s, v, r, path);
      NearBy(s, v, q, Pending(r), Posted);
      PostKeepsNext(s, v, e, q);
    case Start(r) => NearBy(s, v, q, Pending(r), Posted); PostKeepsNext(s, v, e, q);
  }

  lemma StepGiven(s: State, v: View<Place>, e: Event, w: View<Place>, r: nat)
    requires Sized(s) && Enabled(s, e) && CanMove(v, MotionOf(s, v, e)) && w == Moved(v, MotionOf(s, v, e))
    requires r < |s.count| && ChainAt(s, v, Returning(r)) && (Given(s.phase, r) ==> v.lists(Returning(r)) == [])
    requires Given(Apply(s, e).phase, r)
    ensures w.lists(Returning(r)) == []
  {
  }

  /** Apart from the two steps that link a loaded head, only clients move while one is loaded. */
  lemma LoadedEvents(s: State, e: Event)
    requires Sized(s) && Enabled(s, e) && Apply(s, e).phase.Give? && Apply(s, e).phase.loaded
    ensures e.GiveLoad? || e.GiveSwap? ||
      ((e.Refill? || e.Append? || e.PartialPost? || e.Start?) && Apply(s, e).phase == s.phase)
    ensures e.GiveSwap? ==> s.head(Shared(s.phase.i)) != s.phase.seen
  {
  }

  lemma LoadLinks(s: State, v: View<Place>, e: Event, q: Place)
    requires Sized(s) && Enabled(s, e) && s.phase.Give? && q == Returning(s.phase.i)
    requires e.GiveLoad? || (e.GiveSwap? && s.head(Shared(s.phase.i)) != s.phase.seen)
    requires Near(s, v, q, q, Shared(s.phase.i)) && v.lists(q) != []
    ensures LoadedLink(Apply(s, e), v, q)
  {
    LoadChain(s, v, q, q);
    assert Apply(s, e) == ApplyGiveLoad(s);
  }

  lemma ClientKeepsLink(s: State, v: View<Place>, e: Event, w: View<Place>, q: Place)
    requires Core(s, v) && Enabled(s, e) && CanMove(v, MotionOf(s, v, e)) && w == Moved(v, MotionOf(s, v, e))
    requires e.Refill? || e.Append? || e.PartialPost? || e.Start?
    requires Apply(s, e).phase == s.phase && s.phase.Give? && q.Returning? && LoadedLink(s, v, q)
    ensures LoadedLink(Apply(s, e), w, q)
  {
    ClientKeepsNext(s, v, e, q);
    StepSized(s, e);
    assert w.lists(q) == v.lists(q);
  }

  lemma StepLoaded(s: State, v: View<Place>, e: Event, w: View<Place>, q: Place)
    requires Core(s, v) && Enabled(s, e) && CanMove(v, MotionOf(s, v, e)) && w == Moved(v, MotionOf(s, v, e))
    requires Apply(s, e).phase.Give? && Apply(s, e).phase.loaded && q == Returning(Apply(s, e).phase.i)
    requires q.r < |s.count|
    ensures LoadedLink(Apply(s, e), w, q)
  {
    LoadedEvents(s, e);
    if e.GiveLoad? || e.GiveSwap? {
      NearBy(s, v, q, q, Shared(s.phase.i));
      LoadLinks(s, v, e, q);
    } else {
      ClientKeepsLink(s, v, e, w, q);
    }
  }

  lemma StepPhased(s: State, v: View<Place>, e: Event, w: View<Place>)
    requires Core(s, v) && Enabled(s, e) && CanMove(v, MotionOf(s, v, e)) && w == Moved(v, MotionOf(s, v, e))
    requires Sized(Apply(s, e)) && Chains(Apply(s, e), w)
    ensures Phased(Apply(s, e), w)
  {
    var t := Apply(s, e);
    StepSized(s, e);
    forall r: nat | r < |t.count| && Given(t.phase, r) ensures w.lists(Returning(r)) == [] {
      assert ChainAt(s, v, Returning(r));
      StepGiven(s, v, e, w, r);
    }
    if t.phase.Give? && t.phase.loaded && t.phase.i < |t.count| {
      StepLoaded(s, v, e, w, Returning(t.phase.i));
    }
  }

  // ---------------------------------------------------------------- steps keep the order

  lemma {:induction false} OfConcat(r: nat, a: seq<Entry>, b: seq<Entry>)
    ensures Of(r, a + b) == Of(r, a) + Of(r, b)
  {
    if b == [] {
      assert a + b == a;
    } else {
      var c := b[..|b| - 1];
      OfConcat(r, a, c);
      assert (a + b)[..|a + b| - 1] == a + c;
    }
  }

  lemma {:induction false} OfOthers(r: nat, q: seq<Entry>)
    requires forall i :: 0 <= i < |q| ==> q[i].peer != r
    ensures Of(r, q) == []
  {
    if q != [] { OfOthers(r, q[..|q| - 1]); }
  }

  lemma EntriesConcat(ops: seq<Op>, a: seq<nat>, b: seq<nat>)
    requires Fit(a, |ops|) && Fit(b, |ops|)
    ensures Fit(a + b, |ops|) && Entries(ops, a + b) == Entries(ops, a) + Entries(ops, b)
  {
  }

  lemma EntriesFrame(ops: seq<Op>, l: seq<nat>, i: nat, x: Op)
    requires Fit(l, |ops|) && i < |ops| && i !in l
    ensures Entries(ops[i := x], l) == Entries(ops, l)
  {
  }

  /** Appending an op to the own pending chain, or to another rank's. */
  lemma OrderAppend(ops: seq<Op>, processed: seq<Entry>, dr: seq<nat>, po: seq<nat>, pe: seq<nat>, sub: seq<Op>,
                    r: nat, i: nat, op: Op)
    requires OrderAt(ops, processed, dr, po, pe, sub, r) && i < |ops| && i !in dr && i !in po && i !in pe
    ensures OrderAt(ops[i := op], processed, dr, po, pe, sub, r)
    ensures Peer(i) == r ==> OrderAt(ops[i := op], processed, dr, po, pe + [i], sub + [op], r)
  {
    var ops1 := ops[i := op];
    EntriesFrame(ops, dr, i, op);
    EntriesFrame(ops, po, i, op);
    EntriesFrame(ops, pe, i, op);
    EntriesConcat(ops1, pe, [i]);
    var f := processed + Entries(ops1, dr) + Entries(ops1, po);
    assert Entries(ops1, [i]) == [Entry(Peer(i), op)];
    assert f + Entries(ops1, pe + [i]) == (f + Entries(ops1, pe)) + [Entry(Peer(i), op)];
    OfConcat(r, f + Entries(ops1, pe), [Entry(Peer(i), op)]);
    assert [Entry(Peer(i), op)][..0] == [];
  }

  /** Posting a block of the own pending chain. */
  lemma OrderPost(ops: seq<Op>, processed: seq<Entry>, dr: seq<nat>, po: seq<nat>, block: seq<nat>, rest: seq<nat>,
                  sub: seq<Op>, r: nat)
    requires Fit(block, |ops|) && Fit(rest, |ops|) && OrderAt(ops, processed, dr, po, block + rest, sub, r)
    ensures OrderAt(ops, processed, dr, po + block, rest, sub, r)
  {
    EntriesConcat(ops, po, block);
    EntriesConcat(ops, block, rest);
    var f := processed + Entries(ops, dr);
    assert f + Entries(ops, po + block) + Entries(ops, rest) == f + Entries(ops, po) + Entries(ops, block + rest);
  }

  predicate AllOf(l: seq<nat>, u: nat)
  {
    forall i :: 0 <= i < |l| ==> Peer(l[i]) == u
  }

  /** Posting a block of another rank's pending chain. */
  lemma OrderPostOther(ops: seq<Op>, processed: seq<Entry>, dr: seq<nat>, po: seq<nat>, block: seq<nat>, pe: seq<nat>,
                       sub: seq<Op>, r: nat, u: nat)
    requires OrderAt(ops, processed, dr, po, pe, sub, r) && Fit(block, |ops|) && AllOf(block, u) && u != r
    ensures OrderAt(ops, processed, dr, po + block, pe, sub, r)
  {
    EntriesConcat(ops, po, block);
    var f, b, p := processed + Entries(ops, dr) + Entries(ops, po), Entries(ops, block), Entries(ops, pe);
    assert processed + Entries(ops, dr) + Entries(ops, po + block) == f + b;
    OfOthers(r, b);
    OfConcat(r, f, b);
    OfConcat(r, f + b, p);
    OfConcat(r, f, p);
  }

  /** Draining one op, and taking the posted chain. */
  lemma OrderDrain(ops: seq<Op>, processed: seq<Entry>, dr: seq<nat>, po: seq<nat>, pe: seq<nat>, sub: seq<Op>, r: nat)
    requires OrderAt(ops, processed, dr, po, pe, sub, r)
    ensures dr != [] ==> OrderAt(ops, processed + [Entry(Peer(dr[0]), ops[dr[0]])], dr[1..], po, pe, sub, r)
    ensures dr == [] ==> OrderAt(ops, processed, po, [], pe, sub, r)
  {
    if dr != [] {
      var h := [Entry(Peer(dr[0]), ops[dr[0]])];
      assert dr == [dr[0]] + dr[1..] && Entries(ops, [dr[0]]) == h;
      EntriesConcat(ops, [dr[0]], dr[1..]);
      assert processed + Entries(ops, dr) == processed + h + Entries(ops, dr[1..]);
    } else {
      assert processed + Entries(ops, dr) + Entries(ops, po) == processed + Entries(ops, po) + Entries(ops, dr);
    }
  }

  ghost predicate OrderHolds(s: State, v: View<Place>, r: nat)
  {
    && r < |s.submitted|
    && OrderAt(s.ops, s.processed, v.lists(Draining), v.lists(Posted), v.lists(Pending(r)), s.submitted[r], r)
  }

  lemma AppendOrder(s: State, v: View<Place>, u: nat, op: Op, i: nat, w: View<Place>, r: nat)
    requires Sized(s) && Enabled(s, Append(u, op)) && r < |s.count| && OrderHolds(s, v, r)
    requires CanMove(v, MotionOf(s, v, Append(u, op))) && w == Moved(v, MotionOf(s, v, Append(u, op)))
    requires |v.lists(Private(u))| > 0 && v.lists(Private(u))[0] == i == s.head(Private(u)) && i < |s.ops|
    requires Peer(i) == u
    requires i !in v.lists(Draining) && i !in v.lists(Posted) && i !in v.lists(Pending(r))
    ensures OrderHolds(Apply(s, Append(u, op)), w, r)
  {
    var t := Apply(s, Append(u, op));
    assert v.lists(Private(u))[..1] == [i];
    OrderAppend(s.ops, s.processed, v.lists(Draining), v.lists(Posted), v.lists(Pending(r)), s.submitted[r], r, i, op);
    assert t.ops == s.ops[i := op] && t.processed == s.processed;
    assert w.lists(Draining) == v.lists(Draining) && w.lists(Posted) == v.lists(Posted);
    if r == u {
      assert w.lists(Pending(r)) == v.lists(Pending(r)) + [i] && t.submitted[r] == s.submitted[r] + [op];
    } else {
      assert w.lists(Pending(r)) == v.lists(Pending(r)) && t.submitted[r] == s.submitted[r];
    }
  }

  lemma PostLogs(s: State, e: Event)
    requires Sized(s) && Enabled(s, e) && (e.PartialPost? || e.Start?)
    ensures Apply(s, e).ops == s.ops && Apply(s, e).processed == s.processed && Apply(s, e).submitted == s.submitted
  {
  }

  lemma PostOrderOther(s: State, v: View<Place>, t: State, w: View<Place>, r: nat, u: nat, block: seq<nat>)
    requires OrderHolds(s, v, r) && t.ops == s.ops && t.processed == s.processed && t.submitted == s.submitted
    requires Fit(block, |s.ops|) && AllOf(block, u) && u != r
    requires w.lists(Posted) == v.lists(Posted) + block
    requires w.lists(Draining) == v.lists(Draining) && w.lists(Pending(r)) == v.lists(Pending(r))
    ensures OrderHolds(t, w, r)
  {
    OrderPostOther(s.ops, s.processed, v.lists(Draining), v.lists(Posted), block, v.lists(Pending(r)), s.submitted[r],
      r, u);
  }

  lemma PostOrderOwn(s: State, v: View<Place>, t: State, w: View<Place>, r: nat, k: nat, l: seq<nat>)
    requires OrderHolds(s, v, r) && t.ops == s.ops && t.processed == s.processed && t.submitted == s.submitted
    requires l == v.lists(Pending(r)) && k <= |l| && w.lists(Posted) == v.lists(Posted) + l[..k]
    requires w.lists(Draining) == v.lists(Draining) && w.lists(Pending(r)) == l[k..]
    ensures OrderHolds(t, w, r)
  {
    assert l == l[..k] + l[k..];
    OrderPost(s.ops, s.processed, v.lists(Draining), v.lists(Posted), l[..k], l[k..], s.submitted[r], r);
  }

  lemma BeginOrder(s: State, v: View<Place>, w: View<Place>, r: nat)
    requires Sized(s) && Enabled(s, Begin) && r < |s.count| && OrderHolds(s, v, r)
    requires CanMove(v, MotionOf(s, v, Begin)) && w == Moved(v, MotionOf(s, v, Begin))
    requires ChainAt(s, v, Draining)
    ensures OrderHolds(ApplyBegin(s), w, r)
  {
    OrderDrain(s.ops, s.processed, v.lists(Draining), v.lists(Posted), v.lists(Pending(r)), s.submitted[r], r);
    var l := v.lists(Posted);
    assert l[..|l|] == l && [] + l == l && l[|l|..] == [];
    assert w.lists(Pending(r)) == v.lists(Pending(r));
  }

  lemma DrainOrder(s: State, v: View<Place>, w: View<Place>, r: nat)
    requires Sized(s) && Enabled(s, DrainOne) && r < |s.count| && OrderHolds(s, v, r)
    requires CanMove(v, MotionOf(s, v, DrainOne)) && w == Moved(v, MotionOf(s, v, DrainOne))
    requires ChainAt(s, v, Draining)
    ensures OrderHolds(ApplyDrainOne(s), w, r)
  {
    OrderDrain(s.ops, s.processed, v.lists(Draining), v.lists(Posted), v.lists(Pending(r)), s.submitted[r], r);
    assert w.lists(Pending(r)) == v.lists(Pending(r)) && w.lists(Posted) == v.lists(Posted);
    assert w.lists(Draining) == v.lists(Draining)[1..];
  }

  lemma GiveOrder(s: State, v: View<Place>, e: Event, w: View<Place>, r: nat)
    requires Sized(s) && Enabled(s, e) && r < |s.count| && OrderHolds(s, v, r)
    requires !e.Append? && !e.PartialPost? && !e.Start? && !e.Begin? && !e.DrainOne?
    requires CanMove(v, MotionOf(s, v, e)) && w == Moved(v, MotionOf(s, v, e))
    ensures OrderHolds(Apply(s, e), w, r)
  {
    assert w.lists(Pending(r)) == v.lists(Pending(r)) && w.lists(Posted) == v.lists(Posted);
    assert w.lists(Draining) == v.lists(Draining);
  }

  lemma PendingPeers(s: State, v: View<Place>, u: nat)
    requires Core(s, v) && u < |s.count|
    ensures AllOf(v.lists(Pending(u)), u) && Fit(v.lists(Pending(u)), |s.ops|)
  {
    var l := v.lists(Pending(u));
    assert ChainAt(s, v, Pending(u));
    forall i | 0 <= i < |l| ensures Peer(l[i]) == u { OwnedBy(v, Pending(u), l[i]); }
  }

  lemma PostOrder(s: State, v: View<Place>, t: State, w: View<Place>, r: nat, u: nat, k: nat, l: seq<nat>)
    requires OrderHolds(s, v, r) && t.ops == s.ops && t.processed == s.processed && t.submitted == s.submitted
    requires l == v.lists(Pending(u)) && AllOf(l, u) && Fit(l, |s.ops|) && k <= |l|
    requires w == Moved(v, Move(Pending(u), k, Posted, false))
    ensures OrderHolds(t, w, r)
  {
    PostLists(v, u, k, Posted, w);
    PostLists(v, u, k, Draining, w);
    PostLists(v, u, k, Pending(r), w);
    if r == u { PostOrderOwn(s, v, t, w, r, k, l); } else { PostOrderOther(s, v, t, w, r, u, l[..k]); }
  }

  lemma PostStepOrder(s: State, v: View<Place>, e: Event, w: View<Place>, r: nat)
    requires Core(s, v) && Enabled(s, e) && (e.PartialPost? || e.Start?) && r < |s.count| && OrderHolds(s, v, r)
    requires CanMove(v, MotionOf(s, v, e)) && w == Moved(v, MotionOf(s, v, e))
    ensures OrderHolds(Apply(s, e), w, r)
  {
    PendingPeers(s, v, e.r);
    PostLogs(s, e);
    PostOrder(s, v, Apply(s, e), w, r, e.r, MotionOf(s, v, e).k, v.lists(Pending(e.r)));
  }

  lemma AppendStepOrder(s: State, v: View<Place>, e: Event, w: View<Place>, r: nat)
    requires Core(s, v) && Enabled(s, e) && e.Append? && r < |s.count| && OrderHolds(s, v, r)
    requires CanMove(v, MotionOf(s, v, e)) && w == Moved(v, MotionOf(s, v, e))
    ensures OrderHolds(Apply(s, e), w, r)
  {
    var p := Private(e.r);
    assert ChainAt(s, v, p);
    var i := v.lists(p)[0];
    OwnedBy(v, p, i);
    Apart(v, p, i, Posted);
    Apart(v, p, i, Draining);
    Apart(v, p, i, Pending(r));
    AppendOrder(s, v, e.r, e.op, i, w, r);
  }

  lemma ProgressStepOrder(s: State, v: View<Place>, e: Event, w: View<Place>, r: nat)
    requires Core(s, v) && Enabled(s, e) && !e.Append? && !e.PartialPost? && !e.Start? && r < |s.count|
    requires OrderHolds(s, v, r)
    requires CanMove(v, MotionOf(s, v, e)) && w == Moved(v, MotionOf(s, v, e))
    ensures OrderHolds(Apply(s, e), w, r)
  {
    assert ChainAt(s, v, Draining);
    if e.Begin? {
      BeginOrder(s, v, w, r);
    } else if e.DrainOne? {
      DrainOrder(s, v, w, r);
    } else {
      GiveOrder(s, v, e, w, r);
    }
  }

  lemma StepOrder(s: State, v: View<Place>, e: Event, w: View<Place>)
    requires Core(s, v) && InOrder(s, v) && Enabled(s, e)
    requires CanMove(v, MotionOf(s, v, e)) && w == Moved(v, MotionOf(s, v, e))
    requires Sized(Apply(s, e)) && Chains(Apply(s, e), w) && |Apply(s, e).count| == |s.count|
    ensures InOrder(Apply(s, e), w)
  {
    var t := Apply(s, e);
    forall r: nat | r < |t.count|
      ensures OrderAt(t.ops, t.processed, w.lists(Draining), w.lists(Posted), w.lists(Pending(r)), t.submitted[r], r) {
      assert OrderHolds(s, v, r);
      if e.Append? {
        AppendStepOrder(s, v, e, w, r);
      } else if e.PartialPost? || e.Start? {
        PostStepOrder(s, v, e, w, r);
      } else {
        ProgressStepOrder(s, v, e, w, r);
      }
    }
  }

  lemma StepCore(s: State, v: View<Place>, e: Event, w: View<Place>)
    requires Core(s, v) && Enabled(s, e) && CanMove(v, MotionOf(s, v, e)) && w == Moved(v, MotionOf(s, v, e))
    ensures Core(Apply(s, e), w) && |Apply(s, e).count| == |s.count|
  {
    MoveOwns(v, MotionOf(s, v, e));
    StepSized(s, e);
    StepChains(s, v, e, w);
    StepAtHome(s, v, e, w);
    StepCounted(s, v, e, w);
    StepPhased(s, v, e, w);
  }

  /** Every step of every thread keeps the whole invariant. */
  lemma StepKeeps(s: State, v: View<Place>, e: Event) returns (w: View<Place>)
    requires Rep(s, v) && Enabled(s, e)
    ensures Rep(Apply(s, e), w)
  {
    MotionFits(s, v, e);
    w := Moved(v, MotionOf(s, v, e));
    StepCore(s, v, e, w);
    StepOrder(s, v, e, w);
  }

  // ---------------------------------------------------------------- start-up and the cut, as loops

  /** The free chains that `proxyProgressInit` lays out. */
  function FreshNext(j: nat): int { if j % MAX_OPS_PER_PEER == MAX_OPS_PER_PEER - 1 then -1 else j + 1 }

  /** The inner loop: the free chain of rank `r`. */
  method InitChain(next: array<int>, n: nat, r: nat)
    requires next.Length == n * MAX_OPS_PER_PEER && r < n
    requires forall j: nat :: j < r * MAX_OPS_PER_PEER ==> next[j] == FreshNext(j)
    modifies next
    ensures forall j: nat :: j < (r + 1) * MAX_OPS_PER_PEER ==> next[j] == FreshNext(j)
  {
    var base := r * MAX_OPS_PER_PEER;
    for i := 0 to MAX_OPS_PER_PEER - 1
      invariant forall j: nat :: j < base + i ==> next[j] == FreshNext(j)
    {
      next[base + i] := base + i + 1;
    }
    next[base + MAX_OPS_PER_PEER - 1] := -1;
  }

  method InitPool(n: nat) returns (next: array<int>, freeOps: array<int>)
    ensures next.Length == n * MAX_OPS_PER_PEER && freeOps.Length == n
    ensures forall j: nat :: j < next.Length ==> next[j] == FreshNext(j)
    ensures forall r: nat :: r < n ==> freeOps[r] == r * MAX_OPS_PER_PEER
  {
    next := new int[n * MAX_OPS_PER_PEER];
    freeOps := new int[n];
    for r := 0 to n
      invariant forall j: nat :: j < r * MAX_OPS_PER_PEER ==> next[j] == FreshNext(j)
      invariant forall q: nat :: q < r ==> freeOps[q] == q * MAX_OPS_PER_PEER
    {
      freeOps[r] := r * MAX_OPS_PER_PEER;
      InitChain(next, n, r);
    }
  }

  lemma {:induction false} CutExtend(ops: seq<Op>, l: seq<nat>, m: nat, c: nat)
    requires m < |l| && Fit(l, |ops|)
    ensures Cut(ops, l, m + 1, c) == if ops[l[m]].opCount != c then m + 1 else Cut(ops, l, m, c)
  {
  }

  /**
   * The loop of `ncclLocalOpAppend` over a full pending chain: `lastOp` is where the chain is cut
   * and `toSend` how many ops that posts; the cut is refused iff all ops have one opCount.
   */
  method FindCut(next: seq<int>, ops: seq<Op>, first: nat, end: nat, ghost path: seq<nat>)
    returns (lastOp: int, toSend: nat)
    requires |next| == |ops| && Path(next, path, first, end)
    ensures toSend == CutOf(ops, path)
    ensures lastOp == if toSend == 0 then -1 else path[toSend - 1]
    ensures lastOp == -1 <==> forall i :: 0 <= i < |path| ==> ops[path[i]].opCount == ops[end].opCount
  {
    var lastOpCount := ops[end].opCount;
    lastOp, toSend := -1, 0;
    var count: nat, op: int := 0, first;
    while op != end
      invariant count < |path| && op == path[count]
      invariant toSend == Cut(ops, path, count, lastOpCount) && lastOp == if toSend == 0 then -1 else path[toSend - 1]
      decreases |path| - count
    {
      CutExtend(ops, path, count, lastOpCount);
      assert count < |path| - 1 ==> LinkAt(next, path, count);
      count := count + 1;
      if ops[op].opCount != lastOpCount {
        lastOp, toSend := op, count;
      }
      op := next[op];
    }
    assert count == |path| - 1;
  }

  // ---------------------------------------------------------------- runs

  ghost predicate Initial(s: State)
  {
    && Sized(s) && (forall j: nat :: j < |s.next| ==> s.next[j] == FreshNext(j))
    && (forall p :: s.head(p) == if p.Shared? && p.r < |s.count| then p.r * MAX_OPS_PER_PEER else -1)
    && (forall r :: 0 <= r < |s.count| ==> s.count[r] == 0 && s.mode[r] == Ready && s.submitted[r] == [])
    && s.phase == Idle && s.processed == []
  }

  function Block(r: nat): (l: seq<nat>)
    ensures |l| == MAX_OPS_PER_PEER && forall i :: 0 <= i < |l| ==> l[i] == r * MAX_OPS_PER_PEER + i
  {
    seq(MAX_OPS_PER_PEER, i requires 0 <= i < MAX_OPS_PER_PEER => r * MAX_OPS_PER_PEER + i)
  }

  ghost function InitialView(s: State): View<Place>
    requires Sized(s)
  {
    View((p: Place) => if p.Shared? && p.r < |s.count| then Block(p.r) else [],
         seq(|s.next|, j requires 0 <= j < |s.next| => Shared(Peer(j))))
  }

  lemma BlockMember(r: nat, j: nat)
    ensures j in Block(r) <==> Peer(j) == r
  {
    if Peer(j) == r { assert Block(r)[j - r * MAX_OPS_PER_PEER] == j; }
  }

  lemma InitialOwns(s: State)
    requires Initial(s)
    ensures Owns(InitialView(s)) && AtHome(InitialView(s))
  {
    var v := InitialView(s);
    forall p: Place, i | 0 <= i < |v.lists(p)|
      ensures v.lists(p)[i] < |v.owner| && v.owner[v.lists(p)[i]] == p {
      BlockMember(p.r, v.lists(p)[i]);
    }
    forall j | 0 <= j < |v.owner| ensures Located(v, j) {
      BlockMember(Peer(j), j);
      PeerBound(j, |s.count|);
    }
  }

  lemma BlockLinked(next: seq<int>, r: nat)
    requires (r + 1) * MAX_OPS_PER_PEER <= |next| && forall j: nat :: j < |next| ==> next[j] == FreshNext(j)
    ensures Linked(next, Block(r)) && next[Last(Block(r))] == -1
  {
    var l := Block(r);
    forall i | 0 <= i < |l| ensures next[l[i]] == if i < |l| - 1 then l[i + 1] else -1 {
      assert next[l[i]] == FreshNext(l[i]);
      assert (r * MAX_OPS_PER_PEER + i) % MAX_OPS_PER_PEER == i;
    }
  }

  lemma InitialChain(s: State, p: Place)
    requires Initial(s)
    ensures ChainAt(s, InitialView(s), p)
  {
    if p.Shared? && p.r < |s.count| { BlockLinked(s.next, p.r); }
  }

  lemma InitialRep(s: State)
    requires Initial(s)
    ensures Rep(s, InitialView(s))
  {
    var v := InitialView(s);
    InitialOwns(s);
    forall p ensures ChainAt(s, v, p) { InitialChain(s, p); }
    assert Chains(s, v);
    forall r: nat | r < |s.count|
      ensures CountFits(s.count[r], s.mode[r], v.lists(Pending(r))) && v.lists(Returning(r)) == [] &&
        OrderHolds(s, v, r) {
    }
  }

  ghost predicate Run(trace: seq<State>, events: seq<Event>)
  {
    && |trace| == |events| + 1 && Initial(trace[0])
    && forall i :: 0 <= i < |events| ==> Leads(trace[i], events[i], trace[i + 1])
  }

  ghost predicate Leads(s: State, e: Event, t: State)
  {
    Sized(s) && Enabled(s, e) && t == Apply(s, e)
  }

  /** In every interleaving the invariant holds at every point. */
  lemma {:induction false} RunRep(trace: seq<State>, events: seq<Event>, i: nat) returns (v: View<Place>)
    requires Run(trace, events) && i < |trace|
    ensures Rep(trace[i], v)
  {
    if i == 0 {
      InitialRep(trace[0]);
      v := InitialView(trace[0]);
    } else {
      v := RunRep(trace, events, i - 1);
      assert Leads(trace[i - 1], events[i - 1], trace[i - 1 + 1]);
      v := StepKeeps(trace[i - 1], v, events[i - 1]);
    }
  }

  // ---------------------------------------------------------------- results

  /** The chain of place `p` that starts at its head variable, by following `next`. */
  predicate Walks(s: State, p: Place, l: seq<nat>)
  {
    s.head(p) == Head(l) && Linked(s.next, l)
  }

  /** Every op lies in exactly one chain, at exactly one position of it, or is lost. */
  lemma EachOpInOneChain(trace: seq<State>, events: seq<Event>, i: nat, j: nat) returns (v: View<Place>)
    requires Run(trace, events) && i < |trace| && j < |trace[i].next|
    ensures Rep(trace[i], v) && forall p: Place :: !p.Lost? ==> Walks(trace[i], p, v.lists(p))
    ensures forall p :: j in v.lists(p) <==> p == v.owner[j]
    ensures Distinct(v.lists(v.owner[j]))
  {
    v := RunRep(trace, events, i);
    var s := trace[i];
    assert OnceIn(v, v.owner[j]);
    forall p: Place ensures (!p.Lost? ==> Walks(s, p, v.lists(p))) && (j in v.lists(p) <==> p == v.owner[j]) {
      assert ChainAt(s, v, p);
      OwnedBy(v, p, j);
    }
  }

  lemma {:induction false} CommonPrefix(next: seq<int>, l: seq<nat>, m: seq<nat>, i: nat)
    requires Linked(next, l) && Linked(next, m) && i < |l| && i < |m| && l[0] == m[0]
    ensures l[i] == m[i]
  {
    if 0 < i {
      CommonPrefix(next, l, m, i - 1);
      assert LinkAt(next, l, i - 1) && LinkAt(next, m, i - 1);
    }
  }

  /** Of two chains with the same ends none is longer. */
  lemma NotLonger(next: seq<int>, l: seq<nat>, m: seq<nat>, head: int, tail: int, p: Place)
    requires Chained(next, l, head, tail, p) && Chained(next, m, head, tail, p) && Distinct(m)
    ensures |m| <= |l|
  {
    if |l| < |m| && l != [] {
      assert LinkAt(next, m, |l| - 1);
      CommonPrefix(next, l, m, |l| - 1);
    }
  }

  lemma SameChain(next: seq<int>, l: seq<nat>, m: seq<nat>, head: int, tail: int, p: Place)
    requires Chained(next, l, head, tail, p) && Chained(next, m, head, tail, p) && Distinct(l) && Distinct(m)
    ensures l == m
  {
    NotLonger(next, l, m, head, tail, p);
    NotLonger(next, m, l, head, tail, p);
    forall i: nat | i < |l| ensures l[i] == m[i] { CommonPrefix(next, l, m, i); }
  }

  /** The program's variables determine which chain every op is in, and which ops are lost. */
  lemma OwnerDetermined(s: State, v: View<Place>, w: View<Place>, j: nat)
    requires Core(s, v) && Core(s, w) && j < |s.next|
    ensures v.owner[j] == w.owner[j]
  {
    var p, q := v.owner[j], w.owner[j];
    if !p.Lost? { InSameChain(s, v, w, j); }
    if !q.Lost? { InSameChain(s, w, v, j); }
  }

  lemma InSameChain(s: State, v: View<Place>, w: View<Place>, j: nat)
    requires Core(s, v) && Core(s, w) && j < |s.next| && !v.owner[j].Lost?
    ensures w.owner[j] == v.owner[j]
  {
    var p := v.owner[j];
    assert ChainAt(s, v, p) && ChainAt(s, w, p) && OnceIn(v, p) && OnceIn(w, p);
    SameChain(s.next, v.lists(p), w.lists(p), s.head(p), s.tail(p), p);
    OwnedBy(v, p, j);
    OwnedBy(w, p, j);
  }

  // ---------------------------------------------------------------- lost ops

  ghost predicate SomeLost(v: View<Place>)
  {
    exists j :: 0 <= j < |v.owner| && v.owner[j].Lost?
  }

  predicate IsDrained(s: State, r: nat) { s.head(Returning(r)) != -1 }

  /** The current call has drained ops of some rank, from `low` on. */
  ghost predicate Drained(s: State, low: nat)
  {
    exists r: nat :: low <= r < |s.count| && IsDrained(s, r)
  }

  /** A call fails after it has drained an op, or a swap fails for no reason. */
  ghost predicate Loses(s: State, e: Event)
  {
    (e.Fail? && Drained(s, 0)) || e.GiveSpurious?
  }

  ghost predicate Lossy(trace: seq<State>, events: seq<Event>, i: nat)
    requires i <= |events| < |trace|
  {
    exists k :: 0 <= k < i && Loses(trace[k], events[k])
  }

  /** Ops about to be dropped by a failed call. */
  ghost predicate Losing(s: State)
  {
    s.phase.Abandon? && Drained(s, s.phase.i)
  }

  lemma NoRankBeyond(s: State, v: View<Place>, r: nat)
    requires Core(s, v) && |s.count| <= r
    ensures v.lists(Returning(r)) == []
  {
    if v.lists(Returning(r)) != [] {
      var j := v.lists(Returning(r))[0];
      OwnedBy(v, Returning(r), j);
      PeerBound(j, |s.count|);
      assert false;
    }
  }

  lemma DropLoss(s: State, v: View<Place>, e: Event, w: View<Place>)
    requires Core(s, v) && Enabled(s, e) && (e.AbandonOne? || e.GiveSpurious?)
    requires CanMove(v, MotionOf(s, v, e)) && w == Moved(v, MotionOf(s, v, e))
    ensures SomeLost(w) <==> SomeLost(v) || (s.phase.i < |s.count| && IsDrained(s, s.phase.i))
  {
    var p := Returning(s.phase.i);
    var l := v.lists(p);
    assert ChainAt(s, v, p) && l[..|l|] == l;
    if |s.count| <= p.r { NoRankBeyond(s, v, p.r); }
    if l != [] {
      OwnedBy(v, p, l[0]);
      assert w.owner[l[0]].Lost?;
    }
    if SomeLost(v) {
      var j :| 0 <= j < |v.owner| && v.owner[j].Lost?;
      assert w.owner[j].Lost?;
    }
  }

  lemma AbandonLosing(s: State)
    requires Sized(s) && Enabled(s, AbandonOne)
    ensures Losing(s) <==> (s.phase.i < |s.count| && IsDrained(s, s.phase.i)) || Losing(ApplyAbandon(s))
  {
    var t, i := ApplyAbandon(s), s.phase.i;
    forall r: nat | i < r ensures IsDrained(s, r) <==> IsDrained(t, r) { }
    if Losing(s) {
      var r: nat :| i <= r < |s.count| && IsDrained(s, r);
      assert i < r ==> IsDrained(t, r);
    }
    if Losing(t) {
      var r: nat :| t.phase.i <= r < |t.count| && IsDrained(t, r);
      assert IsDrained(s, r);
    }
  }

  /** No other step moves ops to or from the lost ones. */
  lemma OtherLoss(s: State, v: View<Place>, e: Event, w: View<Place>)
    requires Core(s, v) && Enabled(s, e) && !e.AbandonOne? && !e.GiveSpurious?
    requires CanMove(v, MotionOf(s, v, e)) && w == Moved(v, MotionOf(s, v, e))
    ensures SomeLost(w) <==> SomeLost(v)
  {
    var m := MotionOf(s, v, e);
    if m.Move? {
      forall j: nat | j < |v.owner| ensures w.owner[j].Lost? <==> v.owner[j].Lost? {
        OwnedBy(v, m.p, j);
        assert j in v.lists(m.p)[..m.k] ==> j in v.lists(m.p);
      }
      if SomeLost(v) { var j :| 0 <= j < |v.owner| && v.owner[j].Lost?; assert w.owner[j].Lost?; }
      if SomeLost(w) { var j :| 0 <= j < |w.owner| && w.owner[j].Lost?; assert v.owner[j].Lost?; }
    }
  }

  lemma ClientHeads(s: State, e: Event, r: nat)
    requires Sized(s) && Enabled(s, e) && s.phase.Abandon? && !e.AbandonOne?
    ensures IsDrained(Apply(s, e), r) <==> IsDrained(s, r)
    ensures Apply(s, e).phase == s.phase && |Apply(s, e).count| == |s.count|
  {
  }

  lemma OtherLosing(s: State, e: Event)
    requires Sized(s) && Enabled(s, e) && !e.AbandonOne?
    ensures Losing(Apply(s, e)) <==> Losing(s) || (e.Fail? && Drained(s, 0))
  {
    var t := Apply(s, e);
    if s.phase.Abandon? {
      forall r: nat ensures IsDrained(t, r) <==> IsDrained(s, r) { ClientHeads(s, e, r); }
      ClientHeads(s, e, 0);
      DrainedSame(s, t, s.phase.i);
    } else if e.Fail? {
      forall r: nat ensures IsDrained(t, r) <==> IsDrained(s, r) { }
      DrainedSame(s, t, 0);
    }
  }

  lemma DrainedSame(s: State, t: State, low: nat)
    requires |s.count| == |t.count| && forall r: nat :: IsDrained(t, r) <==> IsDrained(s, r)
    ensures Drained(s, low) <==> Drained(t, low)
  {
    if Drained(s, low) { var r: nat :| low <= r < |s.count| && IsDrained(s, r); assert IsDrained(t, r); }
    if Drained(t, low) { var r: nat :| low <= r < |t.count| && IsDrained(t, r); assert IsDrained(s, r); }
  }

  lemma LossStep(s: State, v: View<Place>, e: Event, w: View<Place>)
    requires Core(s, v) && Enabled(s, e)
    requires CanMove(v, MotionOf(s, v, e)) && w == Moved(v, MotionOf(s, v, e))
    ensures SomeLost(w) || Losing(Apply(s, e)) <==> SomeLost(v) || Losing(s) || Loses(s, e)
  {
    if e.AbandonOne? {
      DropLoss(s, v, e, w);
      AbandonLosing(s);
    } else if e.GiveSpurious? {
      assert LoadedLink(s, v, Returning(s.phase.i)) && ChainAt(s, v, Returning(s.phase.i));
      DropLoss(s, v, e, w);
    } else {
      OtherLoss(s, v, e, w);
      OtherLosing(s, e);
    }
  }

  lemma LossyStep(trace: seq<State>, events: seq<Event>, i: nat)
    requires 0 < i <= |events| < |trace|
    ensures Lossy(trace, events, i) <==> Lossy(trace, events, i - 1) || Loses(trace[i - 1], events[i - 1])
  {
  }

  lemma {:induction false} RunLoss(trace: seq<State>, events: seq<Event>, i: nat) returns (v: View<Place>)
    requires Run(trace, events) && i < |trace|
    ensures Rep(trace[i], v) && (SomeLost(v) || Losing(trace[i]) <==> Lossy(trace, events, i))
  {
    if i == 0 {
      InitialRep(trace[0]);
      v := InitialView(trace[0]);
    } else {
      var u := RunLoss(trace, events, i - 1);
      var s, e := trace[i - 1], events[i - 1];
      assert Leads(s, e, trace[i - 1 + 1]);
      MotionFits(s, u, e);
      v := Moved(u, MotionOf(s, u, e));
      StepCore(s, u, e, v);
      StepOrder(s, u, e, v);
      LossStep(s, u, e, v);
      LossyStep(trace, events, i);
    }
  }

  /**
   * The six kinds of chains hold all ops if and only if no call of the progress thread has
   * failed on an op after it had drained another one, and no weak swap has failed spuriously.
   */
  lemma NothingLostIff(trace: seq<State>, events: seq<Event>, i: nat, v: View<Place>)
    requires Run(trace, events) && i < |trace| && Rep(trace[i], v) && !trace[i].phase.Abandon?
    ensures (forall j :: 0 <= j < |v.owner| ==> !v.owner[j].Lost?) <==> !Lossy(trace, events, i)
  {
    var w := RunLoss(trace, events, i);
    forall j | 0 <= j < |v.owner| ensures v.owner[j] == w.owner[j] { OwnerDetermined(trace[i], v, w, j); }
  }

  // ---------------------------------------------------------------- order

  lemma {:induction false} OfPrefix(r: nat, a: seq<Entry>, b: seq<Entry>)
    ensures |Of(r, a)| <= |Of(r, a + b)| && Of(r, a + b)[..|Of(r, a)|] == Of(r, a)
  {
    OfConcat(r, a, b);
  }

  /** Each rank's ops reach `ProxyAppend` in the order in which the rank appended them. */
  lemma ProcessedInOrder(trace: seq<State>, events: seq<Event>, i: nat, r: nat)
    requires Run(trace, events) && i < |trace| && r < |trace[i].submitted|
    ensures Of(r, trace[i].processed) <= trace[i].submitted[r]
  {
    var s := trace[i];
    var v := RunRep(trace, events, i);
    assert OrderHolds(s, v, r);
    var d, p, q :=
      Entries(s.ops, v.lists(Draining)), Entries(s.ops, v.lists(Posted)), Entries(s.ops, v.lists(Pending(r)));
    assert s.processed + d + p + q == s.processed + (d + p + q);
    OfPrefix(r, s.processed, d + p + q);
  }

  /** A chain of fewer than all ops of a rank leaves one out. */
  lemma SomeOpElsewhere(l: seq<nat>, r: nat) returns (j: nat)
    requires Distinct(l) && |l| < MAX_OPS_PER_PEER
    ensures j !in l && Peer(j) == r
  {
    var all, held := set x: nat | x in Block(r), set x: nat | x in l;
    DistinctCard(Block(r));
    DistinctCard(l);
    if all <= held { SubsetCard(all, held); }
    j :| j in all && j !in held;
    BlockMember(r, j);
  }

  lemma HeldElsewhere(s: State, v: View<Place>, r: nat) returns (j: nat)
    requires Core(s, v) && r < |s.count| && s.mode[r].Ready? && s.head(Private(r)) == -1
    ensures j < |v.owner| && Peer(j) == r && v.owner[j] != Pending(r) && v.owner[j] != Private(r)
  {
    assert ChainAt(s, v, Pending(r)) && ChainAt(s, v, Private(r));
    assert CountFits(s.count[r], s.mode[r], v.lists(Pending(r)));
    assert OnceIn(v, Pending(r));
    j := SomeOpElsewhere(v.lists(Pending(r)), r);
    OwnedBy(v, Pending(r), j);
    OwnedBy(v, Private(r), j);
  }

  /**
   * A client that waits for a free op, none of its posts having been refused, does not hold all
   * of them itself: one of its ops is shared, posted, being drained, being returned or lost.
   */
  lemma NoSelfWait(trace: seq<State>, events: seq<Event>, i: nat, r: nat) returns (v: View<Place>, j: nat)
    requires Run(trace, events) && i < |trace| && r < |trace[i].count| && |trace[i].mode| == |trace[i].count|
    requires trace[i].mode[r].Ready? && trace[i].head(Private(r)) == -1
    ensures Rep(trace[i], v) && j < |v.owner| && Peer(j) == r
    ensures v.owner[j] == Shared(r) || v.owner[j] == Posted || v.owner[j] == Draining || v.owner[j] == Returning(r) ||
      v.owner[j] == Lost(r)
  {
    v := RunRep(trace, events, i);
    j := HeldElsewhere(trace[i], v, r);
    assert AtHome(v);
  }

  /** A client that waits for a free op holds all its ops itself exactly when a post was refused. */
  lemma SelfWaitIff(trace: seq<State>, events: seq<Event>, i: nat, r: nat, v: View<Place>)
    requires Run(trace, events) && i < |trace| && r < |trace[i].count| && |trace[i].mode| == |trace[i].count|
    requires Rep(trace[i], v) && !trace[i].mode[r].Full? && trace[i].head(Private(r)) == -1
    ensures trace[i].mode[r].Failed? <==> forall j: nat :: j < |v.owner| && Peer(j) == r ==> v.owner[j] == Pending(r)
  {
    var s := trace[i];
    if s.mode[r].Ready? {
      var j := HeldElsewhere(s, v, r);
    } else {
      assert CountFits(s.count[r], s.mode[r], v.lists(Pending(r)));
      forall j: nat | j < |v.owner| && Peer(j) == r ensures v.owner[j] == Pending(r) {
        HasAll(s, v, r, j);
        OwnedBy(v, Pending(r), j);
      }
    }
  }

  /**
   * The only way to stop with all ops pending: posting a full chain is refused iff all its ops
   * have one opCount; otherwise the kept ops have one opCount and the last posted op another, so
   * no group of equal opCounts is split.
   */
  lemma PartialPostOutcome(trace: seq<State>, events: seq<Event>, i: nat, r: nat, path: seq<nat>)
    requires Run(trace, events) && i < |events| && events[i] == PartialPost(r, path)
    ensures |path| == MAX_OPS_PER_PEER && Fit(path, |trace[i].ops|) && r < |trace[i + 1].mode|
    ensures var ops := trace[i].ops;
      trace[i + 1].mode[r].Failed? <==> forall a, b :: 0 <= a < |path| && 0 <= b < |path| ==>
        ops[path[a]].opCount == ops[path[b]].opCount
    ensures var ops, k := trace[i].ops, CutOf(trace[i].ops, path);
      && (forall a :: k <= a < |path| ==> ops[path[a]].opCount == ops[Last(path)].opCount)
      && (0 < k ==> ops[path[k - 1]].opCount != ops[Last(path)].opCount)
  {
    assert Leads(trace[i], events[i], trace[i + 1]);
    var s := trace[i];
    var v := RunRep(trace, events, i);
    PendingPath(s, v, r, path);
    assert CountFits(s.count[r], s.mode[r], v.lists(Pending(r)));
    var ops, k := s.ops, CutOf(s.ops, path);
    assert trace[i + 1].mode[r].Failed? <==> k == 0;
    if 0 < k {
      assert ops[path[k - 1]].opCount != ops[path[|path| - 1]].opCount;
    }
  }

  // ---------------------------------------------------------------- every call returns

  /** The progress thread alone takes the steps `events`. */
  ghost predicate Steps(s: State, events: seq<Event>, t: State)
    decreases |events|
  {
    if events == [] then t == s
    else Sized(s) && Enabled(s, events[0]) && OfProgress(events[0]) && Steps(Apply(s, events[0]), events[1..], t)
  }

  predicate OfProgress(e: Event)
  {
    e.Begin? || e.DrainOne? || e.Fail? || e.AbandonOne? || e.EndDrain? || e.GiveSkip? || e.GiveLoad? || e.GiveSwap?
  }

  lemma StepsFirst(s: State, e: Event, rest: seq<Event>, t: State)
    requires Sized(s) && Enabled(s, e) && OfProgress(e) && Steps(Apply(s, e), rest, t)
    ensures Steps(s, [e] + rest, t)
  {
    assert ([e] + rest)[1..] == rest;
  }

  /** What the progress thread does next when it is giving ops back. */
  function GiveNext(s: State): Event
    requires Sized(s) && s.phase.Give?
  {
    if |s.count| <= s.phase.i || !IsDrained(s, s.phase.i) then GiveSkip
    else if s.phase.loaded then GiveSwap
    else GiveLoad
  }

  function Fresh(s: State): nat
    requires s.phase.Give?
  {
    if s.phase.loaded && s.phase.seen == s.head(Shared(s.phase.i)) then 0 else 1
  }

  lemma GiveProgress(s: State)
    requires Sized(s) && s.phase.Give?
    ensures Enabled(s, GiveNext(s)) && var t := Apply(s, GiveNext(s));
      && Sized(t) && |t.count| == |s.count|
      && (t.phase.Idle? || (t.phase.Give? &&
           (s.phase.i < t.phase.i || (t.phase.i == s.phase.i && IsDrained(s, s.phase.i) &&
             (!IsDrained(t, t.phase.i) || (Fresh(s) == 1 && Fresh(t) == 0))))))
      && (t.phase.Give? ==> t.phase.i < |s.count|)
  {
    StepSized(s, GiveNext(s));
  }

  /** Ops are given back rank by rank until the call returns. */
  lemma {:induction false} GiveEnds(s: State) returns (events: seq<Event>, t: State)
    requires Sized(s) && s.phase.Give?
    ensures Steps(s, events, t) && t.phase == Idle
    decreases if s.phase.i < |s.count| then |s.count| - s.phase.i else 0, IsDrained(s, s.phase.i), Fresh(s)
  {
    var e := GiveNext(s);
    var u := Apply(s, e);
    GiveProgress(s);
    var rest := [];
    t := u;
    if u.phase.Give? { rest, t := GiveEnds(u); }
    StepsFirst(s, e, rest, t);
    events := [e] + rest;
  }

  lemma {:induction false} AbandonEnds(s: State) returns (events: seq<Event>, t: State)
    requires Sized(s) && s.phase.Abandon?
    ensures Steps(s, events, t) && t.phase == Idle
    decreases if s.phase.i < |s.count| then |s.count| - s.phase.i else 0
  {
    var u := ApplyAbandon(s);
    StepSized(s, AbandonOne);
    var rest := [];
    t := u;
    if u.phase.Abandon? { rest, t := AbandonEnds(u); }
    StepsFirst(s, AbandonOne, rest, t);
    events := [AbandonOne] + rest;
  }

  /** A call of the progress thread can return from wherever it is, also after a failure. */
  lemma CallReturns(s: State) returns (events: seq<Event>, t: State)
    requires Sized(s)
    ensures Steps(s, events, t) && t.phase == Idle
  {
    match s.phase
    case Idle => events, t := [], s;
    case Give(_, _, _) => events, t := GiveEnds(s);
    case Abandon(_) => events, t := AbandonEnds(s);
    case Drain =>
      var u := Apply(s, EndDrain);
      var rest;
      rest, t := GiveEnds(u);
      StepsFirst(s, EndDrain, rest, t);
      events := [EndDrain] + rest;
  }

  // ---------------------------------------------------------------- runs with one client

  /** A pool with one local rank, as it is set up. */
  function OneRank(): (s: State)
    ensures Sized(s)
  {
    State(seq(MAX_OPS_PER_PEER, j requires 0 <= j < MAX_OPS_PER_PEER => FreshNext(j)),
          seq(MAX_OPS_PER_PEER, _ => Op(0, 0)), (p: Place) => if p == Shared(0) then 0 else -1, (p: Place) => -1,
          [0], [Ready], Idle, [[]], [])
  }

  lemma OneRankStarts()
    ensures Initial(OneRank()) && Enabled(OneRank(), Refill(0)) && forall c :: Filled(Apply(OneRank(), Refill(0)), 0, c)
  {
  }

  /** The first `m` ops are pending, all with opCount `c`. */
  ghost predicate Filled(s: State, m: nat, c: nat)
  {
    && Sized(s) && |s.count| == 1 && m <= MAX_OPS_PER_PEER && s.count[0] == m
    && s.mode[0] == (if m < MAX_OPS_PER_PEER then Ready else Full)
    && s.head(Private(0)) == (if m < MAX_OPS_PER_PEER then m else -1)
    && s.head(Pending(0)) == (if m == 0 then -1 else 0) && (0 < m ==> s.tail(Pending(0)) == m - 1)
    && (forall j: nat :: m <= j < |s.next| ==> s.next[j] == FreshNext(j))
    && (forall j: nat :: j < m ==> s.ops[j].opCount == c)
    && s.phase == Idle && s.head(Posted) == s.head(Draining) == -1
    && (forall j: nat :: j < m ==> s.next[j] == if j + 1 < m then j + 1 else -1)
  }

  lemma FillOne(s: State, m: nat, c: nat)
    requires Filled(s, m, c) && m < MAX_OPS_PER_PEER
    ensures Enabled(s, Append(0, Op(c, 0))) && Filled(Apply(s, Append(0, Op(c, 0))), m + 1, c)
  {
    assert s.next[m] == FreshNext(m);
    StepSized(s, Append(0, Op(c, 0)));
  }

  lemma {:induction false} FillRun(m: nat, c: nat) returns (trace: seq<State>, events: seq<Event>)
    requires m <= MAX_OPS_PER_PEER
    ensures Run(trace, events) && Filled(trace[|events|], m, c)
  {
    if m == 0 {
      OneRankStarts();
      events := [Refill(0)];
      trace := [OneRank(), Apply(OneRank(), Refill(0))];
    } else {
      trace, events := FillRun(m - 1, c);
      FillOne(trace[|events|], m - 1, c);
      trace, events := RunStep(trace, events, Append(0, Op(c, 0)));
    }
  }

  lemma RunStep(trace: seq<State>, events: seq<Event>, e: Event) returns (trace': seq<State>, events': seq<Event>)
    requires Run(trace, events) && Sized(trace[|events|]) && Enabled(trace[|events|], e)
    ensures events' == events + [e] && trace' == trace + [Apply(trace[|events|], e)] && Run(trace', events')
    ensures Sized(trace'[|events'|]) && trace'[|events'|] == Apply(trace[|events|], e)
  {
    StepSized(trace[|events|], e);
    trace', events' := trace + [Apply(trace[|events|], e)], events + [e];
  }

  /** A client that appends 2048 ops of one opCount, one after the other, is refused, for every opCount. */
  lemma RefusedRun(c: nat) returns (trace: seq<State>, events: seq<Event>)
    ensures Run(trace, events) && |trace[|events|].mode| == 1 && trace[|events|].mode[0].Failed?
  {
    trace, events := FillRun(MAX_OPS_PER_PEER, c);
    var s := trace[|events|];
    var v := RunRep(trace, events, |events|);
    var path := v.lists(Pending(0));
    assert ChainAt(s, v, Pending(0)) && OnceIn(v, Pending(0));
    assert Path(s.next, path, s.head(Pending(0)), s.tail(Pending(0)));
    trace, events := RunStep(trace, events, PartialPost(0, path));
    PartialPostOutcome(trace, events, |events| - 1, 0, path);
    assert trace[|events| - 1] == s;
  }

  /** The first `i` of `m` posted ops have been drained in the current call. */
  ghost predicate PartlyDrained(s: State, i: nat, m: nat, c: nat)
  {
    && Sized(s) && |s.count| == 1 && i < m <= MAX_OPS_PER_PEER && s.phase == Drain && s.head(Draining) == i
    && (0 < i ==> s.head(Returning(0)) != -1)
    && (forall j: nat :: i <= j < m ==> s.next[j] == if j + 1 < m then j + 1 else -1)
    && (forall j: nat :: i <= j < m ==> s.ops[j].opCount == c)
  }

  lemma DrainStart(s: State, m: nat, c: nat)
    requires Filled(s, m, c) && 0 < m < MAX_OPS_PER_PEER
    ensures Enabled(s, Start(0)) && Sized(Apply(s, Start(0))) && Enabled(Apply(s, Start(0)), Begin)
    ensures PartlyDrained(ApplyBegin(Apply(s, Start(0))), 0, m, c)
  {
    StepSized(s, Start(0));
    var t := Apply(s, Start(0));
    assert t.next == s.next && t.ops == s.ops && t.head(Posted) == 0;
  }

  lemma DrainNext(s: State, i: nat, m: nat, c: nat)
    requires PartlyDrained(s, i, m, c)
    ensures Enabled(s, DrainOne) && Enabled(s, Fail)
    ensures i + 1 < m ==> PartlyDrained(ApplyDrainOne(s), i + 1, m, c)
  {
    assert s.next[i] == if i + 1 < m then i + 1 else -1;
    assert Peer(i) == 0;
    var t := ApplyDrainOne(s);
    assert t.head(Returning(0)) == i && forall j: nat :: i < j < |s.next| ==> t.next[j] == s.next[j];
  }

  lemma DrainFirstRun() returns (trace: seq<State>, events: seq<Event>)
    ensures Run(trace, events) && PartlyDrained(trace[|events|], 1, 2, 1)
  {
    trace, events := FillRun(2, 1);
    DrainStart(trace[|events|], 2, 1);
    trace, events := RunStep(trace, events, Start(0));
    trace, events := RunStep(trace, events, Begin);
    DrainNext(trace[|events|], 0, 2, 1);
    trace, events := RunStep(trace, events, DrainOne);
  }

  /** A swap that fails spuriously loses the drained op. */
  lemma SpuriousRun() returns (trace: seq<State>, events: seq<Event>, v: View<Place>)
    ensures Run(trace, events) && Rep(trace[|events|], v) && SomeLost(v)
    ensures events != [] && events[|events| - 1].GiveSpurious?
  {
    trace, events := DrainFirstRun();
    trace, events := RunStep(trace, events, EndDrain);
    trace, events := RunStep(trace, events, GiveLoad);
    var s, k := trace[|events|], |events|;
    trace, events := RunStep(trace, events, GiveSpurious);
    assert trace[k] == s && Loses(trace[k], events[k]);
    v := RunLoss(trace, events, |events|);
  }
}

/**
 * Ring bootstrap through one or more roots (nccl/src/bootstrap.cc).
 *
 * Every rank checks in with the root that owns it; with several roots, the first rank of each
 * root also checks in with the root before it.  A root hands every rank it owns the connect
 * information of that rank's successor, as soon as both ends of the pair have checked in.
 */
module BootstrapRoot {
  import opened Arith

  // ---------------------------------------------------------------- ranks and roots

  predicate Sizes(nRanks: nat, nRoots: nat) { 1 <= nRoots <= nRanks }

  /** `firstRankFromRoot` */
  function FirstRank(root: nat, nRanks: nat, nRoots: nat): nat
    requires Sizes(nRanks, nRoots)
  {
    First(root, nRanks / nRoots, nRanks % nRoots)
  }

  /** First rank of a root, from ranks per root and the remainder. */
  function First(root: nat, rpr: nat, rmr: nat): nat
  {
    root * rpr + Min(root, rmr)
  }

  /** `rootIdFromRank` */
  function RootOf(rank: nat, nRanks: nat, nRoots: nat): int
    requires Sizes(nRanks, nRoots)
  {
    PerRoot(nRanks, nRoots);
    RootIn(rank, nRanks / nRoots, nRanks % nRoots)
  }

  /** The same, from ranks per root and the remainder. */
  function RootIn(rank: nat, rpr: nat, rmr: nat): int
    requires 0 < rpr
  {
    var d := rmr * (rpr + 1);
    if rank < d then rank / (rpr + 1) else (rank - d) / rpr + rmr
  }

  /** `nRankFromRoot`, for a root index that needs no wrapping */
  function RanksOf(root: nat, nRanks: nat, nRoots: nat): nat
    requires Sizes(nRanks, nRoots)
  {
    nRanks / nRoots + (if root < nRanks % nRoots then 1 else 0)
  }

  lemma PerRoot(nRanks: nat, nRoots: nat)
    requires Sizes(nRanks, nRoots)
    ensures 1 <= nRanks / nRoots && nRanks == nRoots * (nRanks / nRoots) + nRanks % nRoots
  {
    assert nRanks == nRoots * (nRanks / nRoots) + nRanks % nRoots;
  }

  /** Roots own consecutive blocks of ranks, and the blocks end at `nRanks`. */
  lemma Blocks(root: nat, nRanks: nat, nRoots: nat)
    requires Sizes(nRanks, nRoots)
    ensures FirstRank(0, nRanks, nRoots) == 0 && FirstRank(nRoots, nRanks, nRoots) == nRanks
    ensures FirstRank(root + 1, nRanks, nRoots) == FirstRank(root, nRanks, nRoots) + RanksOf(root, nRanks, nRoots)
    ensures 1 <= RanksOf(root, nRanks, nRoots)
  {
    PerRoot(nRanks, nRoots);
    var rpr := nRanks / nRoots;
    assert (root + 1) * rpr == root * rpr + rpr;
  }

  /** The blocks differ by at most one rank, and the larger ones come first. */
  lemma Balanced(a: nat, b: nat, nRanks: nat, nRoots: nat)
    requires Sizes(nRanks, nRoots) && a < b < nRoots
    ensures RanksOf(b, nRanks, nRoots) <= RanksOf(a, nRanks, nRoots) <= RanksOf(b, nRanks, nRoots) + 1
  {
  }

  lemma {:induction false} FirstMono(a: nat, b: nat, nRanks: nat, nRoots: nat)
    requires Sizes(nRanks, nRoots) && a <= b
    ensures FirstRank(a, nRanks, nRoots) <= FirstRank(b, nRanks, nRoots)
    decreases b
  {
    if a < b {
      Blocks(b - 1, nRanks, nRoots);
      FirstMono(a, b - 1, nRanks, nRoots);
    }
  }

  /** `rootIdFromRank` finds the one block that holds the rank. */
  lemma RootOwns(rank: nat, nRanks: nat, nRoots: nat)
    requires Sizes(nRanks, nRoots) && rank < nRanks
    ensures 0 <= RootOf(rank, nRanks, nRoots) < nRoots
    ensures var i := RootOf(rank, nRanks, nRoots);
            FirstRank(i, nRanks, nRoots) <= rank < FirstRank(i + 1, nRanks, nRoots)
  {
    PerRoot(nRanks, nRoots);
    RootInOwns(rank, nRanks % nRoots, nRanks / nRoots, nRoots);
  }

  lemma RootInOwns(rank: nat, rmr: nat, rpr: nat, nRoots: nat)
    requires 1 <= rpr && rmr < nRoots && rank < nRoots * rpr + rmr
    ensures var i := RootIn(rank, rpr, rmr); 0 <= i < nRoots && First(i, rpr, rmr) <= rank < First(i + 1, rpr, rmr)
  {
    if rank < rmr * (rpr + 1) {
      LowRoot(rank, rmr, rpr);
    } else {
      HighRoot(rank, rmr, rpr, nRoots);
    }
  }

  lemma LowRoot(rank: nat, rmr: nat, rpr: nat)
    requires rank < rmr * (rpr + 1)
    ensures var q := rank / (rpr + 1); q < rmr && First(q, rpr, rmr) <= rank < First(q + 1, rpr, rmr)
  {
    var q := rank / (rpr + 1);
    assert rank == (rpr + 1) * q + rank % (rpr + 1);
    assert (rpr + 1) * q == q * rpr + q;
    assert (q + 1) * rpr == q * rpr + rpr;
    if rmr <= q { MulMono(rpr + 1, rmr, q); }
  }

  lemma HighRoot(rank: nat, rmr: nat, rpr: nat, nRoots: nat)
    requires 1 <= rpr && rmr < nRoots && rmr * (rpr + 1) <= rank < nRoots * rpr + rmr
    ensures var i := (rank - rmr * (rpr + 1)) / rpr + rmr;
            rmr <= i < nRoots && First(i, rpr, rmr) <= rank < First(i + 1, rpr, rmr)
  {
    var m := rank - rmr * (rpr + 1);
    var q := m / rpr;
    var i := q + rmr;
    assert m == rpr * q + m % rpr;
    assert rmr * (rpr + 1) == rmr * rpr + rmr;
    assert i * rpr == q * rpr + rmr * rpr;
    assert (i + 1) * rpr == i * rpr + rpr;
    if nRoots <= i { MulMono(rpr, nRoots, i); }
  }

  lemma RootUnique(rank: nat, i: nat, nRanks: nat, nRoots: nat)
    requires Sizes(nRanks, nRoots) && rank < nRanks
    requires FirstRank(i, nRanks, nRoots) <= rank < FirstRank(i + 1, nRanks, nRoots)
    ensures i == RootOf(rank, nRanks, nRoots)
  {
    RootOwns(rank, nRanks, nRoots);
    var j := RootOf(rank, nRanks, nRoots);
    if i < j { FirstMono(i + 1, j, nRanks, nRoots); }
    if j < i { FirstMono(j + 1, i, nRanks, nRoots); }
  }

  // ---------------------------------------------------------------- one root

  /** A ring message: connect information sent to a listening address. */
  datatype Msg = Msg(to: int, info: int)

  /**
   * The tables of a root and what it has sent so far.  Zero in a table means "nothing stored".
   * With several roots there is one place more than ranks to answer, for the extra check-in.
   */
  datatype Root = Root(multi: bool, n2send: nat, info: seq<int>, addr: seq<int>, sent: seq<Msg>)

  function NRecv(r: Root): nat { r.n2send + if r.multi then 1 else 0 }

  predicate Sized(r: Root) { 0 < r.n2send && |r.info| == |r.addr| == NRecv(r) }

  function NextLocal(r: Root, l: nat): nat
    requires l < NRecv(r)
  {
    if l + 1 == NRecv(r) then 0 else l + 1
  }

  /** `prev` of the source: -1 when another root answers the predecessor. */
  function PrevLocal(r: Root, l: nat): int
    requires l < NRecv(r)
  {
    if r.multi then l - 1 else if l == 0 then NRecv(r) - 1 else l - 1
  }

  /** One turn of the receive loop for a rank that has not checked in before. */
  function CheckIn(r: Root, l: nat, addr: int, info: int): Root
    requires Sized(r) && l < NRecv(r)
  {
    Answer(Inform(r, l, info), l, addr)
  }

  /** The predecessor gets the connect information if it waits for it; else it is stored. */
  function Inform(r: Root, l: nat, info: int): (r': Root)
    requires Sized(r) && l < NRecv(r)
    ensures Sized(r') && r'.multi == r.multi && r'.n2send == r.n2send
  {
    var prev := PrevLocal(r, l);
    if 0 <= prev < r.n2send && r.addr[prev] != 0
    then r.(sent := r.sent + [Msg(r.addr[prev], info)])
    else r.(info := r.info[l := info])
  }

  /** The rank gets its successor's connect information if that is there; else its address is stored. */
  function Answer(r: Root, l: nat, addr: int): Root
    requires Sized(r) && l < NRecv(r)
  {
    var next := NextLocal(r, l);
    if l < r.n2send && r.info[next] != 0
    then r.(sent := r.sent + [Msg(addr, r.info[next])])
    else r.(addr := r.addr[l := addr])
  }

  /** The final sweep: send whatever pair is still stored on both sides. */
  function Sweep(r: Root, k: nat): seq<Msg>
    requires Sized(r) && k <= r.n2send
  {
    if k == 0 then []
    else Sweep(r, k - 1) +
         if r.addr[k - 1] != 0 && r.info[NextLocal(r, k - 1)] != 0
         then [Msg(r.addr[k - 1], r.info[NextLocal(r, k - 1)])] else []
  }

  /** The pair of place `l` and its successor is stored on both sides. */
  predicate BothStored(r: Root, l: nat)
    requires Sized(r) && l < r.n2send
  {
    r.addr[l] != 0 && r.info[(l + 1) % NRecv(r)] != 0
  }

  /** What the sweep sends: one message for each place whose pair is stored on both sides, in ascending order. */
  lemma {:induction false} SweepIs(r: Root, k: nat) returns (at: seq<nat>)
    requires Sized(r) && k <= r.n2send
    ensures |at| == |Sweep(r, k)| && (forall i, j :: 0 <= i < j < |at| ==> at[i] < at[j])
    ensures forall l: nat :: l in at <==> l < k && BothStored(r, l)
    ensures forall i :: 0 <= i < |at| ==>
      at[i] < k && Sweep(r, k)[i] == Msg(r.addr[at[i]], r.info[(at[i] + 1) % NRecv(r)])
  {
    if k == 0 {
      at := [];
    } else {
      var before := SweepIs(r, k - 1);
      WrapIsMod(k, NRecv(r));
      at := before + if BothStored(r, k - 1) then [k - 1] else [];
      forall l: nat ensures l in at <==> l < k && BothStored(r, l) {
        assert l in at <==> l in before || (l == k - 1 && BothStored(r, k - 1));
      }
      forall i, j | 0 <= i < j < |at| ensures at[i] < at[j] { assert at[i] in before; }
    }
  }

  /** Storage for the pair (l, next(l)) says exactly which of the two has checked in. */
  ghost predicate PairStored(r: Root, arrived: set<nat>, addr: nat -> int, info: nat -> int, l: nat)
    requires Sized(r) && l < r.n2send
  {
    var next := NextLocal(r, l);
    if l in arrived && next in arrived then r.addr[l] == 0 || r.info[next] == 0
    else r.addr[l] == (if l in arrived then addr(l) else 0) &&
         r.info[next] == (if next in arrived then info(next) else 0)
  }

  /** Both ends of the pair (l, next(l)) have checked in. */
  predicate Complete(r: Root, arrived: set<nat>, l: nat)
    requires l < NRecv(r)
  {
    l in arrived && NextLocal(r, l) in arrived
  }

  /** The message local rank `l` must get: the connect information of its successor. */
  function Handout(r: Root, addr: nat -> int, info: nat -> int, l: nat): Msg
    requires l < NRecv(r)
  {
    Msg(addr(l), info(NextLocal(r, l)))
  }

  /**
   * `arrived` have checked in, and the messages sent went, in the order `served`, once to every
   * local rank whose pair is complete and to nobody else.
   */
  ghost predicate RootInv(r: Root, arrived: set<nat>, served: seq<nat>, addr: nat -> int, info: nat -> int)
  {
    && Sized(r)
    && (forall l :: l in arrived ==> l < NRecv(r))
    && (forall l: nat :: l < NRecv(r) && l !in arrived ==> r.addr[l] == 0 && r.info[l] == 0)
    && (forall l: nat :: l < r.n2send ==> PairStored(r, arrived, addr, info, l))
    && (forall i :: 0 <= i < |served| ==> served[i] < r.n2send)
    && (forall l: nat :: l < r.n2send ==> (l in served <==> Complete(r, arrived, l)))
    && Distinct(served) && |r.sent| == |served|
    && (forall i :: 0 <= i < |served| ==> r.sent[i] == Handout(r, addr, info, served[i]))
  }

  /** Who is served by the check-in of `l`: the predecessor if it waits, then `l` itself. */
  function ServedNow(r: Root, arrived: set<nat>, l: nat): seq<nat>
    requires l < NRecv(r)
  {
    var prev, next := PrevLocal(r, l), NextLocal(r, l);
    (if 0 <= prev < r.n2send && prev in arrived then [prev] else []) +
    (if l < r.n2send && (next in arrived || next == l) then [l] else [])
  }

  lemma NextPrev(r: Root, l: nat, j: nat)
    requires l < NRecv(r) && j < r.n2send
    ensures NextLocal(r, j) == l <==> j == PrevLocal(r, l)
  {
  }

  lemma StorageKept(r: Root, arrived: set<nat>, served: seq<nat>, addr: nat -> int, info: nat -> int, l: nat, j: nat)
    requires RootInv(r, arrived, served, addr, info) && l < NRecv(r) && l !in arrived && j < r.n2send
    requires addr(l) != 0 && info(l) != 0
    requires forall k :: k in arrived ==> addr(k) != 0 && info(k) != 0
    ensures PairStored(CheckIn(r, l, addr(l), info(l)), arrived + {l}, addr, info, j)
  {
    NextPrev(r, l, j);
    assert PairStored(r, arrived, addr, info, j);
    var prev := PrevLocal(r, l);
    if j == l {
      if 0 <= prev < r.n2send { assert PairStored(r, arrived, addr, info, prev); }
    } else if NextLocal(r, j) == l {
      if l < r.n2send { assert PairStored(r, arrived, addr, info, l); }
    } else {
      StorageAside(r, l, addr(l), info(l), j);
    }
  }

  /** A check-in changes nothing at other places. */
  lemma StorageAside(r: Root, l: nat, addr: int, info: int, j: nat)
    requires Sized(r) && l < NRecv(r) && j < NRecv(r) && j != l
    ensures CheckIn(r, l, addr, info).addr[j] == r.addr[j] && CheckIn(r, l, addr, info).info[j] == r.info[j]
  {
  }

  lemma SentNow(r: Root, arrived: set<nat>, served: seq<nat>, addr: nat -> int, info: nat -> int, l: nat)
    requires RootInv(r, arrived, served, addr, info) && l < NRecv(r) && l !in arrived
    requires addr(l) != 0 && info(l) != 0
    requires forall k :: k in arrived ==> addr(k) != 0 && info(k) != 0
    ensures var r', now := CheckIn(r, l, addr(l), info(l)), ServedNow(r, arrived, l);
            && |r'.sent| == |served + now| && r.sent <= r'.sent
            && forall i :: |served| <= i < |r'.sent| ==>
                 (served + now)[i] < NRecv(r) && r'.sent[i] == Handout(r, addr, info, (served + now)[i])
  {
    var prev := PrevLocal(r, l);
    if 0 <= prev < r.n2send {
      NextPrev(r, l, prev);
      assert PairStored(r, arrived, addr, info, prev);
    }
    if l < r.n2send { assert PairStored(r, arrived, addr, info, l); }
  }

  lemma ServedExtends(r: Root, arrived: set<nat>, served: seq<nat>, addr: nat -> int, info: nat -> int, l: nat)
    requires RootInv(r, arrived, served, addr, info) && l < NRecv(r) && l !in arrived
    ensures var s := served + ServedNow(r, arrived, l);
            && Distinct(s) && (forall i :: 0 <= i < |s| ==> s[i] < r.n2send)
            && forall j: nat :: j < r.n2send ==> (j in s <==> Complete(r, arrived + {l}, j))
  {
    var s := served + ServedNow(r, arrived, l);
    var prev := PrevLocal(r, l);
    if 0 <= prev < r.n2send { NextPrev(r, l, prev); }
    DistinctConcat(served, ServedNow(r, arrived, l));
    forall j: nat | j < r.n2send ensures j in s <==> Complete(r, arrived + {l}, j) {
      NextPrev(r, l, j);
      assert j in s <==> j in served || j in ServedNow(r, arrived, l);
    }
  }

  /** The invariant of one root under one check-in. */
  lemma CheckInKeeps(r: Root, arrived: set<nat>, served: seq<nat>, addr: nat -> int, info: nat -> int, l: nat)
    requires RootInv(r, arrived, served, addr, info) && l < NRecv(r) && l !in arrived
    requires addr(l) != 0 && info(l) != 0
    requires forall k :: k in arrived ==> addr(k) != 0 && info(k) != 0
    ensures RootInv(CheckIn(r, l, addr(l), info(l)), arrived + {l}, served + ServedNow(r, arrived, l), addr, info)
  {
    var r' := CheckIn(r, l, addr(l), info(l));
    SentNow(r, arrived, served, addr, info, l);
    ServedExtends(r, arrived, served, addr, info, l);
    forall j: nat | j < r.n2send ensures PairStored(r', arrived + {l}, addr, info, j) {
      StorageKept(r, arrived, served, addr, info, l, j);
    }
  }

  /** When everybody has checked in, the sweep finds no pair stored on both sides. */
  lemma {:induction false} SweepIsEmpty(
      r: Root, arrived: set<nat>, served: seq<nat>, addr: nat -> int, info: nat -> int, k: nat)
    requires RootInv(r, arrived, served, addr, info) && k <= r.n2send
    requires forall l: nat :: l < NRecv(r) ==> l in arrived
    ensures Sweep(r, k) == []
  {
    if k != 0 {
      SweepIsEmpty(r, arrived, served, addr, info, k - 1);
      assert PairStored(r, arrived, addr, info, k - 1);
    }
  }

  // ---------------------------------------------------------------- the receive loop in place

  /** What a rank sends to a root. */
  datatype ExtInfo = ExtInfo(rank: int, nranks: nat, iroot: nat, nroots: nat, listenAddr: int, connectInfo: int)

  datatype Status = Accepted | Mismatch | AlreadyCheckedIn

  class RootServer {
    const nranks: nat
    const iroot: nat
    const nroots: nat
    const n2send: nat
    const nrecv: nat
    const rankInfo: array<int>
    const rankAddr: array<int>
    var c: nat
    var sent: seq<Msg>

    ghost predicate Valid()
      reads this, rankInfo, rankAddr
    {
      && rankInfo != rankAddr && Sizes(nranks, nroots) && iroot < nroots
      && n2send == RanksOf(iroot, nranks, nroots)
      && nrecv == n2send + (if nroots > 1 then 1 else 0)
      && rankInfo.Length == rankAddr.Length == nrecv && 0 < n2send
    }

    ghost function State(): (r: Root)
      requires Valid()
      reads this, rankInfo, rankAddr
      ensures Sized(r) && NRecv(r) == nrecv
    {
      Root(nroots > 1, n2send, rankInfo[..], rankAddr[..], sent)
    }

    /** The tables are sized from the first check-in. */
    constructor (first: ExtInfo)
      requires Sizes(first.nranks, first.nroots) && first.iroot < first.nroots
      ensures Valid() && fresh(rankInfo) && fresh(rankAddr) && c == 0
      ensures nranks == first.nranks && nroots == first.nroots && iroot == first.iroot
      ensures State() == Root(nroots > 1, n2send, seq(nrecv, i => 0), seq(nrecv, i => 0), [])
    {
      Blocks(first.iroot, first.nranks, first.nroots);
      nranks, iroot, nroots := first.nranks, first.iroot, first.nroots;
      var n := RanksOf(first.iroot, first.nranks, first.nroots);
      var m := n + (if first.nroots > 1 then 1 else 0);
      n2send, nrecv := n, m;
      rankInfo := new int[m](i => 0);
      rankAddr := new int[m](i => 0);
      c, sent := 0, [];
      new;
      assert rankInfo[..] == seq(nrecv, i => 0) && rankAddr[..] == seq(nrecv, i => 0);
    }

    /** The first half of a check-in. */
    method InformPrevious(localId: nat, info: int)
      requires Valid() && localId < nrecv
      modifies this`sent, rankInfo
      ensures Valid() && State() == Inform(old(State()), localId, info)
    {
      ghost var r := State();
      WrapIsMod(localId - 1 + nrecv, nrecv);
      var prev := if nroots > 1 then localId - 1 else (localId - 1 + nrecv) % nrecv;
      if prev >= 0 && prev < n2send && rankAddr[prev] != 0 {
        sent := sent + [Msg(rankAddr[prev], info)];
      } else {
        rankInfo[localId] := info;
        assert rankInfo[..] == r.info[localId := info];
      }
    }

    /** The second half. */
    method AnswerSelf(localId: nat, addr: int)
      requires Valid() && localId < nrecv
      modifies this`sent, rankAddr
      ensures Valid() && State() == Answer(old(State()), localId, addr)
    {
      ghost var r := State();
      WrapIsMod(localId + 1, nrecv);
      var next := (localId + 1) % nrecv;
      if localId >= 0 && localId < n2send && rankInfo[next] != 0 {
        sent := sent + [Msg(addr, rankInfo[next])];
      } else {
        rankAddr[localId] := addr;
        assert rankAddr[..] == r.addr[localId := addr];
      }
    }

    /** One turn of the receive loop. */
    method Receive(m: ExtInfo) returns (status: Status)
      requires Valid() && 0 <= m.rank - FirstRank(iroot, nranks, nroots) < nrecv
      modifies this, rankInfo, rankAddr
      ensures Valid()
      ensures var l := m.rank - FirstRank(iroot, nranks, nroots);
              status == (if nranks != m.nranks || nroots != m.nroots || iroot != m.iroot then Mismatch
                         else if old(rankAddr[l]) != 0 || old(rankInfo[l]) != 0 then AlreadyCheckedIn
                         else Accepted)
      ensures status != Accepted ==> State() == old(State()) && c == old(c)
      ensures status == Accepted ==>
        State() == CheckIn(old(State()), m.rank - FirstRank(iroot, nranks, nroots), m.listenAddr, m.connectInfo) &&
        c == old(c) + 1
    {
      if nranks != m.nranks || nroots != m.nroots || iroot != m.iroot {
        return Mismatch;
      }
      var localId := m.rank - FirstRank(iroot, nranks, nroots);
      if rankAddr[localId] != 0 || rankInfo[localId] != 0 {
        return AlreadyCheckedIn;
      }
      InformPrevious(localId, m.connectInfo);
      AnswerSelf(localId, m.listenAddr);
      c := c + 1;
      status := Accepted;
    }

    /** The sweep after the loop. */
    method SendRemaining()
      requires Valid()
      modifies this`sent
      ensures Valid() && sent == old(sent) + Sweep(old(State()), n2send)
    {
      ghost var r := State();
      for k := 0 to n2send
        invariant sent == old(sent) + Sweep(r, k)
      {
        WrapIsMod(k + 1, nrecv);
        var next := (k + 1) % nrecv;
        if rankAddr[k] != 0 && rankInfo[next] != 0 {
          sent := sent + [Msg(rankAddr[k], rankInfo[next])];
        }
      }
    }
  }

  // ---------------------------------------------------------------- all ranks and all roots

  /** The check-in of a rank with its own root, or its extra one with the root before. */
  datatype Mail = Mail(rank: nat, extra: bool)

  function Pred(rank: nat, nRanks: nat): nat
    requires rank < nRanks
  {
    if rank == 0 then nRanks - 1 else rank - 1
  }

  function Succ(rank: nat, nRanks: nat): nat
    requires rank < nRanks
  {
    if rank + 1 == nRanks then 0 else rank + 1
  }

  /** Which check-ins `bootstrapInit` sends. */
  predicate Sends(m: Mail, nRanks: nat, nRoots: nat)
    requires Sizes(nRanks, nRoots)
  {
    m.rank < nRanks &&
    (m.extra ==> nRoots > 1 && m.rank == FirstRankOf(m.rank, nRanks, nRoots))
  }

  function FirstRankOf(rank: nat, nRanks: nat, nRoots: nat): nat
    requires Sizes(nRanks, nRoots) && rank < nRanks
  {
    RootOwns(rank, nRanks, nRoots);
    FirstRank(RootOf(rank, nRanks, nRoots), nRanks, nRoots)
  }

  /** The root a check-in goes to, and the rank number it carries. */
  function MailRoot(m: Mail, nRanks: nat, nRoots: nat): (i: nat)
    requires Sizes(nRanks, nRoots) && m.rank < nRanks
    ensures i < nRoots
  {
    RootOwns(m.rank, nRanks, nRoots);
    RootOwns(Pred(m.rank, nRanks), nRanks, nRoots);
    if m.extra then RootOf(Pred(m.rank, nRanks), nRanks, nRoots) else RootOf(m.rank, nRanks, nRoots)
  }

  function MailRank(m: Mail, nRanks: nat): nat
    requires m.rank < nRanks
  {
    if m.extra then Pred(m.rank, nRanks) + 1 else m.rank
  }

  function MailLocal(m: Mail, nRanks: nat, nRoots: nat): int
    requires Sizes(nRanks, nRoots) && m.rank < nRanks
  {
    MailRank(m, nRanks) - FirstRank(MailRoot(m, nRanks, nRoots), nRanks, nRoots)
  }

  /** The rank behind local id `l` of root `i`; one past the block is the first rank of the next. */
  function Global(i: nat, l: nat, nRanks: nat, nRoots: nat): nat
    requires Sizes(nRanks, nRoots)
  {
    var x := FirstRank(i, nRanks, nRoots) + l;
    if x == nRanks then 0 else x
  }

  function Places(i: nat, nRanks: nat, nRoots: nat): nat
    requires Sizes(nRanks, nRoots)
  {
    RanksOf(i, nRanks, nRoots) + if nRoots > 1 then 1 else 0
  }

  /** Every check-in lands on a place of its root that stands for the sender. */
  lemma MailTarget(m: Mail, nRanks: nat, nRoots: nat)
    requires Sizes(nRanks, nRoots) && Sends(m, nRanks, nRoots)
    ensures var i, l := MailRoot(m, nRanks, nRoots), MailLocal(m, nRanks, nRoots);
            0 <= l < Places(i, nRanks, nRoots) && Global(i, l, nRanks, nRoots) == m.rank &&
            (m.extra <==> l == RanksOf(i, nRanks, nRoots))
  {
    var i := MailRoot(m, nRanks, nRoots);
    RootOwns(m.rank, nRanks, nRoots);
    RootOwns(Pred(m.rank, nRanks), nRanks, nRoots);
    Blocks(i, nRanks, nRoots);
    if m.extra {
      ExtraIsPastBlock(m.rank, nRanks, nRoots);
    }
  }

  /** The predecessor of a first rank is the last rank of its own block. */
  lemma ExtraIsPastBlock(rank: nat, nRanks: nat, nRoots: nat)
    requires Sizes(nRanks, nRoots) && rank < nRanks && nRoots > 1
    requires rank == FirstRankOf(rank, nRanks, nRoots)
    ensures var p := Pred(rank, nRanks);
            var i := RootOf(p, nRanks, nRoots);
            0 <= i < nRoots && p + 1 == FirstRank(i + 1, nRanks, nRoots)
  {
    var p := Pred(rank, nRanks);
    RootOwns(p, nRanks, nRoots);
    RootOwns(rank, nRanks, nRoots);
    var i, j := RootOf(p, nRanks, nRoots), RootOf(rank, nRanks, nRoots);
    Blocks(i, nRanks, nRoots);
    if rank == 0 {
      FirstMono(i + 1, nRoots, nRanks, nRoots);
    } else {
      if j < i + 1 { FirstMono(j, i, nRanks, nRoots); }
      FirstMono(i + 1, j, nRanks, nRoots);
    }
  }

  /** No two check-ins land on the same place. */
  lemma MailInjective(m: Mail, k: Mail, nRanks: nat, nRoots: nat)
    requires Sizes(nRanks, nRoots) && Sends(m, nRanks, nRoots) && Sends(k, nRanks, nRoots)
    requires MailRoot(m, nRanks, nRoots) == MailRoot(k, nRanks, nRoots)
    requires MailLocal(m, nRanks, nRoots) == MailLocal(k, nRanks, nRoots)
    ensures m == k
  {
    MailTarget(m, nRanks, nRoots);
    MailTarget(k, nRanks, nRoots);
  }

  /** Every place of every root is filled by some check-in. */
  lemma MailSurjective(i: nat, l: nat, nRanks: nat, nRoots: nat) returns (m: Mail)
    requires Sizes(nRanks, nRoots) && i < nRoots && l < Places(i, nRanks, nRoots)
    ensures Sends(m, nRanks, nRoots) && MailRoot(m, nRanks, nRoots) == i && MailLocal(m, nRanks, nRoots) == l
  {
    Blocks(i, nRanks, nRoots);
    var first := FirstRank(i, nRanks, nRoots);
    FirstMono(i + 1, nRoots, nRanks, nRoots);
    if l < RanksOf(i, nRanks, nRoots) {
      m := Mail(first + l, false);
      RootUnique(first + l, i, nRanks, nRoots);
    } else {
      var j := if i + 1 == nRoots then 0 else i + 1;
      var r := FirstRank(j, nRanks, nRoots);
      m := Mail(r, true);
      Blocks(j, nRanks, nRoots);
      FirstMono(j + 1, nRoots, nRanks, nRoots);
      RootUnique(r, j, nRanks, nRoots);
      RootUnique(Pred(r, nRanks), i, nRanks, nRoots);
    }
  }

  // ---------------------------------------------------------------- every run

  /** One job: its sizes, the address each rank listens on and the connect information it offers. */
  datatype Job = Job(nRanks: nat, nRoots: nat, listen: nat -> int, connect: nat -> int) {

    ghost predicate Valid()
    {
      && Sizes(nRanks, nRoots)
      && (forall r: nat :: r < nRanks ==> listen(r) != 0 && connect(r) != 0)
      && (forall r: nat, q: nat :: r < q < nRanks ==> listen(r) != listen(q))
    }

    ghost function AddrAt(i: nat): nat -> int
      requires Sizes(nRanks, nRoots)
    {
      (l: nat) => listen(Global(i, l, nRanks, nRoots))
    }

    ghost function InfoAt(i: nat): nat -> int
      requires Sizes(nRanks, nRoots)
    {
      (l: nat) => connect(Global(i, l, nRanks, nRoots))
    }

    ghost predicate Initial(roots: seq<Root>)
      requires Sizes(nRanks, nRoots)
    {
      |roots| == nRoots &&
      forall i: nat :: i < nRoots ==>
        var n := Places(i, nRanks, nRoots);
        roots[i].multi == (nRoots > 1) && roots[i].n2send == RanksOf(i, nRanks, nRoots) && roots[i].sent == [] &&
        |roots[i].info| == |roots[i].addr| == n &&
          (forall l :: 0 <= l < n ==> roots[i].info[l] == 0 == roots[i].addr[l])
    }

    /** Check-in `m` reaches its root. */
    ghost predicate Step(a: seq<Root>, m: Mail, b: seq<Root>)
      requires Sizes(nRanks, nRoots)
    {
      && Sends(m, nRanks, nRoots) && |a| == nRoots
      && var i, l := MailRoot(m, nRanks, nRoots), MailLocal(m, nRanks, nRoots);
         Sized(a[i]) && 0 <= l < NRecv(a[i]) && b == a[i := CheckIn(a[i], l, listen(m.rank), connect(m.rank))]
    }

    /** Check-ins arrive in any order, across all roots, each once. */
    ghost predicate Run(trace: seq<seq<Root>>, mails: seq<Mail>)
      requires Sizes(nRanks, nRoots)
    {
      && |trace| == |mails| + 1 && Initial(trace[0]) && Distinct(mails)
      && forall k :: 0 <= k < |mails| ==> Step(trace[k], mails[k], trace[k + 1])
    }
  }

  /** Local ids of root `i` that have checked in. */
  ghost function Arrived(j: Job, mails: seq<Mail>, i: nat): set<nat>
    requires Sizes(j.nRanks, j.nRoots)
  {
    set m | m in mails && Lands(j, m, i) :: MailLocal(m, j.nRanks, j.nRoots) as nat
  }

  predicate Lands(j: Job, m: Mail, i: nat)
    requires Sizes(j.nRanks, j.nRoots)
  {
    Sends(m, j.nRanks, j.nRoots) && MailRoot(m, j.nRanks, j.nRoots) == i && 0 <= MailLocal(m, j.nRanks, j.nRoots)
  }

  /** What holds of every root after the first check-ins of a run. */
  ghost predicate AllInv(j: Job, roots: seq<Root>, mails: seq<Mail>, served: seq<seq<nat>>)
    requires Sizes(j.nRanks, j.nRoots)
  {
    |roots| == |served| == j.nRoots && forall i: nat :: i < j.nRoots ==> InvAt(j, roots[i], mails, served[i], i)
  }

  ghost predicate InvAt(j: Job, root: Root, mails: seq<Mail>, served: seq<nat>, i: nat)
    requires Sizes(j.nRanks, j.nRoots)
  {
    && root.multi == (j.nRoots > 1) && root.n2send == RanksOf(i, j.nRanks, j.nRoots)
    && RootInv(root, Arrived(j, mails, i), served, j.AddrAt(i), j.InfoAt(i))
  }

  lemma ArrivedGrows(j: Job, mails: seq<Mail>, m: Mail, i: nat)
    requires Sizes(j.nRanks, j.nRoots) && Sends(m, j.nRanks, j.nRoots) && m !in mails
    requires forall k :: k in mails ==> Sends(k, j.nRanks, j.nRoots)
    ensures var a, l := Arrived(j, mails, i), MailLocal(m, j.nRanks, j.nRoots);
            0 <= l && (if MailRoot(m, j.nRanks, j.nRoots) == i
                       then l !in a && Arrived(j, mails + [m], i) == a + {l as nat}
                       else Arrived(j, mails + [m], i) == a)
  {
    MailTarget(m, j.nRanks, j.nRoots);
    var a, b, l := Arrived(j, mails, i), Arrived(j, mails + [m], i), MailLocal(m, j.nRanks, j.nRoots);
    if MailRoot(m, j.nRanks, j.nRoots) == i {
      if l in a {
        var k :| k in mails && Lands(j, k, i) && MailLocal(k, j.nRanks, j.nRoots) == l;
        MailInjective(m, k, j.nRanks, j.nRoots);
      }
      assert Lands(j, m, i) && m in mails + [m];
      assert b == a + {l as nat};
    }
  }

  lemma ArrivedNonZero(j: Job, mails: seq<Mail>, i: nat)
    requires j.Valid()
    ensures forall l :: l in Arrived(j, mails, i) ==> j.AddrAt(i)(l) != 0 && j.InfoAt(i)(l) != 0
  {
    forall l | l in Arrived(j, mails, i) ensures j.AddrAt(i)(l) != 0 && j.InfoAt(i)(l) != 0 {
      var m :| m in mails && Lands(j, m, i) && MailLocal(m, j.nRanks, j.nRoots) == l;
      MailTarget(m, j.nRanks, j.nRoots);
    }
  }

  lemma StepKeeps(j: Job, roots: seq<Root>, mails: seq<Mail>, served: seq<seq<nat>>, m: Mail, roots': seq<Root>)
    returns (served': seq<seq<nat>>)
    requires j.Valid() && AllInv(j, roots, mails, served) && j.Step(roots, m, roots') && m !in mails
    requires forall k :: k in mails ==> Sends(k, j.nRanks, j.nRoots)
    ensures AllInv(j, roots', mails + [m], served')
  {
    var i, l := MailRoot(m, j.nRanks, j.nRoots), MailLocal(m, j.nRanks, j.nRoots);
    MailTarget(m, j.nRanks, j.nRoots);
    ArrivedGrows(j, mails, m, i);
    ArrivedNonZero(j, mails, i);
    assert InvAt(j, roots[i], mails, served[i], i);
    CheckInKeeps(roots[i], Arrived(j, mails, i), served[i], j.AddrAt(i), j.InfoAt(i), l);
    served' := served[i := served[i] + ServedNow(roots[i], Arrived(j, mails, i), l)];
    forall k: nat | k < j.nRoots ensures InvAt(j, roots'[k], mails + [m], served'[k], k) {
      ArrivedGrows(j, mails, m, k);
      assert InvAt(j, roots[k], mails, served[k], k);
    }
  }

  lemma InitialInv(j: Job, roots: seq<Root>) returns (served: seq<seq<nat>>)
    requires j.Valid() && j.Initial(roots)
    ensures AllInv(j, roots, [], served)
  {
    served := seq(j.nRoots, i => []);
    forall i: nat | i < j.nRoots ensures InvAt(j, roots[i], [], served[i], i) {
      Blocks(i, j.nRanks, j.nRoots);
      assert Arrived(j, [], i) == {};
    }
  }

  lemma {:induction false} RunInv(j: Job, trace: seq<seq<Root>>, mails: seq<Mail>, k: nat)
    returns (served: seq<seq<nat>>)
    requires j.Valid() && j.Run(trace, mails) && k <= |mails|
    ensures AllInv(j, trace[k], mails[..k], served)
  {
    if k == 0 {
      served := InitialInv(j, trace[0]);
      assert mails[..0] == [];
    } else {
      var i := k - 1;
      var before := RunInv(j, trace, mails, i);
      RunFacts(j, trace, mails, i);
      served := StepKeeps(j, trace[i], mails[..i], before, mails[i], trace[k]);
      assert mails[..k] == mails[..i] + [mails[i]];
    }
  }

  lemma RunFacts(j: Job, trace: seq<seq<Root>>, mails: seq<Mail>, k: nat)
    requires Sizes(j.nRanks, j.nRoots) && j.Run(trace, mails) && k < |mails|
    ensures j.Step(trace[k], mails[k], trace[k + 1])
    ensures mails[k] !in mails[..k] && mails[..k + 1] == mails[..k] + [mails[k]]
    ensures forall m :: m in mails[..k] ==> Sends(m, j.nRanks, j.nRoots)
  {
    forall m | m in mails[..k] ensures Sends(m, j.nRanks, j.nRoots) {
      var i :| 0 <= i < k && mails[i] == m;
      assert j.Step(trace[i], mails[i], trace[i + 1]);
    }
  }

  lemma SuccessorIsNext(r: Root, i: nat, l: nat, nRanks: nat, nRoots: nat)
    requires Sizes(nRanks, nRoots) && i < nRoots && l < RanksOf(i, nRanks, nRoots) && Sized(r)
    requires r.multi == (nRoots > 1) && r.n2send == RanksOf(i, nRanks, nRoots)
    ensures Global(i, l, nRanks, nRoots) == FirstRank(i, nRanks, nRoots) + l < nRanks
    ensures Global(i, NextLocal(r, l), nRanks, nRoots) == Succ(FirstRank(i, nRanks, nRoots) + l, nRanks)
  {
    Blocks(i, nRanks, nRoots);
    FirstMono(i + 1, nRoots, nRanks, nRoots);
  }

  /**
   * Whatever the order in which all check-ins arrive, exactly one message in the whole system goes
   * to rank `r`, it carries the connect information of rank `(r+1) mod nRanks`, and the
   * final sweep of the root has nothing left to send.
   */
  lemma RingFormed(j: Job, trace: seq<seq<Root>>, mails: seq<Mail>, r: nat) returns (i: nat, k: nat)
    requires j.Valid() && j.Run(trace, mails) && r < j.nRanks
    requires forall m :: Sends(m, j.nRanks, j.nRoots) ==> m in mails
    ensures var last := trace[|mails|];
            && |last| == j.nRoots && i < j.nRoots && k < |last[i].sent|
            && last[i].sent[k] == Msg(j.listen(r), j.connect(Succ(r, j.nRanks)))
            && (forall a: nat, b: nat :: a < j.nRoots && b < |last[a].sent| && last[a].sent[b].to == j.listen(r)
                  ==> a == i && b == k)
            && (forall a: nat :: a < j.nRoots ==> Sized(last[a]) && Sweep(last[a], last[a].n2send) == [])
  {
    var served := RunInv(j, trace, mails, |mails|);
    assert mails[..|mails|] == mails;
    i, k := ServedOnce(j, trace[|mails|], mails, served, r);
    forall a: nat | a < j.nRoots
      ensures Sized(trace[|mails|][a]) && Sweep(trace[|mails|][a], trace[|mails|][a].n2send) == []
    {
      NothingLeft(j, trace[|mails|], mails, served, a);
    }
  }

  lemma NothingLeft(j: Job, roots: seq<Root>, mails: seq<Mail>, served: seq<seq<nat>>, a: nat)
    requires j.Valid() && AllInv(j, roots, mails, served) && a < j.nRoots
    requires forall m :: Sends(m, j.nRanks, j.nRoots) ==> m in mails
    ensures Sized(roots[a]) && Sweep(roots[a], roots[a].n2send) == []
  {
    EverybodyArrived(j, mails, a);
    assert InvAt(j, roots[a], mails, served[a], a);
    SweepIsEmpty(roots[a], Arrived(j, mails, a), served[a], j.AddrAt(a), j.InfoAt(a), roots[a].n2send);
  }

  lemma ServedOnce(j: Job, roots: seq<Root>, mails: seq<Mail>, served: seq<seq<nat>>, r: nat) returns (i: nat, k: nat)
    requires j.Valid() && AllInv(j, roots, mails, served) && r < j.nRanks
    requires forall m :: Sends(m, j.nRanks, j.nRoots) ==> m in mails
    ensures i < j.nRoots && k < |roots[i].sent|
    ensures roots[i].sent[k] == Msg(j.listen(r), j.connect(Succ(r, j.nRanks)))
    ensures forall a: nat, b: nat :: a < j.nRoots && b < |roots[a].sent| && roots[a].sent[b].to == j.listen(r)
              ==> a == i && b == k
  {
    RootOwns(r, j.nRanks, j.nRoots);
    i := RootOf(r, j.nRanks, j.nRoots);
    Blocks(i, j.nRanks, j.nRoots);
    var l := r - FirstRank(i, j.nRanks, j.nRoots);
    EverybodyArrived(j, mails, i);
    k := ServedBy(j, roots[i], mails, served[i], i, l);
    forall a: nat, b: nat | a < j.nRoots && b < |roots[a].sent| && roots[a].sent[b].to == j.listen(r)
      ensures a == i && b == k
    {
      assert InvAt(j, roots[a], mails, served[a], a);
      Recipient(j, roots[a], served[a], mails, a, b, r);
    }
  }

  /** The message for place `l` of a root where everybody has checked in. */
  lemma ServedBy(j: Job, root: Root, mails: seq<Mail>, served: seq<nat>, i: nat, l: nat) returns (k: nat)
    requires j.Valid() && i < j.nRoots && InvAt(j, root, mails, served, i) && l < root.n2send
    requires forall n: nat :: n < Places(i, j.nRanks, j.nRoots) ==> n in Arrived(j, mails, i)
    ensures Distinct(served) && k < |served| == |root.sent| && served[k] == l
    ensures var q := FirstRank(i, j.nRanks, j.nRoots) + l;
      q < j.nRanks && root.sent[k] == Msg(j.listen(q), j.connect(Succ(q, j.nRanks)))
  {
    Blocks(i, j.nRanks, j.nRoots);
    assert Complete(root, Arrived(j, mails, i), l);
    assert l in served;
    k :| 0 <= k < |served| && served[k] == l;
    HandoutIs(j, root, i, l);
  }

  lemma HandoutIs(j: Job, root: Root, i: nat, l: nat)
    requires j.Valid() && i < j.nRoots && l < root.n2send && Sized(root)
    requires root.multi == (j.nRoots > 1) && root.n2send == RanksOf(i, j.nRanks, j.nRoots)
    ensures var q := FirstRank(i, j.nRanks, j.nRoots) + l;
      q < j.nRanks && Handout(root, j.AddrAt(i), j.InfoAt(i), l) == Msg(j.listen(q), j.connect(Succ(q, j.nRanks)))
  {
    SuccessorIsNext(root, i, l, j.nRanks, j.nRoots);
  }

  lemma EverybodyArrived(j: Job, mails: seq<Mail>, a: nat)
    requires j.Valid() && a < j.nRoots
    requires forall m :: Sends(m, j.nRanks, j.nRoots) ==> m in mails
    ensures forall l: nat :: l < Places(a, j.nRanks, j.nRoots) ==> l in Arrived(j, mails, a)
  {
    forall l: nat | l < Places(a, j.nRanks, j.nRoots) ensures l in Arrived(j, mails, a) {
      var m := MailSurjective(a, l, j.nRanks, j.nRoots);
      assert Lands(j, m, a);
    }
  }

  /** A message addressed to rank `r` comes from the root that owns `r`, for the place of `r`. */
  lemma Recipient(j: Job, root: Root, served: seq<nat>, mails: seq<Mail>, a: nat, b: nat, r: nat)
    requires j.Valid() && a < j.nRoots && r < j.nRanks && b < |root.sent| && root.sent[b].to == j.listen(r)
    requires root.multi == (j.nRoots > 1) && root.n2send == RanksOf(a, j.nRanks, j.nRoots)
    requires RootInv(root, Arrived(j, mails, a), served, j.AddrAt(a), j.InfoAt(a))
    ensures a == RootOf(r, j.nRanks, j.nRoots) && served[b] == r - FirstRank(a, j.nRanks, j.nRoots)
  {
    var l := served[b];
    SuccessorIsNext(root, a, l, j.nRanks, j.nRoots);
    var q := FirstRank(a, j.nRanks, j.nRoots) + l;
    assert j.listen(q) == j.listen(r);
    assert q == r;
    Blocks(a, j.nRanks, j.nRoots);
    RootUnique(r, a, j.nRanks, j.nRoots);
  }
}

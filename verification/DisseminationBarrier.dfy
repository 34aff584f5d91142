/**
 * The dissemination barrier `bootstrapP2PBarrier` (nccl/src/bootstrap.cc), run by `n` ranks over
 * an asynchronous network.  In round `k` the mask is 2^k: a rank sends to `rank + mask` and then
 * receives from `rank - mask`; a receive names only the peer, not the round.
 */
module DisseminationBarrier {
  import opened Arith

  /**
   * `sent[p]` and `done[p]` count the rounds in which rank `p` has sent and has received;
   * `net` holds the (source, destination) messages on their way.
   */
  datatype State = State(entered: seq<bool>, sent: seq<nat>, done: seq<nat>, net: multiset<(nat, nat)>)

  datatype Action = Enter(p: nat) | Send(p: nat) | Recv(p: nat)

  function To(p: nat, k: nat, n: nat): nat
    requires p < n && Pow2(k) < n
  {
    Wrap(p + Pow2(k), n)
  }

  function From(p: nat, k: nat, n: nat): nat
    requires p < n && Pow2(k) < n
  {
    Wrap(p - Pow2(k) + n, n)
  }

  /** The peers of a round, in the formulas of the original. */
  lemma RoundPeers(p: nat, k: nat, n: nat)
    requires p < n && Pow2(k) < n
    ensures To(p, k, n) == (p + Pow2(k)) % n && From(p, k, n) == (p - Pow2(k) + n) % n
  {
    WrapIsMod(p + Pow2(k), n);
    WrapIsMod(p - Pow2(k) + n, n);
  }

  predicate Sized(s: State, n: nat)
  {
    |s.entered| == |s.sent| == |s.done| == n
  }

  ghost predicate Initial(s: State, n: nat)
  {
    && Sized(s, n) && s.net == multiset{}
    && forall p :: 0 <= p < n ==> !s.entered[p] && s.sent[p] == 0 == s.done[p]
  }

  /** The loop condition `mask < nranks` holds for rank `p`. */
  predicate Looping(s: State, n: nat, p: nat)
    requires Sized(s, n) && p < n
  {
    s.entered[p] && Pow2(s.done[p]) < n
  }

  predicate Enabled(s: State, n: nat, a: Action)
    requires Sized(s, n)
  {
    a.p < n &&
    match a
    case Enter(p) => !s.entered[p]
    case Send(p) => Looping(s, n, p) && s.sent[p] == s.done[p]
    case Recv(p) => Looping(s, n, p) && s.sent[p] == s.done[p] + 1 && (From(p, s.done[p], n), p) in s.net
  }

  function Apply(s: State, n: nat, a: Action): State
    requires Sized(s, n) && Enabled(s, n, a)
  {
    match a
    case Enter(p) => s.(entered := s.entered[p := true])
    case Send(p) => s.(sent := s.sent[p := s.sent[p] + 1], net := s.net + multiset{(p, To(p, s.done[p], n))})
    case Recv(p) => s.(done := s.done[p := s.done[p] + 1], net := s.net - multiset{(From(p, s.done[p], n), p)})
  }

  /** Rank `p` has left the loop and returned. */
  predicate Returned(s: State, n: nat, p: nat)
    requires Sized(s, n) && p < n
  {
    s.entered[p] && n <= Pow2(s.done[p])
  }

  /** The `j`-th predecessor of `p` on the ring. */
  function Back(p: nat, j: nat, n: nat): nat
    requires p < n && j < n
  {
    Wrap(p - j + n, n)
  }

  // ---------------------------------------------------------------- invariant

  /** The message that `s` sends to `d` in round `k` has been sent and not yet received. */
  predicate InRound(st: State, n: nat, s: nat, d: nat, k: nat)
    requires Sized(st, n)
  {
    s < n && d < n && Pow2(k) < n && d == To(s, k, n) && k < st.sent[s] && st.done[d] <= k
  }

  ghost predicate InFlight(st: State, n: nat, s: nat, d: nat)
    requires Sized(st, n)
  {
    exists k :: InRound(st, n, s, d, k)
  }

  /** Rank `p` has heard, transitively, from its 2^done - 1 predecessors (or from all). */
  ghost predicate Heard(s: State, n: nat, p: nat)
    requires Sized(s, n) && p < n
  {
    s.entered[p] ==> forall j: nat :: j < n && j < Pow2(s.done[p]) ==> s.entered[Back(p, j, n)]
  }

  ghost predicate Counts(s: State, n: nat, p: nat)
    requires Sized(s, n) && p < n
  {
    && s.done[p] <= s.sent[p] <= s.done[p] + 1
    && (!s.entered[p] ==> s.sent[p] == 0)
    && (s.done[p] < s.sent[p] ==> Pow2(s.done[p]) < n)
  }

  /** A rank that has received round `m` was sent it. */
  ghost predicate Fed(s: State, n: nat, d: nat, m: nat)
    requires Sized(s, n) && d < n
  {
    m < s.done[d] && Pow2(m) < n ==> m < s.sent[From(d, m, n)]
  }

  /** The network holds one copy of each message in flight and nothing else. */
  ghost predicate Carries(s: State, n: nat, a: nat, b: nat)
    requires Sized(s, n)
  {
    s.net[(a, b)] == if InFlight(s, n, a, b) then 1 else 0
  }

  ghost predicate Inv(s: State, n: nat)
  {
    && Sized(s, n)
    && (forall p: nat :: p < n ==> Counts(s, n, p))
    && (forall a: nat, b: nat :: Carries(s, n, a, b))
    && (forall d: nat, m: nat :: d < n ==> Fed(s, n, d, m))
    && (forall p: nat :: p < n ==> Heard(s, n, p))
  }

  /** Different rounds of one rank go to different peers, so naming the peer names the round. */
  lemma RoundFromPeer(p: nat, j: nat, k: nat, n: nat)
    requires p < n && Pow2(j) < n && Pow2(k) < n && To(p, j, n) == To(p, k, n)
    ensures j == k
  {
    if j < k { Pow2Mono(j, k); }
    if k < j { Pow2Mono(k, j); }
  }

  lemma ToFrom(p: nat, k: nat, n: nat)
    requires p < n && Pow2(k) < n
    ensures To(From(p, k, n), k, n) == p && From(To(p, k, n), k, n) == p && To(p, k, n) != p
  {
  }

  lemma EnterKeeps(s: State, n: nat, p: nat)
    requires Inv(s, n) && Enabled(s, n, Enter(p))
    ensures Inv(Apply(s, n, Enter(p)), n)
  {
    var t := Apply(s, n, Enter(p));
    forall q: nat | q < n ensures Counts(t, n, q) { assert Counts(s, n, q); }
    forall q: nat, m: nat | q < n ensures Fed(t, n, q, m) { assert Fed(s, n, q, m); }
    forall a: nat, b: nat ensures Carries(t, n, a, b) {
      assert Carries(s, n, a, b);
      forall k ensures InRound(t, n, a, b, k) == InRound(s, n, a, b, k) {}
      SameFlight(s, t, n, a, b);
    }
    forall q: nat | q < n ensures Heard(t, n, q) {
      assert Heard(s, n, q);
      if q == p {
        assert Counts(s, n, p);
        forall j: nat | j < n && j < Pow2(t.done[p]) ensures t.entered[Back(p, j, n)] {
          assert s.done[p] == 0 && j == 0;
        }
      }
    }
  }

  lemma SameFlight(s: State, t: State, n: nat, a: nat, b: nat)
    requires Sized(s, n) && Sized(t, n) && forall k :: InRound(t, n, a, b, k) == InRound(s, n, a, b, k)
    ensures InFlight(s, n, a, b) == InFlight(t, n, a, b)
  {
    if InFlight(s, n, a, b) { var k :| InRound(s, n, a, b, k); assert InRound(t, n, a, b, k); }
    if InFlight(t, n, a, b) { var k :| InRound(t, n, a, b, k); assert InRound(s, n, a, b, k); }
  }

  /** Before a rank sends round `k`, nothing from it to that peer is on its way. */
  lemma SendStarts(s: State, n: nat, p: nat)
    requires Inv(s, n) && Enabled(s, n, Send(p))
    ensures var d := To(p, s.done[p], n);
            !InFlight(s, n, p, d) && InFlight(Apply(s, n, Send(p)), n, p, d)
  {
    var t, m := Apply(s, n, Send(p)), s.done[p];
    var d := To(p, m, n);
    assert Counts(s, n, p);
    forall k ensures !InRound(s, n, p, d, k) {
      if InRound(s, n, p, d, k) { RoundFromPeer(p, k, m, n); }
    }
    PeerNotAhead(s, n, p, m);
    assert InRound(t, n, p, d, m);
  }

  lemma SendLeaves(s: State, n: nat, p: nat, a: nat, b: nat)
    requires Sized(s, n) && Enabled(s, n, Send(p)) && (a, b) != (p, To(p, s.done[p], n))
    ensures InFlight(Apply(s, n, Send(p)), n, a, b) == InFlight(s, n, a, b)
  {
    var t := Apply(s, n, Send(p));
    forall k ensures InRound(t, n, a, b, k) == InRound(s, n, a, b, k) {}
    SameFlight(s, t, n, a, b);
  }

  /** The destination of round `m` cannot have received it before it is sent. */
  lemma PeerNotAhead(s: State, n: nat, p: nat, m: nat)
    requires Inv(s, n) && p < n && Pow2(m) < n && s.sent[p] <= m
    ensures s.done[To(p, m, n)] <= m
  {
    ToFrom(p, m, n);
    assert Fed(s, n, To(p, m, n), m);
  }

  /** A message that can be received belongs to the receiver's current round. */
  lemma ReceivedRound(s: State, n: nat, p: nat)
    requires Inv(s, n) && Enabled(s, n, Recv(p))
    ensures var src := From(p, s.done[p], n); InRound(s, n, src, p, s.done[p])
  {
    var src := From(p, s.done[p], n);
    assert Carries(s, n, src, p);
    var k :| InRound(s, n, src, p, k);
    ToFrom(p, s.done[p], n);
    RoundFromPeer(src, k, s.done[p], n);
  }

  lemma RecvEnds(s: State, n: nat, p: nat)
    requires Sized(s, n) && Enabled(s, n, Recv(p))
    ensures !InFlight(Apply(s, n, Recv(p)), n, From(p, s.done[p], n), p)
  {
    var t, m := Apply(s, n, Recv(p)), s.done[p];
    var src := From(p, m, n);
    ToFrom(p, m, n);
    forall k ensures !InRound(t, n, src, p, k) {
      if InRound(t, n, src, p, k) { RoundFromPeer(src, k, m, n); }
    }
  }

  lemma RecvLeaves(s: State, n: nat, p: nat, a: nat, b: nat)
    requires Sized(s, n) && Enabled(s, n, Recv(p)) && (a, b) != (From(p, s.done[p], n), p)
    ensures InFlight(Apply(s, n, Recv(p)), n, a, b) == InFlight(s, n, a, b)
  {
    var t, m := Apply(s, n, Recv(p)), s.done[p];
    forall k ensures InRound(t, n, a, b, k) == InRound(s, n, a, b, k) {
      if b == p && k == m && a < n && Pow2(k) < n && b == To(a, k, n) { ToFrom(a, k, n); }
    }
    SameFlight(s, t, n, a, b);
  }

  lemma SendKeeps(s: State, n: nat, p: nat)
    requires Inv(s, n) && Enabled(s, n, Send(p))
    ensures Inv(Apply(s, n, Send(p)), n)
  {
    var t := Apply(s, n, Send(p));
    forall q: nat | q < n ensures Counts(t, n, q) { assert Counts(s, n, q); }
    forall q: nat, m: nat | q < n ensures Fed(t, n, q, m) { assert Fed(s, n, q, m); }
    forall a: nat, b: nat ensures Carries(t, n, a, b) {
      assert Carries(s, n, a, b);
      if (a, b) == (p, To(p, s.done[p], n)) { SendStarts(s, n, p); } else { SendLeaves(s, n, p, a, b); }
    }
    forall q: nat | q < n ensures Heard(t, n, q) { assert Heard(s, n, q); }
  }

  /** Hearing from the rank 2^m back doubles the reach. */
  lemma ReachDoubles(s: State, n: nat, p: nat, src: nat, m: nat, j: nat)
    requires Sized(s, n) && p < n && Pow2(m) < n && src == From(p, m, n)
    requires Heard(s, n, p) && Heard(s, n, src) && s.entered[p] && s.entered[src]
    requires s.done[p] == m && m <= s.done[src] && j < n && j < Pow2(m + 1)
    ensures s.entered[Back(p, j, n)]
  {
    if Pow2(m) <= j {
      if m < s.done[src] { Pow2Mono(m, s.done[src]); }
      assert Back(p, j, n) == Back(src, j - Pow2(m), n);
    }
  }

  lemma RecvHeard(s: State, n: nat, p: nat, q: nat)
    requires Inv(s, n) && Enabled(s, n, Recv(p)) && q < n
    ensures Heard(Apply(s, n, Recv(p)), n, q)
  {
    var t, m := Apply(s, n, Recv(p)), s.done[p];
    var src := From(p, m, n);
    ReceivedRound(s, n, p);
    assert Heard(s, n, q) && Heard(s, n, p) && Heard(s, n, src);
    assert Counts(s, n, src);
    if q == p {
      forall j: nat | j < n && j < Pow2(m + 1) ensures t.entered[Back(p, j, n)] {
        ReachDoubles(s, n, p, src, m, j);
      }
    }
  }

  lemma RecvKeeps(s: State, n: nat, p: nat)
    requires Inv(s, n) && Enabled(s, n, Recv(p))
    ensures Inv(Apply(s, n, Recv(p)), n)
  {
    var t, m := Apply(s, n, Recv(p)), s.done[p];
    var src := From(p, m, n);
    ReceivedRound(s, n, p);
    forall q: nat | q < n ensures Counts(t, n, q) { assert Counts(s, n, q); }
    forall q: nat, k: nat | q < n ensures Fed(t, n, q, k) { assert Fed(s, n, q, k); }
    forall a: nat, b: nat ensures Carries(t, n, a, b) {
      assert Carries(s, n, a, b);
      if (a, b) == (src, p) {
        assert InFlight(s, n, src, p);
        RecvEnds(s, n, p);
      } else {
        RecvLeaves(s, n, p, a, b);
      }
    }
    forall q: nat | q < n ensures Heard(t, n, q) { RecvHeard(s, n, p, q); }
  }

  // ---------------------------------------------------------------- runs

  ghost predicate Run(trace: seq<State>, actions: seq<Action>, n: nat)
  {
    && |trace| == |actions| + 1 && Initial(trace[0], n)
    && forall i :: 0 <= i < |actions| ==>
         Sized(trace[i], n) && Enabled(trace[i], n, actions[i]) && trace[i + 1] == Apply(trace[i], n, actions[i])
  }

  lemma InitialInv(s: State, n: nat)
    requires Initial(s, n)
    ensures Inv(s, n)
  {
    forall a: nat, b: nat ensures Carries(s, n, a, b) {
      forall k ensures !InRound(s, n, a, b, k) {}
    }
  }

  lemma {:induction false} RunInv(trace: seq<State>, actions: seq<Action>, n: nat, i: nat)
    requires Run(trace, actions, n) && i < |trace|
    ensures Inv(trace[i], n)
  {
    if i == 0 {
      InitialInv(trace[0], n);
    } else {
      RunInv(trace, actions, n, i - 1);
      match actions[i - 1]
      case Enter(p) => EnterKeeps(trace[i - 1], n, p);
      case Send(p) => SendKeeps(trace[i - 1], n, p);
      case Recv(p) => RecvKeeps(trace[i - 1], n, p);
    }
  }

  /** In every run, for every number of ranks, nobody returns before everybody has entered. */
  lemma BarrierSafe(trace: seq<State>, actions: seq<Action>, n: nat, i: nat, p: nat, q: nat)
    requires Run(trace, actions, n) && i < |trace| && p < n && q < n
    requires Sized(trace[i], n) && Returned(trace[i], n, p)
    ensures trace[i].entered[q]
  {
    RunInv(trace, actions, n, i);
    var s := trace[i];
    assert Heard(s, n, p);
    var j := Wrap(p - q + n, n);
    assert Back(p, j, n) == q;
  }

  /** Two ranks of a run are never confused about rounds: a received message is the one of this round. */
  lemma ReceivesOwnRound(trace: seq<State>, actions: seq<Action>, n: nat, i: nat)
    requires Run(trace, actions, n) && i < |actions| && actions[i].Recv?
    ensures var p := actions[i].p;
            var k := trace[i].done[p];
            k < trace[i].sent[From(p, k, n)] && trace[i].net[(From(p, k, n), p)] == 1
  {
    RunInv(trace, actions, n, i);
    ReceivedRound(trace[i], n, actions[i].p);
    var src := From(actions[i].p, trace[i].done[actions[i].p], n);
    assert Carries(trace[i], n, src, actions[i].p) && InFlight(trace[i], n, src, actions[i].p);
  }

  /** The rank that has completed the fewest rounds. */
  lemma {:induction false} Slowest(s: State, n: nat, m: nat) returns (p: nat)
    requires Sized(s, n) && 0 < m <= n
    ensures p < m && forall q: nat :: q < m ==> s.done[p] <= s.done[q]
  {
    p := m - 1;
    if 1 < m {
      var q := Slowest(s, n, m - 1);
      if s.done[q] < s.done[p] { p := q; }
    }
  }

  /** Once everybody has entered, some rank can take a step until all have returned: no deadlock. */
  lemma NoDeadlock(s: State, n: nat, u: nat) returns (a: Action)
    requires Inv(s, n) && u < n && (forall p: nat :: p < n ==> s.entered[p]) && !Returned(s, n, u)
    ensures Enabled(s, n, a)
  {
    var p := Slowest(s, n, n);
    var k := s.done[p];
    if k < s.done[u] { Pow2Mono(k, s.done[u]); }
    var src := From(p, k, n);
    ToFrom(p, k, n);
    assert Counts(s, n, p) && Counts(s, n, src);
    if s.sent[p] == k {
      a := Send(p);
    } else if s.sent[src] == k {
      a := Send(src);
    } else {
      assert InRound(s, n, src, p, k);
      assert Carries(s, n, src, p);
      a := Recv(p);
    }
  }
}

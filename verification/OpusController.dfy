/**
 * The Opus control plane of one rail (src/opus-controller/controller.cpp and config.py): requests
 * are counted until a cohort is complete, the rail's topology bits are updated, and the rail
 * worker applies the difference to the previous topology bit by bit.
 */
module OpusController {
  import opened Arith

  const PP_INTERVAL: nat := 1_000_000
  const PP_BACKEND_INTERVAL: nat := 10
  const TOPOLOGY_BITS: nat := 64

  // ---------------------------------------------------------------- bits

  function Bit(x: nat, i: nat): (b: nat)
    ensures b < 2
  {
    if i == 0 then x % 2 else Bit(x / 2, i - 1)
  }

  /** `x >> i`. */
  function Shift(x: nat, i: nat): nat { if i == 0 then x else Shift(x / 2, i - 1) }

  lemma {:induction false} ShiftBit(x: nat, i: nat)
    ensures Bit(x, i) == Shift(x, i) % 2 && Shift(x, i + 1) == Shift(x, i) / 2
  {
    if 0 < i { ShiftBit(x / 2, i - 1); }
  }

  /** Bit `i` is the binary digit of weight 2^i. */
  lemma {:induction false} BitIs(x: nat, i: nat)
    ensures Shift(x, i) == x / Pow2(i) && Bit(x, i) == x / Pow2(i) % 2
  {
    ShiftBit(x, i);
    if 0 < i {
      BitIs(x / 2, i - 1);
      HalfDiv(x, Pow2(i - 1));
    }
  }

  lemma HalfDiv(x: nat, p: nat)
    requires 0 < p
    ensures x / 2 / p == x / (2 * p)
  {
    var h := x / 2;
    var q, r := h / p, h % p;
    assert h == p * q + r && x == 2 * h + x % 2;
    assert (2 * p) * q == 2 * (p * q);
    DivModUnique(x, 2 * p, q, 2 * r + x % 2);
  }

  /** The number with the given binary digits, most significant first. */
  function Number(digits: seq<nat>): nat
  {
    if digits == [] then 0 else 2 * Number(digits[..|digits| - 1]) + digits[|digits| - 1]
  }

  lemma {:induction false} NumberPrefix(states: seq<nat>, x: nat, k: nat)
    requires StatesAre(states, x) && x < Pow2(TOPOLOGY_BITS) && k <= TOPOLOGY_BITS
    ensures Number(states[..k]) == Shift(x, TOPOLOGY_BITS - k)
  {
    if k == 0 {
      BitIs(x, TOPOLOGY_BITS);
      DivModUnique(x, Pow2(TOPOLOGY_BITS), 0, x);
    } else {
      NumberPrefix(states, x, k - 1);
      assert states[..k][..k - 1] == states[..k - 1];
      ShiftBit(x, TOPOLOGY_BITS - k);
      assert states[k - 1] == Binary(x, k - 1);
    }
  }

  /** The worker's states are the binary digits of the topology. */
  lemma StatesNumber(states: seq<nat>, x: nat)
    requires StatesAre(states, x) && x < TWO_TO_32
    ensures Number(states) == x
  {
    Pow2Values();
    Pow2Mono(32, 64);
    NumberPrefix(states, x, TOPOLOGY_BITS);
    assert states[..TOPOLOGY_BITS] == states;
  }

  /** `x | 1<<i`. */
  function SetBit(x: nat, i: nat): nat { if i == 0 then x - x % 2 + 1 else 2 * SetBit(x / 2, i - 1) + x % 2 }

  /** `x & ~(1<<i)`. */
  function ClearBit(x: nat, i: nat): nat { if i == 0 then x - x % 2 else 2 * ClearBit(x / 2, i - 1) + x % 2 }

  lemma {:induction false} SetBitMeaning(x: nat, i: nat, j: nat)
    ensures Bit(SetBit(x, i), j) == if j == i then 1 else Bit(x, j)
  {
    if i == 0 {
      Halves(x / 2, 1);
    } else {
      Halves(SetBit(x / 2, i - 1), x % 2);
      if 0 < j { SetBitMeaning(x / 2, i - 1, j - 1); }
    }
  }

  lemma Halves(y: nat, b: nat)
    requires b < 2
    ensures (2 * y + b) / 2 == y && (2 * y + b) % 2 == b
  {
  }

  lemma {:induction false} ClearBitMeaning(x: nat, i: nat, j: nat)
    ensures Bit(ClearBit(x, i), j) == if j == i then 0 else Bit(x, j)
  {
    if i == 0 {
      Halves(x / 2, 0);
    } else {
      Halves(ClearBit(x / 2, i - 1), x % 2);
      if 0 < j { ClearBitMeaning(x / 2, i - 1, j - 1); }
    }
  }

  lemma {:induction false} BitsBound(x: nat, i: nat, n: nat)
    requires x < Pow2(n) && i < n
    ensures SetBit(x, i) < Pow2(n) && ClearBit(x, i) < Pow2(n)
  {
    if 0 < i { BitsBound(x / 2, i - 1, n - 1); }
  }

  /** The sign bit of a 32-bit pattern is its top bit. */
  lemma {:induction false} TopBit(x: nat, n: nat)
    requires x < Pow2(n + 1)
    ensures Pow2(n) <= x <==> Bit(x, n) == 1
  {
    if 0 < n { TopBit(x / 2, n - 1); }
  }

  // ---------------------------------------------------------------- topology updates

  datatype Update = Topo(topo: nat) | Thrown

  /** C++ integer division truncates towards zero. */
  function TruncDiv(a: int, b: nat): int
    requires 0 < b
  {
    if 0 <= a then a / b else -(-a / b)
  }

  predicate IsPp(backendId: int) { backendId > PP_BACKEND_INTERVAL }

  /**
   * determine_runtime_topo on the 32-bit pattern of the rail's topology: a pipeline group sets two
   * neighbouring bits, any other collective clears the bit of its stage.
   */
  function RuntimeTopo(topo: nat, backendId: int, counter: int): Update
  {
    if IsPp(backendId) then
      var group := TruncDiv(backendId, PP_BACKEND_INTERVAL);
      if TruncDiv(counter, PP_INTERVAL) != group || group <= 0 then Thrown
      else Topo(SetBit(SetBit(topo, group - 1), group))
    else
      var stage := TruncDiv(counter, PP_INTERVAL);
      if stage < 0 then Thrown else Topo(ClearBit(topo, stage))
  }

  /** The requests for which the update throws. */
  predicate Rejected(backendId: int, counter: int)
  {
    if backendId > 10 then !(backendId / 10 * 1_000_000 <= counter < (backendId / 10 + 1) * 1_000_000)
    else counter <= -1_000_000
  }

  lemma ThrownIff(topo: nat, backendId: int, counter: int)
    ensures RuntimeTopo(topo, backendId, counter).Thrown? <==> Rejected(backendId, counter)
  {
  }

  /** A pipeline group sets two neighbouring bits; any other collective clears the bit of its stage. */
  ghost predicate Updated(topo': nat, topo: nat, backendId: int, counter: int)
  {
    forall j: nat :: Bit(topo', j) ==
      if backendId > 10 && (j == counter / 1_000_000 || j + 1 == counter / 1_000_000) then 1
      else if backendId <= 10 && j == Max(0, counter) / 1_000_000 then 0
      else Bit(topo, j)
  }

  lemma UpdatedAs(topo: nat, backendId: int, counter: int)
    requires RuntimeTopo(topo, backendId, counter).Topo?
    ensures Updated(RuntimeTopo(topo, backendId, counter).topo, topo, backendId, counter)
  {
    forall j: nat ensures Bit(RuntimeTopo(topo, backendId, counter).topo, j) ==
      if backendId > 10 && (j == counter / 1_000_000 || j + 1 == counter / 1_000_000) then 1
      else if backendId <= 10 && j == Max(0, counter) / 1_000_000 then 0
      else Bit(topo, j)
    {
      RuntimeTopoMeaning(topo, backendId, counter, j);
    }
  }

  /** Which bits an update changes, and that it changes no others. */
  lemma RuntimeTopoMeaning(topo: nat, backendId: int, counter: int, j: nat)
    requires RuntimeTopo(topo, backendId, counter).Topo?
    ensures var g := TruncDiv(counter, PP_INTERVAL);
      Bit(RuntimeTopo(topo, backendId, counter).topo, j) ==
        if IsPp(backendId) && (j == g || j == g - 1) then 1
        else if !IsPp(backendId) && j == g then 0
        else Bit(topo, j)
  {
    var g: int := TruncDiv(counter, PP_INTERVAL);
    if IsPp(backendId) {
      SetBitMeaning(topo, g - 1, j);
      SetBitMeaning(SetBit(topo, g - 1), g, j);
    } else {
      ClearBitMeaning(topo, g, j);
    }
  }

  lemma TopoBound(topo: nat, backendId: int, counter: int)
    requires topo < TWO_TO_32 && TruncDiv(counter, PP_INTERVAL) < 32
    ensures var u := RuntimeTopo(topo, backendId, counter); u.Topo? ==> u.topo < TWO_TO_32
  {
    Pow2Values();
    var g := TruncDiv(counter, PP_INTERVAL);
    if IsPp(backendId) && 1 <= g {
      BitsBound(topo, g - 1, 32);
      BitsBound(SetBit(topo, g - 1), g, 32);
    } else if 0 <= g {
      BitsBound(topo, g, 32);
    }
  }

  // ---------------------------------------------------------------- one rail

  datatype Key = Key(comm: string, counter: int)

  /** all_arrive: how many requests complete a cohort. */
  function Quota(backendId: int, size: nat): nat { if IsPp(backendId) then 2 else size }

  datatype Reply = Ack | Nack | Invalid

  /** Unknown communicator, cohort incomplete, exception, worker refused, or CONFIG_ACK sent. */
  datatype Outcome = Unexpected | Waiting | Failed | Refused | Acknowledged

  /** Bit string of the worker: most significant bit first. */
  function Binary(x: nat, pos: nat): nat
    requires pos < TOPOLOGY_BITS
  {
    Bit(x, TOPOLOGY_BITS - 1 - pos)
  }

  function Past(past: int): nat { if past < 0 then 0 else past }

  /** The value that `std::to_string` prints for a 32-bit pattern. */
  function Signed(u: nat): int { if TWO_TO_32 <= 2 * u then u - TWO_TO_32 else u }

  ghost predicate StatesAre(states: seq<nat>, x: nat)
  {
    |states| == TOPOLOGY_BITS && forall p :: 0 <= p < TOPOLOGY_BITS ==> states[p] == Binary(x, p)
  }

  /** Triggers so far, and requests since the last one. */
  datatype Tally = Tally(fired: nat, ready: nat)

  /** The requests of one key, each with the number of requests that completes a cohort for it. */
  function TallyOf(quotas: seq<nat>): Tally
  {
    if quotas == [] then Tally(0, 0)
    else Arrived(TallyOf(quotas[..|quotas| - 1]), quotas[|quotas| - 1])
  }

  function Arrived(t: Tally, quota: nat): Tally
  {
    if quota <= t.ready + 1 then Tally(t.fired + 1, 0) else Tally(t.fired, t.ready + 1)
  }

  /** Whatever the mix of quotas, every trigger stands for at least `lo` and at most `hi` requests. */
  lemma {:induction false} TriggerBounds(quotas: seq<nat>, lo: nat, hi: nat)
    requires 0 < hi && forall i :: 0 <= i < |quotas| ==> lo <= Max(1, quotas[i]) <= hi
    ensures var t := TallyOf(quotas);
      lo * t.fired + t.ready <= |quotas| <= hi * t.fired + t.ready && t.ready < hi
  {
    if quotas != [] {
      var n := |quotas| - 1;
      TriggerBounds(quotas[..n], lo, hi);
      var t := TallyOf(quotas[..n]);
      MulNext(lo, t.fired);
      MulNext(hi, t.fired);
      assert lo <= Max(1, quotas[n]) <= hi;
    }
  }

  /**
   * When all requests of a key expect the same cohort size, a cohort triggers exactly one
   * reconfiguration: after `a` requests there have been `a / size`.
   */
  lemma OneTriggerPerCohort(quotas: seq<nat>, quota: nat)
    requires forall i :: 0 <= i < |quotas| ==> quotas[i] == quota
    ensures var t, size := TallyOf(quotas), Max(1, quota); t.fired == |quotas| / size && t.ready == |quotas| % size
  {
    var t, size := TallyOf(quotas), Max(1, quota);
    TriggerBounds(quotas, size, size);
    DivModUnique(|quotas|, size, t.fired, t.ready);
  }

  function Get(m: map<Key, nat>, k: Key): nat { if k in m then m[k] else 0 }

  function Asked(m: map<Key, seq<nat>>, k: Key): seq<nat> { if k in m then m[k] else [] }

  predicate CountAt(asked: map<Key, seq<nat>>, fired: map<Key, nat>, ready: map<Key, nat>, k: Key)
  {
    TallyOf(Asked(asked, k)) == Tally(Get(fired, k), Get(ready, k))
  }

  ghost predicate CountsOk(asked: map<Key, seq<nat>>, fired: map<Key, nat>, ready: map<Key, nat>)
  {
    forall k :: CountAt(asked, fired, ready, k)
  }

  /** The maps after one more request with key `key`, whether or not it completes its cohort. */
  lemma ArriveKeeps(
      asked: map<Key, seq<nat>>, fired: map<Key, nat>, ready: map<Key, nat>, key: Key, quota: nat,
      asked': map<Key, seq<nat>>, fired': map<Key, nat>, ready': map<Key, nat>)
    requires CountsOk(asked, fired, ready) && asked' == asked[key := Asked(asked, key) + [quota]]
    requires
      if quota <= Get(ready, key) + 1 then fired' == fired[key := Get(fired, key) + 1] && ready' == ready - {key}
      else fired' == fired && ready' == ready[key := Get(ready, key) + 1]
    ensures CountsOk(asked', fired', ready')
  {
    assert CountAt(asked, fired, ready, key);
    assert Asked(asked', key)[..|Asked(asked, key)|] == Asked(asked, key);
    forall k ensures CountAt(asked', fired', ready', k) {
      assert CountAt(asked, fired, ready, k);
    }
  }

  class Rail {
    const sizes: map<string, nat>   // idToCommSize of the communicators registered on this rail
    var ready: map<Key, nat>        // readyCount
    var topo: nat                   // topoIds[rail], as a 32-bit pattern
    var past: int                   // the worker's past_topo
    var states: seq<nat>            // the worker's topology_states
    ghost var asked: map<Key, seq<nat>> // the cohort sizes that the requests of a key expect, in order
    ghost var fired: map<Key, nat>

    ghost predicate Valid()
      reads this
    {
      && topo < TWO_TO_32 && past < TWO_TO_32 && StatesAre(states, Past(past))
      && CountsOk(asked, fired, ready)
    }

    constructor (sizes: map<string, nat>, initial: nat)
      requires initial < TWO_TO_32
      ensures Valid() && topo == initial && asked == map[] && ready == map[] && past == -1 && this.sizes == sizes
    {
      this.sizes := sizes;
      ready, topo, past := map[], initial, -1;
      states := seq(TOPOLOGY_BITS, _ => 0);
      asked, fired := map[], map[];
      new;
      forall p | 0 <= p < TOPOLOGY_BITS ensures Binary(0, p) == 0 { BitOfZero(TOPOLOGY_BITS - 1 - p); }
    }

    /**
     * The worker's handler in emulation mode: only the bits that differ from the previous topology
     * are changed, and that amounts to overwriting all of them.
     */
    method WorkerApply(config: int) returns (reply: Reply)
      requires Valid() && config < TWO_TO_32
      modifies this`past, this`states
      ensures Valid() && reply == (if config < 0 then Invalid else if config == old(past) then Nack else Ack)
      ensures past == (if config < 0 then old(past) else config) && (config < 0 ==> states == old(states))
      ensures |states| == 64 && (reply != Invalid ==> StatesAre(states, config) && Number(states) == config)
    {
      if config < 0 { return Invalid; }
      if config == past {
        StatesNumber(states, config);
        return Nack;
      }
      var before := Past(past);
      for pos := 0 to TOPOLOGY_BITS
        invariant |states| == TOPOLOGY_BITS && past == old(past)
        invariant forall p :: 0 <= p < TOPOLOGY_BITS ==>
          states[p] == if p < pos then Binary(config, p) else Binary(before, p)
      {
        if Binary(before, pos) != Binary(config, pos) {
          states := states[pos := Binary(config, pos)];
        }
      }
      past := config;
      reply := Ack;
      StatesNumber(states, config);
    }

    /** Counts a request; true when it completes its cohort. */
    method Arrive(key: Key, quota: nat) returns (complete: bool)
      requires Valid()
      modifies this`ready, this`asked, this`fired
      ensures Valid() && asked == old(asked)[key := Asked(old(asked), key) + [quota]]
      ensures fired == if complete then old(fired)[key := Get(old(fired), key) + 1] else old(fired)
      ensures complete <==> quota <= Get(old(ready), key) + 1
      ensures Get(ready, key) == if complete then 0 else Get(old(ready), key) + 1
      ensures forall k :: k != key ==> Get(ready, k) == Get(old(ready), k)
    {
      ghost var asked0, fired0, ready0 := asked, fired, ready;
      var cnt := Get(ready, key) + 1;
      asked := asked[key := Asked(asked, key) + [quota]];
      complete := cnt >= quota;
      if complete {
        ready := ready - {key};
        fired := fired[key := Get(fired, key) + 1];
      } else {
        ready := ready[key := cnt];
      }
      ArriveKeeps(asked0, fired0, ready0, key, quota, asked, fired, ready);
    }

    /**
     * handle_config_req.  Shifts by 32 or more are undefined in the original, hence the bound on
     * the stage.  An acknowledgement is sent exactly when the cohort is complete, the update does
     * not throw and the new topology is not negative, and then the worker's bits are the topology.
     */
    method HandleConfigReq(comm: string, backendId: int, counter: int) returns (r: Outcome)
      requires Valid() && TruncDiv(counter, PP_INTERVAL) < 32
      modifies this`ready, this`asked, this`fired, this`topo, this`past, this`states
      ensures Valid()
      ensures r.Unexpected? <==> comm !in sizes
      ensures var key := Key(comm, counter);
        var complete := comm in sizes && (if backendId > 10 then 2 else sizes[comm]) <= Get(old(ready), key) + 1;
        && (r.Waiting? <==> comm in sizes && !complete) && (r.Failed? <==> complete && Rejected(backendId, counter))
        && (if complete && !r.Failed? then Updated(topo, old(topo), backendId, counter) else topo == old(topo))
        && (r.Acknowledged? <==> complete && !r.Failed? && Bit(topo, 31) == 0)
        && Get(fired, key) == Get(old(fired), key) + (if complete then 1 else 0)
        && (comm in sizes ==> Get(ready, key) == if complete then 0 else Get(old(ready), key) + 1)
      ensures r.Acknowledged? ==> StatesAre(states, topo) && Number(states) == topo
      ensures !r.Acknowledged? ==> past == old(past) && states == old(states)
    {
      if comm !in sizes { return Unexpected; }
      var key := Key(comm, counter);
      var complete := Arrive(key, Quota(backendId, sizes[comm]));
      if !complete { return Waiting; }
      var u := RuntimeTopo(topo, backendId, counter);
      ThrownIff(topo, backendId, counter);
      if u.Thrown? { return Failed; }
      TopoBound(topo, backendId, counter);
      UpdatedAs(topo, backendId, counter);
      topo := u.topo;
      Pow2Values();
      TopBit(topo, 31);
      var reply := WorkerApply(Signed(topo));
      r := if reply.Invalid? then Refused else Acknowledged;
    }
  }

  /**
   * Pipeline group 31: the update sets the sign bit of the 32-bit topology, and the complete
   * cohort is refused by the worker instead of being acknowledged.
   */
  method PipelineGroup31(sizes: map<string, nat>, comm: string) returns (first: Outcome, second: Outcome)
    requires comm in sizes
    ensures first.Waiting? && second.Refused?
  {
    var rail := new Rail(sizes, 0);
    first := rail.HandleConfigReq(comm, 310, 31_000_000);
    second := rail.HandleConfigReq(comm, 310, 31_000_000);
    assert Bit(rail.topo, 31) == 1;
  }

  lemma {:induction false} BitOfZero(j: nat)
    ensures Bit(0, j) == 0
  {
    if 0 < j { BitOfZero(j - 1); }
  }
}

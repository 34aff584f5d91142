/**
 * The schedule compiler (scripts/compile_opus_schedule.py): from the event traces of all ranks it
 * derives the boundaries at which the network is reconfigured, so that ranks that see the same
 * boundary emit it even if their own trace does not change kind there.
 */
module OpusSchedule {

  datatype Event = Event(iteration: int, sequence: int, backend: int, counter: int, kind: string)

  datatype Key = Key(iteration: int, backend: int, counter: int)

  /** A scheduled reconfiguration: the event that triggers it and the event it is for. */
  datatype Transition = Transition(trigger: Event, target: Event)

  function KeyOf(e: Event): Key { Key(e.iteration, e.backend, e.counter) }

  /** The kind changes at event `i`, or the trace begins there. */
  predicate Changed(events: seq<Event>, i: nat)
    requires i < |events|
  {
    i == 0 || events[i].kind != events[i - 1].kind
  }

  /** With provisioning the previous event triggers, unless it belongs to another iteration. */
  function TransitionAt(events: seq<Event>, i: nat, provision: bool): (t: Transition)
    requires i < |events|
    ensures t.target == events[i] && t.trigger.iteration == t.target.iteration
  {
    Transition(
      if provision && 0 < i && events[i - 1].iteration == events[i].iteration then events[i - 1] else events[i],
      events[i])
  }

  /** Provisioning moves the trigger to the event before if there is one, of the same iteration. */
  predicate IsTransition(t: Transition, events: seq<Event>, i: nat, provision: bool)
    requires i < |events|
  {
    && t.target == events[i]
    && (provision && 0 < i && events[i - 1].iteration == events[i].iteration ==> t.trigger == events[i - 1])
    && (!provision || i == 0 || events[i - 1].iteration != events[i].iteration ==> t.trigger == events[i])
  }

  /** `at` are the marked positions below `n`, in order. */
  ghost predicate Positions(at: seq<nat>, n: nat, mark: nat -> bool)
  {
    (forall i: nat :: i in at <==> i < n && mark(i)) && (forall a, b :: 0 <= a < b < |at| ==> at[a] < at[b])
  }

  /** One transition for each marked event, in order. */
  ghost predicate Emits(result: seq<Transition>, events: seq<Event>, mark: nat -> bool, provision: bool, at: seq<nat>)
  {
    && Positions(at, |events|, mark) && |result| == |at|
    && forall m :: 0 <= m < |at| ==> at[m] < |events| && IsTransition(result[m], events, at[m], provision)
  }

  /** The transitions at the marked events among the first `n`, in order. */
  function Emit(events: seq<Event>, mark: nat -> bool, provision: bool, n: nat): seq<Transition>
    requires n <= |events|
  {
    if n == 0 then []
    else Emit(events, mark, provision, n - 1) + if mark(n - 1) then [TransitionAt(events, n - 1, provision)] else []
  }

  lemma {:induction false} EmitAt(events: seq<Event>, mark: nat -> bool, provision: bool, n: nat) returns (at: seq<nat>)
    requires n <= |events|
    ensures Positions(at, n, mark) && |Emit(events, mark, provision, n)| == |at|
    ensures forall m :: 0 <= m < |at| ==>
      at[m] < n && Emit(events, mark, provision, n)[m] == TransitionAt(events, at[m], provision)
  {
    if n == 0 {
      at := [];
    } else {
      var before := EmitAt(events, mark, provision, n - 1);
      at := before + if mark(n - 1) then [n - 1] else [];
      forall i: nat ensures i in at <==> i < n && mark(i) {
        assert i in at <==> i in before || (i == n - 1 && mark(n - 1));
      }
      forall a, b | 0 <= a < b < |at| ensures at[a] < at[b] { assert at[a] in before; }
    }
  }

  lemma TransitionIs(events: seq<Event>, i: nat, provision: bool)
    requires i < |events|
    ensures IsTransition(TransitionAt(events, i, provision), events, i, provision)
  {
  }

  lemma EmitsAll(events: seq<Event>, mark: nat -> bool, provision: bool)
    ensures exists at :: Emits(Emit(events, mark, provision, |events|), events, mark, provision, at)
  {
    var at := EmitAt(events, mark, provision, |events|);
    forall m | 0 <= m < |at|
      ensures IsTransition(Emit(events, mark, provision, |events|)[m], events, at[m], provision)
    {
      TransitionIs(events, at[m], provision);
    }
    assert Emits(Emit(events, mark, provision, |events|), events, mark, provision, at);
  }

  function ChangeMarks(events: seq<Event>): nat -> bool { (i: nat) => i < |events| && Changed(events, i) }

  function KeyMarks(events: seq<Event>, keys: set<Key>): nat -> bool
  {
    (i: nat) => i < |events| && KeyOf(events[i]) in keys
  }

  // ---------------------------------------------------------------- the four functions

  /** `previous` is the event before the current one, if any. */
  datatype Previous = None | Some(event: Event)

  function PreviousAt(events: seq<Event>, i: nat): Previous
    requires i <= |events|
  {
    if i == 0 then None else Some(events[i - 1])
  }

  method Transitions(events: seq<Event>, provision: bool) returns (result: seq<Transition>)
    ensures result == Emit(events, ChangeMarks(events), provision, |events|)
    ensures exists at :: Emits(result, events, ChangeMarks(events), provision, at)
  {
    result := [];
    var previous := None;
    for i := 0 to |events|
      invariant previous == PreviousAt(events, i) && result == Emit(events, ChangeMarks(events), provision, i)
    {
      var event := events[i];
      if previous.None? || event.kind != previous.event.kind {
        var trigger := if provision && previous.Some? then previous.event else event;
        if trigger.iteration != event.iteration { trigger := event; }
        result := result + [Transition(trigger, event)];
      }
      previous := Some(event);
    }
    EmitsAll(events, ChangeMarks(events), provision);
  }

  /** `k` is the key of a change of kind in some trace. */
  ghost predicate Boundary(traces: seq<seq<Event>>, k: Key)
  {
    exists r: nat, i: nat :: BoundaryAt(traces, k, r, i)
  }

  predicate BoundaryAt(traces: seq<seq<Event>>, k: Key, r: nat, i: nat)
  {
    r < |traces| && i < |traces[r]| && Changed(traces[r], i) && KeyOf(traces[r][i]) == k
  }

  /** A boundary in the traces before `r`, or among the first `i` events of trace `r`. */
  ghost predicate BoundaryBefore(traces: seq<seq<Event>>, k: Key, r: nat, i: nat)
  {
    exists q: nat, j: nat :: BoundaryAt(traces, k, q, j) && (q < r || (q == r && j < i))
  }

  method TransitionKeys(traces: seq<seq<Event>>) returns (keys: set<Key>)
    ensures forall k :: k in keys <==> Boundary(traces, k)
  {
    keys := {};
    for r := 0 to |traces|
      invariant forall k :: k in keys <==> BoundaryBefore(traces, k, r, 0)
    {
      var events, previous := traces[r], None;
      for i := 0 to |events|
        invariant previous == PreviousAt(events, i) && forall k :: k in keys <==> BoundaryBefore(traces, k, r, i)
      {
        var event := events[i];
        KeysStep(traces, r, i);
        if previous.None? || event.kind != previous.event.kind {
          keys := keys + {KeyOf(event)};
        }
        previous := Some(event);
      }
      KeysTrace(traces, r);
    }
    forall k ensures BoundaryBefore(traces, k, |traces|, 0) <==> Boundary(traces, k) {
      if Boundary(traces, k) {
        var r: nat, i: nat :| BoundaryAt(traces, k, r, i);
      }
    }
  }

  lemma KeysStep(traces: seq<seq<Event>>, r: nat, i: nat)
    requires r < |traces| && i < |traces[r]|
    ensures forall k :: BoundaryBefore(traces, k, r, i + 1) <==>
      BoundaryBefore(traces, k, r, i) || BoundaryAt(traces, k, r, i)
  {
    forall k ensures BoundaryBefore(traces, k, r, i + 1) <==>
      BoundaryBefore(traces, k, r, i) || BoundaryAt(traces, k, r, i) {
      if BoundaryBefore(traces, k, r, i + 1) {
        var q: nat, j: nat :| BoundaryAt(traces, k, q, j) && (q < r || (q == r && j < i + 1));
      }
    }
  }

  lemma KeysTrace(traces: seq<seq<Event>>, r: nat)
    requires r < |traces|
    ensures forall k :: BoundaryBefore(traces, k, r, |traces[r]|) <==> BoundaryBefore(traces, k, r + 1, 0)
  {
    forall k ensures BoundaryBefore(traces, k, r, |traces[r]|) <==> BoundaryBefore(traces, k, r + 1, 0) {
      if BoundaryBefore(traces, k, r + 1, 0) {
        var q: nat, j: nat :| BoundaryAt(traces, k, q, j) && q < r + 1;
      }
    }
  }

  method SynchronizedTransitions(events: seq<Event>, keys: set<Key>, provision: bool) returns (result: seq<Transition>)
    ensures result == Emit(events, KeyMarks(events, keys), provision, |events|)
    ensures exists at :: Emits(result, events, KeyMarks(events, keys), provision, at)
  {
    result := [];
    var previous := None;
    for i := 0 to |events|
      invariant previous == PreviousAt(events, i) && result == Emit(events, KeyMarks(events, keys), provision, i)
    {
      var event := events[i];
      if KeyOf(event) in keys {
        var trigger := if provision && previous.Some? then previous.event else event;
        if trigger.iteration != event.iteration { trigger := event; }
        result := result + [Transition(trigger, event)];
      }
      previous := Some(event);
    }
    EmitsAll(events, KeyMarks(events, keys), provision);
  }

  // ---------------------------------------------------------------- agreement between ranks

  lemma {:induction false} EmitMember(events: seq<Event>, mark: nat -> bool, provision: bool, n: nat, t: Transition)
    requires n <= |events|
    ensures t in Emit(events, mark, provision, n) <==>
      exists i: nat :: i < n && mark(i) && t == TransitionAt(events, i, provision)
  {
    if 0 < n {
      EmitMember(events, mark, provision, n - 1, t);
      if exists i: nat :: i < n && mark(i) && t == TransitionAt(events, i, provision) {
        var i: nat :| i < n && mark(i) && t == TransitionAt(events, i, provision);
      }
    }
  }

  /**
   * What every rank emits is decided by the traces of all ranks: an event is a target iff its key
   * is a boundary of any trace.
   */
  lemma RanksAgree(traces: seq<seq<Event>>, keys: set<Key>, provision: bool, s: nat, j: nat)
    requires (forall k :: k in keys <==> Boundary(traces, k)) && s < |traces| && j < |traces[s]|
    ensures var events := traces[s];
      (exists t :: t in Emit(events, KeyMarks(events, keys), provision, |events|) && t.target == events[j]) <==>
      Boundary(traces, KeyOf(events[j]))
  {
    var events := traces[s];
    var mark := KeyMarks(events, keys);
    EmitMember(events, mark, provision, |events|, TransitionAt(events, j, provision));
    if exists t :: t in Emit(events, mark, provision, |events|) && t.target == events[j] {
      var t :| t in Emit(events, mark, provision, |events|) && t.target == events[j];
      EmitMember(events, mark, provision, |events|, t);
    }
  }

  /** Every change of kind in a rank's own trace is among its synchronized transitions. */
  lemma OwnChangesEmitted(traces: seq<seq<Event>>, keys: set<Key>, provision: bool, s: nat, t: Transition)
    requires (forall k :: k in keys <==> Boundary(traces, k)) && s < |traces|
    requires t in Emit(traces[s], ChangeMarks(traces[s]), provision, |traces[s]|)
    ensures t in Emit(traces[s], KeyMarks(traces[s], keys), provision, |traces[s]|)
  {
    var events := traces[s];
    EmitMember(events, ChangeMarks(events), provision, |events|, t);
    EmitMember(events, KeyMarks(events, keys), provision, |events|, t);
    var i: nat :| i < |events| && ChangeMarks(events)(i) && t == TransitionAt(events, i, provision);
    assert BoundaryAt(traces, KeyOf(events[i]), s, i);
  }

  /** Baseline and provisioning emit the same targets in the same order; only triggers differ. */
  lemma {:induction false} SameTargets(events: seq<Event>, mark: nat -> bool, n: nat, k: nat)
    requires n <= |events|
    ensures |Emit(events, mark, true, n)| == |Emit(events, mark, false, n)|
    ensures k < |Emit(events, mark, true, n)| ==>
      var p, b := Emit(events, mark, true, n)[k], Emit(events, mark, false, n)[k];
      p.target == b.target == b.trigger && p.trigger.iteration == p.target.iteration
  {
    if 0 < n { SameTargets(events, mark, n - 1, k); }
  }

  // ---------------------------------------------------------------- legacy stages

  datatype Stage = Stage(start: Event, end: Event)

  /** First event behind stage `k` when stages begin at `cuts`. */
  function EndOf(cuts: seq<nat>, n: nat, k: nat): nat
    requires k < |cuts|
  {
    if k + 1 < |cuts| then cuts[k + 1] else n
  }

  /** The events from `a` up to `b` have one kind, and the event before `a`, if any, another one. */
  predicate MaximalFrom(events: seq<Event>, a: nat, b: nat)
  {
    && a < b <= |events| && (forall i :: a <= i < b ==> events[i].kind == events[a].kind)
    && (0 < a ==> events[a - 1].kind != events[a].kind)
  }

  predicate StageAt(events: seq<Event>, stages: seq<Stage>, cuts: seq<nat>, n: nat, k: nat)
    requires k < |stages| <= |cuts| && n <= |events|
  {
    var a, b := cuts[k], EndOf(cuts, n, k);
    MaximalFrom(events, a, b) && stages[k] == Stage(events[a], events[b - 1])
  }

  /**
   * legacy_stages: the stages are the maximal runs of one kind, in order; laid end to end they
   * are the whole trace.
   */
  method LegacyStages(events: seq<Event>) returns (stages: seq<Stage>, ghost cuts: seq<nat>)
    ensures |cuts| == |stages| && (events == [] <==> stages == []) && (cuts != [] ==> cuts[0] == 0)
    ensures forall k: nat :: k < |stages| ==> StageAt(events, stages, cuts, |events|, k)
  {
    stages, cuts := [], [];
    var start, previous := None, None;
    for i := 0 to |events|
      invariant previous == PreviousAt(events, i) && (start.None? <==> i == 0)
      invariant |cuts| == if i == 0 then 0 else |stages| + 1
      invariant 0 < i ==>
        cuts[0] == 0 && MaximalFrom(events, cuts[|stages|], i) && start.event == events[cuts[|stages|]]
      invariant i == 0 ==> stages == []
      invariant forall k: nat :: k < |stages| ==> StageAt(events, stages, cuts, i, k)
    {
      var event := events[i];
      ghost var n := i + 1;
      if start.None? {
        start := Some(event);
        cuts := [0];
      } else if event.kind != previous.event.kind {
        ghost var stages', cuts' := stages + [Stage(start.event, previous.event)], cuts + [i];
        forall k: nat | k < |stages'| ensures StageAt(events, stages', cuts', n, k) {
          if k < |stages| { assert StageAt(events, stages, cuts, i, k); }
        }
        stages := stages + [Stage(start.event, previous.event)];
        start := Some(event);
        cuts := cuts + [i];
      } else {
        forall k: nat | k < |stages| ensures StageAt(events, stages, cuts, n, k) {
          assert StageAt(events, stages, cuts, i, k);
        }
      }
      previous := Some(event);
    }
    if start.Some? {
      ghost var stages' := stages + [Stage(start.event, previous.event)];
      forall k: nat | k < |stages'| ensures StageAt(events, stages', cuts, |events|, k) {
        if k < |stages| { assert StageAt(events, stages, cuts, |events|, k); }
      }
      stages := stages + [Stage(start.event, previous.event)];
    }
  }
}

/**
 The relay's drain and loop as programs, proved to refine the steps of RelayProtocol while any other relay, any
 transaction and the broker take arbitrary steps between any two of their statements. What the database and the broker
 answer to the relay's own statements is an input: nothing here decides by itself to fail.
 */
module RelayDrain {
  import opened Wrappers
  import opened Ordering
  import opened Outbox
  import opened RelayProtocol
  import opened Deployments

  const DefaultBatchSize := 100

  /** What the loop waits for, in milliseconds, when a pass found less than a full batch, or failed. */
  const DefaultPollInterval := 100
  const DefaultErrorBackoff := 5000

  datatype DrainResult = DrainIdle | DrainBusy | DrainFailed

  /** What one pass meets: whether its query fails, the answers to the publish and the update of each row, the time. */
  datatype Answers = Answers(
    listFails: bool, publish: nat -> PublishOutcome, update: nat -> UpdateOutcome, clock: nat -> Time)
  {
    /** The pass stops at this row. */
    predicate Stops(e: Event) {
      e.WellFormed() && !publish(e.id).Replied?
    }
  }

  ghost predicate NoFaults(a: Answers) {
    !a.listFails && forall i: nat :: a.publish(i).Replied? && !a.update(i).NotUpdated?
  }

  /** The number of rows of a batch that a pass is done with: those before the first whose publish is refused. */
  function Done(a: Answers, events: seq<Event>): (n: nat)
    ensures n <= |events|
    ensures forall k | 0 <= k < n :: !a.Stops(events[k])
    ensures n < |events| ==> a.Stops(events[n])
  {
    if events == [] || a.Stops(events[0]) then 0 else 1 + Done(a, events[1..])
  }

  /** What a pass returns: failed iff its query or a publish of its batch fails, else busy iff the batch was full. */
  predicate Verdict(a: Answers, batch: seq<Event>, batchSize: nat, result: DrainResult) {
    && (result.DrainFailed? <==> a.listFails || exists k :: 0 <= k < |batch| && a.Stops(batch[k]))
    && (result.DrainBusy? <==> !result.DrainFailed? && |batch| == batchSize)
  }

  function Wait(result: DrainResult): nat {
    match result
    case DrainBusy => 0
    case DrainIdle => DefaultPollInterval
    case DrainFailed => DefaultErrorBackoff
  }

  /** The statements for one row: quarantine it if its envelope cannot be built, else publish it, and then mark it. */
  function RowScript(cfg: Config, me: nat, a: Answers, e: Event): seq<Step> {
    if !e.WellFormed() then
      [Quarantine(me, !a.update(e.id).NotUpdated?, MakeEnvelope(cfg, e).error, a.clock(e.id))]
    else
      [Publish(me, a.publish(e.id))]
        + if a.Stops(e) then [] else [Mark(me, !a.update(e.id).NotUpdated?, a.clock(e.id))]
  }

  function RowScripts(cfg: Config, me: nat, a: Answers, events: seq<Event>): seq<Step> {
    if events == [] then []
    else
      var n := |events| - 1;
      RowScripts(cfg, me, a, events[..n]) + RowScript(cfg, me, a, events[n])
  }

  /** All statements of a pass: the query, those for its rows up to the one it stops at, and the end if it does not. */
  function Script(cfg: Config, me: nat, batchSize: nat, a: Answers, batch: seq<Event>): seq<Step> {
    if a.listFails then [ListFails(me)] else [List(me, batchSize)] + TreatScript(cfg, me, a, batch)
  }

  function TreatScript(cfg: Config, me: nat, a: Answers, batch: seq<Event>): seq<Step> {
    var n := Done(a, batch);
    if n < |batch| then RowScripts(cfg, me, a, batch[..n + 1]) else RowScripts(cfg, me, a, batch) + [Finish(me)]
  }

  /** What the relay itself did in a trace. */
  function Own(me: nat, ls: seq<Step>): seq<Step> {
    if ls == [] then []
    else Own(me, ls[..|ls| - 1]) + if ls[|ls| - 1].ByRelay(me) then [ls[|ls| - 1]] else []
  }

  /** In the meantime nobody else committed, marked or quarantined rows; they may do anything else. */
  predicate Undisturbed(me: nat, ls: seq<Step>) {
    forall l | l in ls :: l.ByRelay(me) || LeavesTable(l)
  }

  lemma UndisturbedJoin(me: nat, a: seq<Step>, b: seq<Step>)
    ensures Undisturbed(me, a + b) <==> Undisturbed(me, a) && Undisturbed(me, b)
  {
    assert forall l | l in a :: l in a + b;
    assert forall l | l in b :: l in a + b;
  }

  lemma {:induction false} OwnJoin(me: nat, a: seq<Step>, b: seq<Step>)
    ensures Own(me, a + b) == Own(me, a) + Own(me, b)
    decreases |b|
  {
    if b == [] {
      assert a + b == a;
    } else {
      var n := |b| - 1;
      assert (a + b)[..|a + b| - 1] == a + b[..n];
      OwnJoin(me, a, b[..n]);
    }
  }

  lemma {:induction false} OthersOwnNothing(me: nat, others: seq<Step>)
    requires Silent(OfRelay(me), others)
    ensures Own(me, others) == []
    decreases |others|
  {
    if others != [] {
      assert !others[|others| - 1].By(OfRelay(me));
      OthersOwnNothing(me, others[..|others| - 1]);
    }
  }

  /**
   From `before` to `after` the relay itself took the steps `own`, and if nobody else committed or updated rows, exactly
   the rows `cleared` were taken off the pending ones.
   */
  ghost predicate Went(
      me: nat, before: State, after: State, steps: seq<Step>, own: seq<Step>, cleared: set<nat>)
  {
    && Own(me, steps) == own
    && before.origin <= after.origin
    && (Undisturbed(me, steps) ==> PendingIds(after.table) == PendingIds(before.table) - cleared)
  }

  /** Steps of others, and then one of its own. */
  lemma WentOne(me: nat, s0: State, s1: State, s2: State, others: seq<Step>, l: Step, cleared: set<nat>)
    requires Silent(OfRelay(me), others) && l.ByRelay(me)
    requires s0.origin <= s1.origin <= s2.origin
    requires AllLeaveTable(others) ==> s1.table == s0.table
    requires PendingIds(s2.table) == PendingIds(s1.table) - cleared
    ensures Went(me, s0, s2, others + [l], [l], cleared)
    ensures Undisturbed(me, others + [l]) ==> AllLeaveTable(others)
  {
    OwnJoin(me, others, [l]);
    OthersOwnNothing(me, others);
    assert Own(me, [l]) == Own(me, [l][..0]) + [l];
    UndisturbedJoin(me, others, [l]);
    forall x | x in others ensures !x.ByRelay(me) {
      assert !x.By(OfRelay(me));
    }
  }

  lemma WentIdle(me: nat, s0: State, s1: State, s2: State, others: seq<Step>, l: Step)
    requires Silent(OfRelay(me), others) && l.ByRelay(me)
    requires s0.origin <= s1.origin <= s2.origin
    requires (AllLeaveTable(others) ==> s1.table == s0.table) && s2.table == s1.table
    ensures Went(me, s0, s2, others + [l], [l], {})
    ensures Undisturbed(me, others + [l]) ==> s1.table == s0.table
  {
    WentOne(me, s0, s1, s2, others, l, {});
  }

  lemma WentOn(me: nat, s0: State, s1: State, s2: State, a: seq<Step>, b: seq<Step>, ownA: seq<Step>, ownB: seq<Step>,
               clearedA: set<nat>, clearedB: set<nat>)
    requires Went(me, s0, s1, a, ownA, clearedA) && Went(me, s1, s2, b, ownB, clearedB)
    ensures Went(me, s0, s2, a + b, ownA + ownB, clearedA + clearedB)
  {
    OwnJoin(me, a, b);
    UndisturbedJoin(me, a, b);
    assert PendingIds(s0.table) - clearedA - clearedB == PendingIds(s0.table) - (clearedA + clearedB);
  }

  /** The rows that the updates of a pass take off the pending ones. */
  function Cleared(a: Answers, events: seq<Event>): set<nat> {
    set e | e in events && !a.update(e.id).NotUpdated? :: e.id
  }

  function IdSet(es: seq<Event>): set<nat> {
    set e | e in es :: e.id
  }

  class Relay {
    const world: Deployment
    const me: nat
    const batchSize: nat

    constructor (world: Deployment, me: nat)
      ensures this.world == world && this.me == me && batchSize == DefaultBatchSize
    {
      this.world := world;
      this.me := me;
      batchSize := DefaultBatchSize;
    }

    /**
     One pass over the lowest pending rows. Whatever others do meanwhile, the pass takes the steps of its script and no
     others, and every well-formed row that it is done with is on the stream when it returns. If nobody else commits or
     updates rows, the batch is that of the table it found, and of it exactly the rows that the pass was done with, and
     whose update took effect, are pending no more.
     */
    method Drain(a: Answers) returns (result: DrainResult, ghost batch: seq<Event>, ghost steps: seq<Step>)
      requires world.Valid() && me !in world.state.relays && 0 < batchSize
      modifies world
      ensures world.Valid() && me !in world.state.relays && world.trace == old(world.trace) + steps
      ensures result.DrainFailed? <==>
                a.listFails || exists k :: 0 <= k < |batch| && batch[k].WellFormed() && !a.publish(batch[k].id).Replied?
      ensures result.DrainBusy? <==> !result.DrainFailed? && |batch| == batchSize
      ensures |batch| <= batchSize && Verdict(a, batch, batchSize, result)
      ensures Went(me, old(world.state), world.state, steps, Script(world.cfg, me, batchSize, a, batch),
                   if a.listFails then {} else Cleared(a, batch[..Done(a, batch)]))
      ensures !a.listFails ==> Sent(batch[..Done(a, batch)], world.state)
      ensures !a.listFails && Undisturbed(me, steps) ==>
                batch == Outbox.ListUnpublished(old(world.state).table, batchSize)
    {
      ghost var s0 := world.state;
      var listed;
      listed, steps := ListBatch(a);
      if listed.Failure? {
        batch := [];
        return DrainFailed, batch, steps;
      }
      ghost var s1, t := world.state, world.trace;
      batch := listed.value;
      ghost var treating;
      result, treating := Treat(a, listed.value);
      TraceJoin(old(world.trace), t, world.trace, steps, treating);
      UndisturbedJoin(me, steps, treating);
      WentOn(me, s0, s1, world.state, steps, treating, [List(me, batchSize)],
             TreatScript(world.cfg, me, a, batch), {}, Cleared(a, batch[..Done(a, batch)]));
      NothingMore(Cleared(a, batch[..Done(a, batch)]));
      steps := steps + treating;
    }

    /** The query of drain. */
    method ListBatch(a: Answers) returns (listed: Result<seq<Event>, string>, ghost steps: seq<Step>)
      requires world.Valid() && me !in world.state.relays && 0 < batchSize
      modifies world
      ensures world.Valid() && world.trace == old(world.trace) + steps
      ensures listed.Failure? <==> a.listFails
      ensures Went(me, old(world.state), world.state, steps,
                   [if a.listFails then ListFails(me) else List(me, batchSize)], {})
      ensures if listed.Failure? then me !in world.state.relays
              else
                && me in world.state.relays && world.state.relays[me] == Draining(listed.value, AtRow)
                && |listed.value| <= batchSize
                && (Undisturbed(me, steps) ==>
                      listed.value == Outbox.ListUnpublished(old(world.state).table, batchSize))
    {
      ghost var s0, t0 := world.state, world.trace;
      ghost var others := world.Interfere(OfRelay(me));
      ghost var s1 := world.state;
      listed := world.ListUnpublished(me, batchSize, a.listFails);
      ghost var l := if a.listFails then ListFails(me) else List(me, batchSize);
      WentIdle(me, s0, s1, world.state, others, l);
      steps := others + [l];
      assert t0 + others + [l] == t0 + steps;
    }

    /** The loop of drain over its batch; an empty one ends the pass as well. */
    method Treat(a: Answers, events: seq<Event>) returns (result: DrainResult, ghost steps: seq<Step>)
      requires world.Valid() && |events| <= batchSize && 0 < batchSize && !a.listFails
      requires me in world.state.relays && world.state.relays[me] == Draining(events, AtRow)
      modifies world
      ensures world.Valid() && me !in world.state.relays && world.trace == old(world.trace) + steps
      ensures Verdict(a, events, batchSize, result)
      ensures Went(me, old(world.state), world.state, steps, TreatScript(world.cfg, me, a, events),
                   Cleared(a, events[..Done(a, events)]))
      ensures Sent(events[..Done(a, events)], world.state)
    {
      ghost var s0 := world.state;
      var i := 0;
      steps := [];
      while i < |events|
        invariant 0 <= i <= |events|
        invariant world.Valid() && me in world.state.relays
        invariant world.state.relays[me] == Draining(events[i..], AtRow)
        invariant world.trace == old(world.trace) + steps
        invariant Treated(world.cfg, me, a, s0, world.state, events, i, steps)
      {
        ghost var s1 := world.state;
        assert events[i..][0] == events[i] && events[i..][1..] == events[i + 1..];
        ghost var t := world.trace;
        var stop, row := TreatRow(a, events[i]);
        TraceJoin(old(world.trace), t, world.trace, steps, row);
        if stop {
          TreatedStops(world.cfg, me, a, s0, s1, world.state, events, i, steps, row);
          steps := steps + row;
          return DrainFailed, steps;
        }
        TreatedMore(world.cfg, me, a, s0, s1, world.state, events, i, steps, row);
        steps := steps + row;
        i := i + 1;
      }
      ghost var s1, t := world.state, world.trace;
      world.Finish(me);
      TraceJoin(old(world.trace), t, world.trace, steps, [Finish(me)]);
      TreatedAll(world.cfg, me, a, s0, s1, world.state, events, steps);
      steps := steps + [Finish(me)];
      result := if |events| == batchSize then DrainBusy else DrainIdle;
    }

    /** One iteration: quarantine a row whose envelope cannot be built, else publish it and mark it published. */
    method TreatRow(a: Answers, e: Event) returns (stop: bool, ghost steps: seq<Step>)
      requires world.Valid() && me in world.state.relays && world.state.relays[me].phase.AtRow?
      requires world.state.relays[me].rest != [] && world.state.relays[me].rest[0] == e
      modifies world
      ensures world.Valid() && world.trace == old(world.trace) + steps
      ensures stop <==> a.Stops(e)
      ensures Went(me, old(world.state), world.state, steps, RowScript(world.cfg, me, a, e),
                   if stop then {} else Cleared(a, [e]))
      ensures if stop then me !in world.state.relays
              else
                && me in world.state.relays
                && world.state.relays[me] == Draining(old(world.state).relays[me].rest[1..], AtRow)
                && Sent([e], world.state)
    {
      var envelope := MakeEnvelope(world.cfg, e);
      if envelope.Failure? {
        steps := QuarantineRow(a, e, envelope.error);
        return false, steps;
      }
      ghost var s0 := world.state;
      stop, steps := PublishRow(a, e);
      if !stop {
        ghost var s1, t := world.state, world.trace;
        ghost var marking := MarkRow(a, e);
        TraceJoin(old(world.trace), t, world.trace, steps, marking);
        WentOn(me, s0, s1, world.state, steps, marking, [Publish(me, a.publish(e.id))],
               [Mark(me, !a.update(e.id).NotUpdated?, a.clock(e.id))], {}, Cleared(a, [e]));
        assert {} + Cleared(a, [e]) == Cleared(a, [e]);
        steps := steps + marking;
      }
    }

    method QuarantineRow(a: Answers, e: Event, reason: string) returns (ghost steps: seq<Step>)
      requires world.Valid() && me in world.state.relays && world.state.relays[me].phase.AtRow?
      requires world.state.relays[me].rest != [] && world.state.relays[me].rest[0] == e && !e.WellFormed()
      modifies world
      ensures world.Valid() && world.trace == old(world.trace) + steps
      ensures Went(me, old(world.state), world.state, steps,
                   [Quarantine(me, !a.update(e.id).NotUpdated?, reason, a.clock(e.id))], Cleared(a, [e]))
      ensures me in world.state.relays
      ensures world.state.relays[me] == Draining(old(world.state).relays[me].rest[1..], AtRow)
    {
      ghost var s0 := world.state;
      ghost var others := world.Interfere(OfRelay(me));
      ghost var s1 := world.state;
      var err := world.Quarantine(me, reason, a.clock(e.id), a.update(e.id));
      ghost var l := Quarantine(me, !a.update(e.id).NotUpdated?, reason, a.clock(e.id));
      ClearedOne(a, e);
      WentOne(me, s0, s1, world.state, others, l, Cleared(a, [e]));
      steps := others + [l];
    }

    method PublishRow(a: Answers, e: Event) returns (stop: bool, ghost steps: seq<Step>)
      requires world.Valid() && me in world.state.relays && world.state.relays[me].phase.AtRow?
      requires world.state.relays[me].rest != [] && world.state.relays[me].rest[0] == e && e.WellFormed()
      modifies world
      ensures world.Valid() && world.trace == old(world.trace) + steps
      ensures stop <==> a.Stops(e)
      ensures Went(me, old(world.state), world.state, steps, [Publish(me, a.publish(e.id))], {})
      ensures (me in world.state.relays) == !stop
      ensures !stop ==> world.state.relays[me] == Draining(old(world.state).relays[me].rest, Stored)
    {
      ghost var s0 := world.state;
      ghost var others := world.Interfere(OfRelay(me));
      ghost var s1 := world.state;
      stop := world.Publish(me, a.publish(e.id));
      WentOne(me, s0, s1, world.state, others, Publish(me, a.publish(e.id)), {});
      steps := others + [Publish(me, a.publish(e.id))];
    }

    /** The message is on the stream; record that in the table, and go on even if that fails. */
    method MarkRow(a: Answers, e: Event) returns (ghost steps: seq<Step>)
      requires world.Valid() && me in world.state.relays && world.state.relays[me].phase.Stored?
      requires world.state.relays[me].rest != [] && world.state.relays[me].rest[0] == e
      modifies world
      ensures world.Valid() && world.trace == old(world.trace) + steps
      ensures Went(me, old(world.state), world.state, steps,
                   [Mark(me, !a.update(e.id).NotUpdated?, a.clock(e.id))], Cleared(a, [e]))
      ensures me in world.state.relays
      ensures world.state.relays[me] == Draining(old(world.state).relays[me].rest[1..], AtRow)
      ensures Sent([e], world.state)
    {
      assert e.id in world.state.origin by {
        world.ReachableIsSafe();
        assert DrainingOk(world.state, world.state.relays[me]);
      }
      ghost var s0 := world.state;
      ghost var others := world.Interfere(OfRelay(me));
      ghost var s1 := world.state;
      var err := world.MarkPublished(me, a.clock(e.id), a.update(e.id));
      ghost var l := Mark(me, !a.update(e.id).NotUpdated?, a.clock(e.id));
      ClearedOne(a, e);
      WentOne(me, s0, s1, world.state, others, l, Cleared(a, [e]));
      steps := others + [l];
    }

    /** Drain, with what a pass without faults and disturbances does told by the number of pending rows alone. */
    method CountedDrain(a: Answers) returns (result: DrainResult, ghost batch: seq<Event>, ghost steps: seq<Step>)
      requires world.Valid() && me !in world.state.relays && batchSize == DefaultBatchSize
      modifies world
      ensures world.Valid() && me !in world.state.relays && world.trace == old(world.trace) + steps
      ensures Own(me, steps) == Script(world.cfg, me, batchSize, a, batch) && Verdict(a, batch, batchSize, result)
      ensures NoFaults(a) && Undisturbed(me, steps) ==>
                var pending := |PendingIds(old(world.state).table)|;
                && |PendingIds(world.state.table)| == Remaining(pending, 1)
                && result == if pending < 100 then DrainIdle else DrainBusy
    {
      ghost var table := world.state.table;
      assert Keyed(table) by {
        world.ReachableIsSafe();
      }
      result, batch, steps := Drain(a);
      if NoFaults(a) && Undisturbed(me, steps) {
        AllCleared(a, batch);
        BatchTaken(table, batch);
      }
    }

    /**
     The relay's goroutine, stopped after the pass that meets the last of these answers. Each pass does what its answers
     and its batch determine, and so is the wait after it. From N pending rows, without faults and disturbances, every
     pass with a full batch left is busy and the next one is idle: N / 100 + 1 passes, integer division, empty the
     outbox.
     */
    method Loop(met: seq<Answers>)
      returns (results: seq<DrainResult>, waits: seq<nat>,
               ghost batches: seq<seq<Event>>, ghost steps: seq<Step>)
      requires world.Valid() && me !in world.state.relays && batchSize == DefaultBatchSize
      modifies world
      ensures world.Valid() && me !in world.state.relays && world.trace == old(world.trace) + steps
      ensures Passed(world.cfg, me, batchSize, met, results, batches, steps)
      ensures forall k | 0 <= k < |met| ::
                && (results[k].DrainFailed? <==>
                      met[k].listFails
                      || exists e | e in batches[k] :: e.WellFormed() && !met[k].publish(e.id).Replied?)
                && (results[k].DrainBusy? <==> !results[k].DrainFailed? && |batches[k]| == batchSize)
      ensures |waits| == |met| && forall k | 0 <= k < |met| ::
                waits[k] ==
                  if results[k].DrainFailed? then 5000 else if |batches[k]| == batchSize then 0 else 100
      ensures (forall a | a in met :: NoFaults(a)) && Undisturbed(me, steps) ==>
                AsCounted(|PendingIds(old(world.state).table)|, |PendingIds(world.state.table)|, results)
    {
      results, waits, batches, steps := [], [], [], [];
      ghost var start := |PendingIds(world.state.table)|;
      for i := 0 to |met|
        invariant world.Valid() && me !in world.state.relays && world.trace == old(world.trace) + steps
        invariant Passed(world.cfg, me, batchSize, met[..i], results, batches, steps)
        invariant |waits| == i && forall k | 0 <= k < i :: waits[k] == Wait(results[k])
        invariant (forall a | a in met :: NoFaults(a)) && Undisturbed(me, steps) ==>
                    AsCounted(start, |PendingIds(world.state.table)|, results)
      {
        ghost var left := |PendingIds(world.state.table)|;
        ghost var t := world.trace;
        var result, batch, pass := CountedDrain(met[i]);
        TraceJoin(old(world.trace), t, world.trace, steps, pass);
        UndisturbedJoin(me, steps, pass);
        PassedMore(world.cfg, me, batchSize, met, i, results, batches, steps, result, batch, pass);
        if (forall a | a in met :: NoFaults(a)) && Undisturbed(me, steps + pass) {
          assert met[i] in met;
          CountedMore(start, left, |PendingIds(world.state.table)|, results, result);
        }
        steps := steps + pass;
        results, waits, batches := results + [result], waits + [Wait(result)], batches + [batch];
      }
      assert met[..|met|] == met;
    }
  }

  /** Each pass did what its answers and its batch determine, and nothing else was done. */
  ghost predicate Passed(
      cfg: Config, me: nat, batchSize: nat, met: seq<Answers>, results: seq<DrainResult>, batches: seq<seq<Event>>,
      steps: seq<Step>)
  {
    && |results| == |batches| == |met|
    && Own(me, steps) == Scripts(cfg, me, batchSize, met, batches)
    && forall k | 0 <= k < |met| :: Verdict(met[k], batches[k], batchSize, results[k])
  }

  lemma PassedMore(
      cfg: Config, me: nat, batchSize: nat, met: seq<Answers>, i: nat, results: seq<DrainResult>,
      batches: seq<seq<Event>>, steps: seq<Step>, result: DrainResult, batch: seq<Event>, pass: seq<Step>)
    requires i < |met| && Passed(cfg, me, batchSize, met[..i], results, batches, steps)
    requires Own(me, pass) == Script(cfg, me, batchSize, met[i], batch) && Verdict(met[i], batch, batchSize, result)
    ensures Passed(cfg, me, batchSize, met[..i + 1], results + [result], batches + [batch], steps + pass)
  {
    assert Own(me, steps + pass) == Scripts(cfg, me, batchSize, met[..i + 1], batches + [batch]) by {
      OwnJoin(me, steps, pass);
      ScriptsMore(cfg, me, batchSize, met, batches, i, batch);
    }
    forall k | 0 <= k < i + 1
      ensures Verdict(met[..i + 1][k], (batches + [batch])[k], batchSize, (results + [result])[k])
    {
      if k < i {
        assert met[..i][k] == met[..i + 1][k];
      }
    }
  }

  lemma CountedMore(pending: nat, left: nat, left': nat, results: seq<DrainResult>, result: DrainResult)
    requires AsCounted(pending, left, results) && left' == Remaining(left, 1)
    requires result == if left < 100 then DrainIdle else DrainBusy
    ensures AsCounted(pending, left', results + [result])
  {
  }

  /** What passes without faults and disturbances return, and what they leave, from so many pending rows. */
  predicate AsCounted(pending: nat, left: nat, results: seq<DrainResult>) {
    && left == Remaining(pending, |results|)
    && forall k | 0 <= k < |results| :: results[k] == if k < pending / 100 then DrainBusy else DrainIdle
  }

  /** The rows that can be sent are on the stream. */
  predicate Sent(events: seq<Event>, s: State) {
    forall e | e in events && e.WellFormed() :: e.id in s.origin
  }

  lemma SentStays(events: seq<Event>, s: State, s': State)
    requires Sent(events, s) && s.origin <= s'.origin
    ensures Sent(events, s')
  {
  }

  lemma SentMore(events: seq<Event>, i: nat, s: State)
    requires i < |events| && Sent(events[..i], s) && Sent([events[i]], s)
    ensures Sent(events[..i + 1], s)
  {
    assert events[i] in [events[i]];
    assert events[..i + 1] == events[..i] + [events[i]];
  }

  lemma ClearedOne(a: Answers, e: Event)
    ensures Cleared(a, [e]) == if !a.update(e.id).NotUpdated? then {e.id} else {}
  {
  }

  /** The first i rows are treated. */
  ghost predicate Treated(
      cfg: Config, me: nat, a: Answers, s0: State, s: State, events: seq<Event>, i: nat, steps: seq<Step>)
  {
    && i <= |events| && (forall k | 0 <= k < i :: !a.Stops(events[k]))
    && Went(me, s0, s, steps, RowScripts(cfg, me, a, events[..i]), Cleared(a, events[..i]))
    && Sent(events[..i], s)
  }

  lemma TreatedMore(cfg: Config, me: nat, a: Answers, s0: State, s1: State, s2: State, events: seq<Event>, i: nat,
                    steps: seq<Step>, row: seq<Step>)
    requires i < |events| && Treated(cfg, me, a, s0, s1, events, i, steps) && !a.Stops(events[i])
    requires Went(me, s1, s2, row, RowScript(cfg, me, a, events[i]), Cleared(a, [events[i]]))
    requires Sent([events[i]], s2)
    ensures Treated(cfg, me, a, s0, s2, events, i + 1, steps + row)
  {
    OneMore(cfg, me, a, events, i);
    WentOn(me, s0, s1, s2, steps, row, RowScripts(cfg, me, a, events[..i]), RowScript(cfg, me, a, events[i]),
           Cleared(a, events[..i]), Cleared(a, [events[i]]));
    SentStays(events[..i], s1, s2);
    SentMore(events, i, s2);
  }

  lemma TreatedStops(cfg: Config, me: nat, a: Answers, s0: State, s1: State, s2: State, events: seq<Event>, i: nat,
                     steps: seq<Step>, row: seq<Step>)
    requires i < |events| && Treated(cfg, me, a, s0, s1, events, i, steps) && a.Stops(events[i])
    requires Went(me, s1, s2, row, RowScript(cfg, me, a, events[i]), {})
    ensures Done(a, events) == i && Sent(events[..i], s2)
    ensures Went(me, s0, s2, steps + row, TreatScript(cfg, me, a, events), Cleared(a, events[..i]))
  {
    DoneIs(a, events, i);
    OneMore(cfg, me, a, events, i);
    WentOn(me, s0, s1, s2, steps, row, RowScripts(cfg, me, a, events[..i]), RowScript(cfg, me, a, events[i]),
           Cleared(a, events[..i]), {});
    NothingMore(Cleared(a, events[..i]));
    SentStays(events[..i], s1, s2);
  }

  lemma TreatedAll(cfg: Config, me: nat, a: Answers, s0: State, s1: State, s2: State, events: seq<Event>,
                   steps: seq<Step>)
    requires Treated(cfg, me, a, s0, s1, events, |events|, steps)
    requires s2.table == s1.table && s2.origin == s1.origin
    ensures Done(a, events) == |events| && Sent(events[..Done(a, events)], s2)
    ensures Went(me, s0, s2, steps + [Finish(me)], TreatScript(cfg, me, a, events),
                 Cleared(a, events[..Done(a, events)]))
  {
    assert events[..|events|] == events;
    DoneIs(a, events, |events|);
    WentOne(me, s1, s1, s2, [], Finish(me), {});
    assert [] + [Finish(me)] == [Finish(me)];
    WentOn(me, s0, s1, s2, steps, [Finish(me)], RowScripts(cfg, me, a, events), [Finish(me)], Cleared(a, events), {});
    NothingMore(Cleared(a, events));
  }

  lemma TraceJoin(t0: seq<Step>, t1: seq<Step>, t2: seq<Step>, a: seq<Step>, b: seq<Step>)
    requires t1 == t0 + a && t2 == t1 + b
    ensures t2 == t0 + (a + b)
  {
  }

  lemma NothingMore(cleared: set<nat>)
    ensures {} + cleared == cleared && cleared + {} == cleared
  {
  }

  lemma OneMore(cfg: Config, me: nat, a: Answers, events: seq<Event>, i: nat)
    requires i < |events|
    ensures RowScripts(cfg, me, a, events[..i + 1])
         == RowScripts(cfg, me, a, events[..i]) + RowScript(cfg, me, a, events[i])
    ensures Cleared(a, events[..i + 1]) == Cleared(a, events[..i]) + Cleared(a, [events[i]])
  {
    assert events[..i + 1] == events[..i] + [events[i]] && events[..i + 1][..i] == events[..i];
    ClearedOne(a, events[i]);
  }

  lemma ScriptsMore(cfg: Config, me: nat, batchSize: nat, met: seq<Answers>, batches: seq<seq<Event>>, i: nat,
                    batch: seq<Event>)
    requires i < |met| && |batches| == i
    ensures Scripts(cfg, me, batchSize, met[..i + 1], batches + [batch])
         == Scripts(cfg, me, batchSize, met[..i], batches) + Script(cfg, me, batchSize, met[i], batch)
  {
    assert met[..i + 1][..i] == met[..i] && (batches + [batch])[..i] == batches;
  }

  function Scripts(cfg: Config, me: nat, batchSize: nat, met: seq<Answers>, batches: seq<seq<Event>>): seq<Step>
    requires |met| == |batches|
  {
    if met == [] then []
    else
      var n := |met| - 1;
      Scripts(cfg, me, batchSize, met[..n], batches[..n]) + Script(cfg, me, batchSize, met[n], batches[n])
  }

  lemma {:induction false} DoneIs(a: Answers, events: seq<Event>, n: nat)
    requires n <= |events| && (n < |events| ==> a.Stops(events[n]))
    requires forall k | 0 <= k < n :: !a.Stops(events[k])
    ensures Done(a, events) == n
    decreases n
  {
    if n > 0 {
      DoneIs(a, events[1..], n - 1);
    }
  }

  lemma AllCleared(a: Answers, batch: seq<Event>)
    requires NoFaults(a)
    ensures Done(a, batch) == |batch| && Cleared(a, batch[..Done(a, batch)]) == IdSet(batch)
  {
    DoneIs(a, batch, |batch|);
    assert batch[..|batch|] == batch;
  }

  /** Pending rows left after n passes without faults and disturbances. */
  function Remaining(pending: nat, n: nat): nat {
    if 100 * n <= pending then pending - 100 * n else 0
  }

  /** The batch takes min(100, pending) rows off the pending ones. */
  lemma BatchTaken(t: Table, batch: seq<Event>)
    requires Keyed(t) && batch == ListUnpublished(t, DefaultBatchSize)
    ensures |batch| == (if |PendingIds(t)| <= 100 then |PendingIds(t)| else 100)
    ensures |PendingIds(t) - IdSet(batch)| == |PendingIds(t)| - |batch|
  {
    ListUnpublishedSpec(t, DefaultBatchSize);
    var ids := Ids(batch);
    assert IdSet(batch) <= PendingIds(t);
    IncreasingSize(batch);
    assert (PendingIds(t) - IdSet(batch)) + IdSet(batch) == PendingIds(t);
  }

  lemma {:induction false} IncreasingSize(es: seq<Event>)
    requires Increasing(Ids(es))
    ensures |IdSet(es)| == |es|
  {
    if es != [] {
      var n := |es| - 1;
      assert es == es[..n] + [es[n]];
      assert Ids(es[..n]) == Ids(es)[..n];
      IncreasingSize(es[..n]);
      assert IdSet(es) == IdSet(es[..n]) + {es[n].id};
      assert es[n].id !in IdSet(es[..n]) by {
        forall k | 0 <= k < n ensures es[k].id != es[n].id {
          assert Ids(es)[k] < Ids(es)[n];
        }
      }
    }
  }
}

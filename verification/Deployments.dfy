/**
 The database and the broker as the object that all relays and use cases share. Every operation takes its step in the
 protocol; between two operations of one party, the others may take any steps of their own.
 */
module Deployments {
  import opened Wrappers
  import opened Outbox
  import opened RelayProtocol

  /** An UPDATE is acknowledged, takes effect with the acknowledgement lost, or does not take effect. */
  datatype UpdateOutcome = Updated | UpdateUnheard | NotUpdated

  predicate Silent(party: Party, ls: seq<Step>) {
    forall l | l in ls :: !l.By(party)
  }

  /** Neither a commit nor an UPDATE that takes effect. */
  predicate LeavesTable(l: Step) {
    !l.Commit? && (l.Mark? || l.Quarantine? ==> !l.effective)
  }

  predicate AllLeaveTable(ls: seq<Step>) {
    forall l | l in ls :: LeavesTable(l)
  }

  /** The steps of others neither start, stop nor move a relay, and they leave a transaction's own rows alone. */
  lemma {:induction false} OthersKeep(cfg: Config, s: State, ls: seq<Step>, party: Party)
    requires Runs(cfg, s, ls) && Silent(party, ls)
    ensures Kept(party, s, After(cfg, s, ls))
    decreases ls
  {
    if ls != [] {
      assert ls[0] in ls && !ls[0].By(party);
      assert forall l | l in ls[1..] :: l in ls;
      OtherKeeps(cfg, s, ls[0], party);
      OthersKeep(cfg, Apply(cfg, s, ls[0]), ls[1..], party);
    }
  }

  lemma OtherKeeps(cfg: Config, s: State, l: Step, party: Party)
    requires Enabled(s, l) && !l.By(party)
    ensures Kept(party, s, Apply(cfg, s, l))
  {
  }

  predicate Kept(party: Party, s: State, s': State) {
    match party
    case OfRelay(r) => (r in s'.relays) == (r in s.relays) && (r in s.relays ==> s'.relays[r] == s.relays[r])
    case OfTransaction(t) => (t in s'.open) == (t in s.open) && (t in s.open ==> s'.open[t] == s.open[t])
  }

  lemma {:induction false} TableLeft(cfg: Config, s: State, ls: seq<Step>)
    requires Runs(cfg, s, ls) && AllLeaveTable(ls)
    ensures After(cfg, s, ls).table == s.table
    decreases ls
  {
    if ls != [] {
      assert ls[0] in ls && LeavesTable(ls[0]);
      assert forall l | l in ls[1..] :: l in ls;
      TableLeft(cfg, Apply(cfg, s, ls[0]), ls[1..]);
    }
  }

  lemma {:induction false} RunsJoin(cfg: Config, s: State, ls: seq<Step>, more: seq<Step>)
    requires Runs(cfg, s, ls) && Runs(cfg, After(cfg, s, ls), more)
    ensures Runs(cfg, s, ls + more) && After(cfg, s, ls + more) == After(cfg, After(cfg, s, ls), more)
    decreases ls
  {
    if ls == [] {
      assert ls + more == more;
    } else {
      assert (ls + more)[1..] == ls[1..] + more;
      RunsJoin(cfg, Apply(cfg, s, ls[0]), ls[1..], more);
    }
  }

  /** The database and the broker that all relays and use cases share. trace is everything that happened to them. */
  class Deployment {
    const cfg: Config
    var state: State
    ghost var trace: seq<Step>

    ghost predicate Valid()
      reads this
    {
      Runs(cfg, Initial, trace) && state == After(cfg, Initial, trace)
    }

    lemma ReachableIsSafe()
      requires Valid()
      ensures Safe(cfg, state)
    {
      RunSafe(cfg, Initial, trace);
    }

    constructor (cfg: Config)
      ensures Valid() && this.cfg == cfg && trace == []
    {
      this.cfg := cfg;
      state := Initial;
      trace := [];
    }

    /** One step. */
    method Perform(l: Step)
      requires Valid() && Enabled(state, l)
      modifies this
      ensures Valid() && trace == old(trace) + [l] && state == Apply(cfg, old(state), l)
      ensures old(state).origin <= state.origin
    {
      RunsAppend(cfg, Initial, trace, l);
      assert state.origin <= Apply(cfg, state, l).origin by {
        ReachableIsSafe();
        StepExtends(cfg, state, l);
      }
      state := Apply(cfg, state, l);
      trace := trace + [l];
    }

    /** Any steps of other parties, possibly none. */
    method Interfere(party: Party) returns (ghost others: seq<Step>)
      requires Valid()
      modifies this
      ensures Valid() && trace == old(trace) + others && old(state).origin <= state.origin
      ensures Silent(party, others) && Kept(party, old(state), state)
      ensures AllLeaveTable(others) ==> state.table == old(state).table
    {
      assert Runs(cfg, state, []);
      var ls: seq<Step> :| Runs(cfg, state, ls) && Silent(party, ls);
      RunsJoin(cfg, Initial, trace, ls);
      assert state.origin <= After(cfg, state, ls).origin by {
        ReachableIsSafe();
        RunSafe(cfg, state, ls);
      }
      OthersKeep(cfg, state, ls, party);
      assert AllLeaveTable(ls) ==> After(cfg, state, ls).table == state.table by {
        if AllLeaveTable(ls) {
          TableLeft(cfg, state, ls);
        }
      }
      state := After(cfg, state, ls);
      trace := trace + ls;
      others := ls;
    }

    /** The SELECT of the repository; if it fails, nothing is listed. */
    method ListUnpublished(me: nat, limit: int, fails: bool) returns (r: Result<seq<Event>, string>)
      requires Valid() && me !in state.relays
      modifies this
      ensures Valid() && old(state).origin <= state.origin && state.table == old(state).table
      ensures r.Failure? <==> fails
      ensures trace == old(trace) + [if fails then ListFails(me) else List(me, limit)]
      ensures fails ==> me !in state.relays
      ensures !fails ==>
                && me in state.relays && state.relays[me] == Draining(r.value, AtRow)
                && r.value == Outbox.ListUnpublished(old(state).table, limit)
    {
      if fails {
        Perform(ListFails(me));
        return Failure("list unpublished");
      }
      r := Success(Outbox.ListUnpublished(state.table, limit));
      Perform(List(me, limit));
    }

    /** Only an acknowledged publish lets the relay go on. */
    method Publish(me: nat, outcome: PublishOutcome) returns (err: bool)
      requires Valid() && Enabled(state, RelayProtocol.Publish(me, outcome))
      modifies this
      ensures Valid() && old(state).origin <= state.origin
      ensures trace == old(trace) + [RelayProtocol.Publish(me, outcome)]
      ensures state.table == old(state).table
      ensures err <==> !outcome.Replied?
      ensures (me in state.relays) == !err
      ensures !err ==> state.relays[me] == Draining(old(state).relays[me].rest, Stored)
    {
      Perform(RelayProtocol.Publish(me, outcome));
      err := !outcome.Replied?;
    }

    method MarkPublished(me: nat, at: Time, update: UpdateOutcome) returns (err: bool)
      requires Valid() && Enabled(state, Mark(me, !update.NotUpdated?, at))
      modifies this
      ensures Valid() && old(state).origin <= state.origin && (err <==> !update.Updated?)
      ensures trace == old(trace) + [Mark(me, !update.NotUpdated?, at)]
      ensures me in state.relays && state.relays[me] == Draining(old(state).relays[me].rest[1..], AtRow)
      ensures PendingIds(state.table) == PendingIds(old(state).table)
                - if !update.NotUpdated? then {old(state).relays[me].rest[0].id} else {}
    {
      ReachableIsSafe();
      PendingAfter(cfg, state, Mark(me, !update.NotUpdated?, at));
      Perform(Mark(me, !update.NotUpdated?, at));
      err := !update.Updated?;
    }

    method Quarantine(me: nat, reason: string, at: Time, update: UpdateOutcome) returns (err: bool)
      requires Valid() && Enabled(state, RelayProtocol.Quarantine(me, !update.NotUpdated?, reason, at))
      modifies this
      ensures Valid() && old(state).origin <= state.origin && (err <==> !update.Updated?)
      ensures trace == old(trace) + [RelayProtocol.Quarantine(me, !update.NotUpdated?, reason, at)]
      ensures me in state.relays && state.relays[me] == Draining(old(state).relays[me].rest[1..], AtRow)
      ensures PendingIds(state.table) == PendingIds(old(state).table)
                - if !update.NotUpdated? then {old(state).relays[me].rest[0].id} else {}
    {
      ReachableIsSafe();
      PendingAfter(cfg, state, RelayProtocol.Quarantine(me, !update.NotUpdated?, reason, at));
      Perform(RelayProtocol.Quarantine(me, !update.NotUpdated?, reason, at));
      err := !update.Updated?;
    }

    /** The end of drain. */
    method Finish(me: nat)
      requires Valid() && me in state.relays && state.relays[me].rest == []
      modifies this
      ensures Valid() && me !in state.relays && trace == old(trace) + [RelayProtocol.Finish(me)]
      ensures state.table == old(state).table && state.origin == old(state).origin
    {
      Perform(RelayProtocol.Finish(me));
    }
  }
}

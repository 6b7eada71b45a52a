/**
 The bus as a program, and a use case: a unit of work whose body publishes domain events to handlers that insert
 outbox rows into the ambient transaction, while relays and other transactions work on the same database. Units of work
 are flat: a Do always starts from the root handle.
 */
module UnitOfWork {
  import opened Ordering
  import opened Outbox
  import opened EventBus
  import RelayProtocol
  import opened Deployments

  // ---------------------------------------------------------------------------------------------------------------
  // The ambient transaction
  // ---------------------------------------------------------------------------------------------------------------

  /** The row was made of this draft; the rest of it was filled in when it was stored. */
  predicate Carries(e: Event, d: Draft) {
    e.subject == d.subject && e.version == d.version && e.payload == d.payload && e.Pending()
  }

  /** These are the rows of the table, in the order of their ids. */
  ghost predicate RowsAre(t: Table, ids: seq<nat>, rows: seq<Draft>) {
    && |ids| == |rows| && Increasing(ids)
    && (forall i :: i in t <==> i in ids)
    && forall k | 0 <= k < |ids| :: Carries(t[ids[k]], rows[k])
  }

  /** What a transaction has done so far: it began and inserted. */
  predicate Inserting(tx: nat, ls: seq<RelayProtocol.Step>) {
    forall l | l in ls && l.ByTransaction(tx) :: l.Begin? || l.Insert?
  }

  lemma UnusedUuid(used: set<Uuid>) returns (u: Uuid)
    ensures u !in used
  {
    var ids := Ascending(used);
    u := if ids == [] then 0 else ids[|ids| - 1] + 1;
    forall v | v in used ensures v < u {
      assert v in ids;
    }
  }

  /**
   An open transaction. from is the number of rows that the bus had stored before it began, start is what had happened
   to the database until then, and steps is what happened to it since.
   */
  class Transaction {
    const world: Deployment
    const id: nat
    var rows: seq<Draft>
    ghost var ids: seq<nat>
    ghost var steps: seq<RelayProtocol.Step>
    ghost const from: nat
    ghost const start: seq<RelayProtocol.Step>

    ghost predicate Valid()
      reads this, world
    {
      && world.Valid() && world.trace == start + steps && Inserting(id, steps)
      && id in world.state.open && RowsAre(world.state.open[id], ids, rows)
    }

    constructor (world: Deployment, id: nat, ghost from: nat)
      requires world.Valid() && id !in world.state.open
      modifies world
      ensures Valid() && rows == []
      ensures this.world == world && this.id == id && this.from == from && start == old(world.trace)
    {
      this.world, this.id, this.from, this.start := world, id, from, world.trace;
      rows, ids, steps := [], [], [];
      new;
      ghost var others := world.Interfere(RelayProtocol.OfTransaction(id));
      world.Perform(RelayProtocol.Begin(id));
      steps := others + [RelayProtocol.Begin(id)];
      OthersInsert(id, others);
    }

    /** Store: one INSERT, under a fresh UUID and the next id of the sequence. */
    method Insert(d: Draft)
      requires Valid()
      modifies this, world
      ensures Valid() && rows == old(rows) + [d]
    {
      ghost var others := world.Interfere(RelayProtocol.OfTransaction(id));
      OthersInsert(id, others);
      ghost var unused := UnusedUuid(world.state.minted.Keys);
      var uuid: Uuid :| uuid !in world.state.minted;
      var at: Time :| true;
      var row := RelayProtocol.Draft(uuid, d.subject, d.version, d.payload, at);
      ghost var before, nextId := world.state.open[id], world.state.nextId;
      world.ReachableIsSafe();
      OpenBelow(world.state, id);
      world.Perform(RelayProtocol.Insert(id, row));
      RowsInserted(before, ids, rows, nextId, row, d);
      rows, ids := rows + [d], ids + [nextId];
      steps := steps + others + [RelayProtocol.Insert(id, row)];
    }
  }

  lemma OpenBelow(s: RelayProtocol.State, id: nat)
    requires RelayProtocol.OpenOk(s) && id in s.open
    ensures forall i | i in s.open[id] :: i < s.nextId
  {
    forall i | i in s.open[id] ensures i < s.nextId {
      RelayProtocol.OpenRowOwned(s, id, i);
    }
  }

  lemma OthersInsert(id: nat, others: seq<RelayProtocol.Step>)
    requires Silent(RelayProtocol.OfTransaction(id), others)
    ensures Inserting(id, others)
  {
    forall l | l in others ensures !l.ByTransaction(id) {
      assert !l.By(RelayProtocol.OfTransaction(id));
    }
  }

  lemma RowsInserted(t: Table, ids: seq<nat>, rows: seq<Draft>, id: nat, row: RelayProtocol.Draft, d: Draft)
    requires RowsAre(t, ids, rows) && forall i | i in t :: i < id
    requires row.subject == d.subject && row.version == d.version && row.payload == d.payload
    ensures RowsAre(t[id := RelayProtocol.NewRow(id, row)], ids + [id], rows + [d])
  {
    forall k | 0 <= k < |ids| ensures ids[k] in t && ids[k] < id {
      assert ids[k] in ids;
    }
  }

  class InMemoryBus {
    const mw: seq<Middleware>
    var routes: map<string, seq<Chain>>
    ghost var log: seq<Entry>

    constructor (mw: seq<Middleware>)
      ensures this.mw == mw && routes == map[] && log == []
    {
      this.mw := mw;
      routes := map[];
      log := [];
    }

    ghost function State(): Bus
      reads this
    {
      Bus(mw, routes, log)
    }

    /** The transaction holds what was stored since it began. */
    ghost predicate Holds(tx: Transaction)
      reads this, tx, tx.world
    {
      tx.Valid() && tx.from <= |Rows(log)| && tx.rows == Rows(log)[tx.from..]
    }

    ghost method Note(tx: Transaction, e: Entry)
      requires Holds(tx) && !e.Stored?
      modifies this`log
      ensures Holds(tx) && State() == old(State()).Log(e)
    {
      LogKeepsRows(log, e);
      log := log + [e];
    }

    /** The wrapping loop, from the innermost layer to the outermost. */
    method Wrap(h: Handler) returns (c: Chain)
      ensures c == Wrapped(mw, h)
    {
      c := Recovered(Base(h));
      for i := |mw| downto 0
        invariant c == Wrapped(mw[i..], h)
      {
        c := Through(mw[i], c);
        assert mw[i..] == [mw[i]] + mw[i + 1..];
      }
      assert mw[0..] == mw;
    }

    method Subscribe(name: string, h: Handler)
      modifies this
      ensures State() == Register(old(State()), name, h) && Rows(log) == Rows(old(log))
    {
      LogKeepsRows(log, Subscribed(name, h));
      var c := Wrap(h);
      routes := routes[name := (if name in routes then routes[name] else []) + [c]];
      log := log + [Subscribed(name, h)];
    }

    method Publish(tx: Transaction, name: string, fuel: nat) returns (o: Outcome)
      requires Holds(tx)
      modifies this, tx, tx.world
      ensures Holds(tx) && (State(), o) == RunPublish(old(State()), name, fuel)
      decreases fuel, 3, 0
    {
      ghost var call := |log|;
      Note(tx, Began(name));
      var handlers := if name in routes then routes[name] else [];
      var i := 0;
      while i < |handlers|
        invariant 0 <= i <= |handlers| && Holds(tx)
        invariant RunAll(State(), call, handlers[i..], fuel) == RunPublish(old(State()), name, fuel)
      {
        assert handlers[i..][0] == handlers[i] && handlers[i..][1..] == handlers[i + 1..];
        Note(tx, Dispatched(call, handlers[i]));
        o := Call(tx, handlers[i], fuel);
        Note(tx, Returned(call, o));
        if !o.Nil? {
          return;
        }
        i := i + 1;
      }
      o := Nil;
    }

    /** A call of a wrapped handler. */
    method Call(tx: Transaction, chain: Chain, fuel: nat) returns (o: Outcome)
      requires Holds(tx)
      modifies this, tx, tx.world
      ensures Holds(tx) && (State(), o) == RunChain(old(State()), chain, fuel)
      decreases fuel, 1, chain
    {
      match chain
      case Base(h) =>
        Note(tx, Called(h));
        o := Act(tx, h.actions, h.ends, fuel);
        Note(tx, Finished(h, o));
      case Recovered(next) =>
        o := Call(tx, next, fuel);
        o := Recover(o);
      case Through(layer, next) =>
        Note(tx, Entered(layer));
        if layer.policy.Refuse? {
          return Err(layer.policy.cause);
        }
        o := Call(tx, next, fuel);
        o := AfterLayer(layer.policy, o);
    }

    /** A handler's call of the outbox storage. */
    method Store(tx: Transaction, row: Draft)
      requires Holds(tx)
      modifies this, tx, tx.world
      ensures Holds(tx) && State() == old(State()).Log(Stored(row))
    {
      assert (log + [Stored(row)])[..|log|] == log;
      log := log + [Stored(row)];
      tx.Insert(row);
    }

    /** The body of a handler. */
    method Act(tx: Transaction, actions: seq<Action>, ends: Outcome, fuel: nat) returns (o: Outcome)
      requires Holds(tx)
      modifies this, tx, tx.world
      ensures Holds(tx) && (State(), o) == RunHandler(old(State()), actions, ends, fuel)
      decreases fuel, 0, |actions|
    {
      if actions == [] {
        return ends;
      }
      match actions[0]
      case Store(row) =>
        Store(tx, row);
        o := Act(tx, actions[1..], ends, fuel);
      case Subscribe(name, h) =>
        Subscribe(name, h);
        o := Act(tx, actions[1..], ends, fuel);
      case Publish(_, _) => o := ActNested(tx, actions, ends, fuel);
    }

    /** A handler that publishes. */
    method ActNested(tx: Transaction, actions: seq<Action>, ends: Outcome, fuel: nat) returns (o: Outcome)
      requires Holds(tx) && actions != [] && actions[0].Publish?
      modifies this, tx, tx.world
      ensures Holds(tx) && (State(), o) == RunHandler(old(State()), actions, ends, fuel)
      decreases fuel, 0, |actions|, 0
    {
      if fuel == 0 {
        return Overflow;
      }
      o := Publish(tx, actions[0].name, fuel - 1);
      if o.Nil? || (o.Err? && !actions[0].propagate) {
        o := Act(tx, actions[1..], ends, fuel);
      }
    }

    method PublishAll(tx: Transaction, names: seq<string>, fuel: nat) returns (o: Outcome, ghost calls: seq<nat>)
      requires Holds(tx)
      modifies this, tx, tx.world
      ensures Holds(tx) && (State(), o, calls) == RunPublishAll(old(State()), names, fuel)
    {
      calls, o := [], Nil;
      var i := 0;
      assert names[0..] == names;
      assert [] + RunPublishAll(State(), names, fuel).2 == RunPublishAll(State(), names, fuel).2;
      while i < |names|
        invariant 0 <= i <= |names| && Holds(tx)
        invariant RunPublishAll(old(State()), names, fuel) ==
                    Prepend(calls, RunPublishAll(State(), names[i..], fuel))
      {
        ghost var before := State();
        ghost var earlier := calls;
        calls := calls + [|log|];
        o := Publish(tx, names[i], fuel);
        assert names[i..][0] == names[i] && names[i..][1..] == names[i + 1..];
        if !o.Nil? {
          assert RunPublishAll(before, names[i..], fuel) == (State(), o, [|before.log|]);
          return;
        }
        ghost var tail := RunPublishAll(State(), names[i + 1..], fuel).2;
        assert earlier + ([|before.log|] + tail) == calls + tail;
        i := i + 1;
      }
      assert calls + [] == calls;
      o := Nil;
    }
  }

  ghost function Prepend(calls: seq<nat>, r: (Bus, Outcome, seq<nat>)): (Bus, Outcome, seq<nat>) {
    (r.0, r.1, calls + r.2)
  }

  lemma LogKeepsRows(log: seq<Entry>, e: Entry)
    requires !e.Stored?
    ensures Rows(log + [e]) == Rows(log)
  {
    assert (log + [e])[..|log|] == log;
  }

  // ---------------------------------------------------------------------------------------------------------------
  // Do
  // ---------------------------------------------------------------------------------------------------------------

  /** The answer to COMMIT: acknowledged, applied with the acknowledgement lost, or refused. */
  datatype CommitOutcome = Acknowledged | Unheard | Refused

  /** How a transaction ends: its body fails, or its body returns nil and its commit is answered. */
  datatype Ending = RolledBack | Answered(commit: CommitOutcome)
  {
    predicate Visible() {
      Answered? && !commit.Refused?
    }
  }

  function EndingOf(body: Outcome, commit: CommitOutcome): Ending {
    if body.Nil? then Answered(commit) else RolledBack
  }

  /**
   What a body that publishes these events did to the bus. It ran the handlers in order (InOrder); every handler called
   did what its actions say; `added` are the rows stored, and if no handler called publishes, exactly those that the
   handlers called store, call by call. If no layer refuses or panics the outcome is no panic, and if all of them
   forward it is not nil when a handler that is to fail or panic was dispatched.
   */
  ghost predicate BodyRan(b: Bus, b': Bus, names: seq<string>, calls: seq<nat>, added: seq<Draft>, o: Outcome) {
    && Later(b, b') && InOrder(b.mw, b'.log, names, |b.log|, calls, o)
    && Rows(b'.log) == Rows(b.log) + added
    && AllActed(b.mw, b'.log, |b.log|)
    && (NoneCalledPublishes(b'.log, |b.log|) ==> added == RowsOfCalled(b'.log[|b.log|..]))
    && FailureShown(b.mw, b'.log, calls, o)
  }

  lemma BodyTold(b: Bus, b': Bus, names: seq<string>, fuel: nat, o: Outcome, calls: seq<nat>)
    requires Consistent(b) && RunPublishAll(b, names, fuel) == (b', o, calls)
    ensures |Rows(b.log)| <= |Rows(b'.log)|
    ensures BodyRan(b, b', names, calls, Rows(b'.log)[|Rows(b.log)|..], o)
  {
    BodyInOrder(b, b', names, fuel, o, calls);
    RowsAdded(b.log, b'.log);
    BodyActs(b, b', names, fuel, o, calls);
  }

  lemma BodyActs(b: Bus, b': Bus, names: seq<string>, fuel: nat, o: Outcome, calls: seq<nat>)
    requires Consistent(b) && RunPublishAll(b, names, fuel) == (b', o, calls)
    requires b.log <= b'.log && Rows(b.log) <= Rows(b'.log)
    ensures AllActed(b.mw, b'.log, |b.log|)
    ensures NoneCalledPublishes(b'.log, |b.log|) ==>
              Rows(b'.log)[|Rows(b.log)|..] == RowsOfCalled(b'.log[|b.log|..])
  {
    EveryHandlerActs(b, names, fuel);
    BodyStores(b, b', names, fuel, o, calls);
  }

  lemma BodyInOrder(b: Bus, b': Bus, names: seq<string>, fuel: nat, o: Outcome, calls: seq<nat>)
    requires Consistent(b) && RunPublishAll(b, names, fuel) == (b', o, calls)
    ensures Later(b, b') && InOrder(b.mw, b'.log, names, |b.log|, calls, o) && FailureShown(b.mw, b'.log, calls, o)
  {
    PublishAllInOrder(b, names, fuel);
    FailureShows(b.mw, b'.log, names, |b.log|, calls, o);
  }

  lemma BodyStores(b: Bus, b': Bus, names: seq<string>, fuel: nat, o: Outcome, calls: seq<nat>)
    requires Consistent(b) && RunPublishAll(b, names, fuel) == (b', o, calls)
    requires b.log <= b'.log && Rows(b.log) <= Rows(b'.log)
    ensures NoneCalledPublishes(b'.log, |b.log|) ==>
              Rows(b'.log)[|Rows(b.log)|..] == RowsOfCalled(b'.log[|b.log|..])
  {
    PublishAllStores(b, names, fuel);
    RowsAdded(b.log, b'.log);
  }

  lemma RowsAdded(log: seq<Entry>, log': seq<Entry>)
    requires log <= log'
    ensures Rows(log) <= Rows(log') && Rows(log')[|Rows(log)|..] == Rows(log'[|log|..])
  {
    StoredJoin(log, log'[|log|..]);
    assert log + log'[|log|..] == log';
  }

  /**
   All or nothing. From `start` on the transaction only inserted, until `before`, when its rows were exactly these and
   none of them was visible. Then its last step was taken, and led to `now`: all of them are visible and pending, or the
   table is what it was.
   */
  ghost predicate AllOrNothing(
      cfg: Config, start: seq<RelayProtocol.Step>, steps: seq<RelayProtocol.Step>, before: RelayProtocol.State,
      id: nat, ids: seq<nat>, rows: seq<Draft>, ending: Ending, now: RelayProtocol.State)
  {
    && Inserting(id, steps) && RelayProtocol.Runs(cfg, RelayProtocol.Initial, start + steps)
    && before == RelayProtocol.After(cfg, RelayProtocol.Initial, start + steps)
    && id in before.open && RowsAre(before.open[id], ids, rows)
    && (forall i | i in ids :: i !in before.table)
    && id !in now.open
    && now == RelayProtocol.Apply(cfg, before, LastStep(id, ending))
    && now.table == (if ending.Visible() then before.table + before.open[id] else before.table)
    && PendingIds(now.table) ==
         (if ending.Visible() then PendingIds(before.table) + before.open[id].Keys else PendingIds(before.table))
  }

  lemma Ends(
      cfg: Config, start: seq<RelayProtocol.Step>, steps: seq<RelayProtocol.Step>, before: RelayProtocol.State,
      id: nat, ids: seq<nat>, rows: seq<Draft>, ending: Ending)
    requires Inserting(id, steps) && RelayProtocol.Runs(cfg, RelayProtocol.Initial, start + steps)
    requires before == RelayProtocol.After(cfg, RelayProtocol.Initial, start + steps)
    requires id in before.open && RowsAre(before.open[id], ids, rows)
    ensures RelayProtocol.Enabled(before, LastStep(id, ending))
    ensures AllOrNothing(cfg, start, steps, before, id, ids, rows, ending,
                         RelayProtocol.Apply(cfg, before, LastStep(id, ending)))
  {
    RelayProtocol.RunSafe(cfg, RelayProtocol.Initial, start + steps);
    RelayProtocol.PendingAfter(cfg, before, LastStep(id, ending));
    forall i | i in ids ensures i !in before.table {
      RelayProtocol.OpenRowOwned(before, id, i);
    }
  }

  function LastStep(id: nat, ending: Ending): RelayProtocol.Step
  {
    match ending
    case RolledBack => RelayProtocol.Rollback(id)
    case Answered(commit) => if commit.Refused? then RelayProtocol.CommitRefused(id) else RelayProtocol.Commit(id)
  }

  class UnitOfWork {
    const world: Deployment

    constructor (world: Deployment)
      ensures this.world == world
    {
      this.world := world;
    }

    /**
     Command atomicity, whatever relays and other transactions do meanwhile, and whatever the database answers to BEGIN
     and COMMIT. The body runs the handlers of the events in order; if one of them fails or panics nothing runs after
     it, its outcome is returned and the transaction is rolled back. The rows that become visible, all or none of them,
     are those that the handlers stored.
     */
    method Do(bus: InMemoryBus, id: nat, names: seq<string>, fuel: nat, beginFails: bool, commit: CommitOutcome)
      returns (r: Outcome, ghost calls: seq<nat>, ghost added: seq<Draft>, ghost ids: seq<nat>,
               ghost steps: seq<RelayProtocol.Step>, ghost before: RelayProtocol.State)
      requires Consistent(bus.State()) && world.Valid() && id !in world.state.open
      modifies world, bus
      ensures world.Valid() && id !in world.state.open
      ensures beginFails ==>
                && r.Err? && bus.State() == old(bus.State())
                && world.trace == old(world.trace) + steps + [RelayProtocol.BeginFails(id)]
                && Silent(RelayProtocol.OfTransaction(id), steps)
      ensures !beginFails ==>
                var o := RunPublishAll(old(bus.State()), names, fuel).1;
                var ending := EndingOf(o, commit);
                && BodyRan(old(bus.State()), bus.State(), names, calls, added, o)
                && world.trace == old(world.trace) + steps + [LastStep(id, ending)]
                && AllOrNothing(world.cfg, old(world.trace), steps, before, id, ids, added, ending, world.state)
                && (r.Nil? <==> o.Nil? && commit.Acknowledged?) && (!o.Nil? ==> r == o) && (r.Panic? ==> o.Panic?)
                && (if o.Nil? && !commit.Refused? then forall i | i in ids :: i in world.state.table
                    else world.state.table == before.table)
    {
      calls, added, ids, before := [], [], [], world.state;
      if beginFails {
        steps := world.Interfere(RelayProtocol.OfTransaction(id));
        assert id !in world.state.open;
        world.Perform(RelayProtocol.BeginFails(id));
        return Err("begin"), calls, added, ids, steps, before;
      }
      var tx := new Transaction(world, id, |Rows(bus.log)|);
      var o;
      o, calls := RunBody(bus, tx, names, fuel);
      added, ids := tx.rows, tx.ids;
      steps, before := EndTransaction(tx, EndingOf(o, commit));
      r := if !o.Nil? then o else if commit.Acknowledged? then Nil else Err("commit");
    }

    method RunBody(bus: InMemoryBus, tx: Transaction, names: seq<string>, fuel: nat)
      returns (o: Outcome, ghost calls: seq<nat>)
      requires Consistent(bus.State()) && tx.Valid() && tx.rows == [] && tx.from == |Rows(bus.log)|
      modifies bus, tx, tx.world
      ensures tx.Valid() && o == RunPublishAll(old(bus.State()), names, fuel).1
      ensures BodyRan(old(bus.State()), bus.State(), names, calls, tx.rows, o)
    {
      ghost var b := bus.State();
      o, calls := bus.PublishAll(tx, names, fuel);
      BodyTold(b, bus.State(), names, fuel, o, calls);
    }

    /** COMMIT or ROLLBACK. */
    method EndTransaction(tx: Transaction, ending: Ending)
      returns (ghost steps: seq<RelayProtocol.Step>, ghost before: RelayProtocol.State)
      requires tx.Valid() && tx.world == world
      modifies world
      ensures world.Valid() && world.trace == tx.start + steps + [LastStep(tx.id, ending)]
      ensures AllOrNothing(world.cfg, tx.start, steps, before, tx.id, tx.ids, tx.rows, ending, world.state)
    {
      ghost var others := world.Interfere(RelayProtocol.OfTransaction(tx.id));
      OthersInsert(tx.id, others);
      steps := tx.steps + others;
      before := world.state;
      assert world.trace == tx.start + steps;
      Ends(world.cfg, tx.start, steps, before, tx.id, tx.ids, tx.rows, ending);
      world.Perform(LastStep(tx.id, ending));
    }
  }
}

/**
 The transactional outbox and any number of relays as a transition system over the database, the broker and the
 local state of each draining relay. Every statement sent to the database or the broker is one step, its label says
 how it ended, and a crash may fall between any two steps.
 */
module RelayProtocol {
  import opened Wrappers
  import opened Ordering
  import opened Outbox

  /** Where a relay stands in its loop over a batch: about to treat rest[0], or holding the broker's reply for it. */
  datatype Phase = AtRow | Stored

  datatype Draining = Draining(rest: seq<Event>, phase: Phase)

  /**
   - table: the visible rows; open: the rows inserted by each open transaction; nextId: the bigserial sequence;
   - stream, dedupe: the broker's log and the message ids inside its duplicates window;
   - relays: the relays that are inside drain.
   Two history variables record what the steps did: minted maps every UUID ever given to a row to that row's id, and
   origin is the row id behind each stream message.
   */
  datatype State = State(
    table: Table, open: map<nat, Table>, nextId: nat, minted: map<Uuid, nat>,
    stream: seq<Msg>, origin: seq<nat>, dedupe: set<Uuid>,
    relays: map<nat, Draining>)

  datatype Draft = Draft(messageId: Uuid, subject: string, version: string, payload: Payload, occurredAt: Time)

  /** A publish is stored and acknowledged, stored with the reply lost, or not stored at all. */
  datatype PublishOutcome = Replied | ReplyLost | NotStored

  datatype Step =
    | Begin(tx: nat)
    | BeginFails(tx: nat)
    | Insert(tx: nat, draft: Draft)
    | Commit(tx: nat)
    | CommitRefused(tx: nat)
    | Rollback(tx: nat)
    | List(relay: nat, limit: int)
    | ListFails(relay: nat)
    | Publish(relay: nat, outcome: PublishOutcome)
    | Mark(relay: nat, effective: bool, at: Time)
    | Quarantine(relay: nat, effective: bool, reason: string, at: Time)
    | Finish(relay: nat)
    | Crash(relay: nat)
    | Forget(ids: set<Uuid>)
  {
    predicate ByRelay(r: nat) {
      (List? || ListFails? || Publish? || Mark? || Quarantine? || Finish? || Crash?) && relay == r
    }

    predicate ByTransaction(t: nat) {
      (Begin? || BeginFails? || Insert? || Commit? || CommitRefused? || Rollback?) && tx == t
    }

    /** A statement of a relay that takes effect and is acknowledged. */
    predicate Succeeds() {
      !Crash? && !ListFails? && (Publish? ==> outcome.Replied?) && (Mark? || Quarantine? ==> effective)
    }

    predicate By(party: Party) {
      match party
      case OfRelay(r) => ByRelay(r)
      case OfTransaction(t) => ByTransaction(t)
    }
  }

  /** Whose steps: a relay's, crashes included, or a transaction's. */
  datatype Party = OfRelay(relay: nat) | OfTransaction(tx: nat)

  function NewRow(id: nat, d: Draft): Event {
    Event(id, d.messageId, d.subject, d.version, d.payload, d.occurredAt, None, None, None)
  }

  predicate Enabled(s: State, l: Step) {
    match l
    case Begin(tx) => tx !in s.open
    case BeginFails(tx) => tx !in s.open
    case Insert(tx, d) => tx in s.open && d.messageId !in s.minted
    case Commit(tx) => tx in s.open
    case CommitRefused(tx) => tx in s.open
    case Rollback(tx) => tx in s.open
    case List(r, _) => r !in s.relays
    case ListFails(r) => r !in s.relays
    case Publish(r, _) => AtWellFormedRow(s, r)
    case Mark(r, _, _) => r in s.relays && s.relays[r].rest != [] && s.relays[r].phase.Stored?
    case Quarantine(r, _, _, _) =>
      r in s.relays && s.relays[r].rest != [] && s.relays[r].phase.AtRow? && !s.relays[r].rest[0].WellFormed()
    case Finish(r) => r in s.relays && s.relays[r].rest == []
    case Crash(r) => r in s.relays
    case Forget(_) => true
  }

  predicate AtWellFormedRow(s: State, r: nat) {
    && r in s.relays
    && s.relays[r].rest != []
    && s.relays[r].phase.AtRow?
    && s.relays[r].rest[0].WellFormed()
  }

  function Apply(cfg: Config, s: State, l: Step): State
    requires Enabled(s, l)
  {
    match l
    case Begin(tx) => s.(open := s.open[tx := map[]])
    case BeginFails(_) => s
    case Insert(tx, d) =>
      var rows: Table := s.open[tx][s.nextId := NewRow(s.nextId, d)];
      s.(open := s.open[tx := rows],
         nextId := s.nextId + 1,
         minted := s.minted[d.messageId := s.nextId])
    case Commit(tx) => s.(table := s.table + s.open[tx], open := s.open - {tx})
    case CommitRefused(tx) => s.(open := s.open - {tx})
    case Rollback(tx) => s.(open := s.open - {tx})
    case List(r, limit) => s.(relays := s.relays[r := Draining(ListUnpublished(s.table, limit), AtRow)])
    case ListFails(_) => s
    case Publish(r, outcome) => ApplyPublish(cfg, s, r, outcome)
    case Mark(r, effective, at) =>
      var d := s.relays[r];
      s.(table := if effective then SetPublished(s.table, d.rest[0].messageId, at) else s.table,
         relays := s.relays[r := Draining(d.rest[1..], AtRow)])
    case Quarantine(r, effective, reason, at) =>
      var d := s.relays[r];
      s.(table := if effective then SetFailed(s.table, d.rest[0].messageId, reason, at) else s.table,
         relays := s.relays[r := Draining(d.rest[1..], AtRow)])
    case Finish(r) => s.(relays := s.relays - {r})
    case Crash(r) => s.(relays := s.relays - {r})
    case Forget(ids) => s.(dedupe := s.dedupe - ids)
  }

  /** Anything but an acknowledged publish stops the batch. */
  function ApplyPublish(cfg: Config, s: State, r: nat, outcome: PublishOutcome): State
    requires AtWellFormedRow(s, r)
  {
    var e := s.relays[r].rest[0];
    var s' := if outcome.NotStored? then s else Receive(cfg, s, e);
    s'.(relays := if outcome.Replied? then s.relays[r := s.relays[r].(phase := Stored)] else s.relays - {r})
  }

  /** The broker appends a message unless its id is still inside the duplicates window. */
  function Receive(cfg: Config, s: State, e: Event): State
    requires e.WellFormed()
  {
    if e.messageId in s.dedupe then s
    else s.(stream := s.stream + [Wire(cfg, e)], origin := s.origin + [e.id], dedupe := s.dedupe + {e.messageId})
  }

  const Initial := State(map[], map[], 0, map[], [], [], {}, map[])

  predicate Runs(cfg: Config, s: State, ls: seq<Step>)
    decreases ls
  {
    ls != [] ==> Enabled(s, ls[0]) && Runs(cfg, Apply(cfg, s, ls[0]), ls[1..])
  }

  function After(cfg: Config, s: State, ls: seq<Step>): State
    requires Runs(cfg, s, ls)
    decreases ls
  {
    if ls == [] then s else After(cfg, Apply(cfg, s, ls[0]), ls[1..])
  }

  lemma RunsFirst(cfg: Config, s: State, l: Step, ls: seq<Step>)
    requires Enabled(s, l) && Runs(cfg, Apply(cfg, s, l), ls)
    ensures Runs(cfg, s, [l] + ls) && After(cfg, s, [l] + ls) == After(cfg, Apply(cfg, s, l), ls)
  {
    assert ([l] + ls)[1..] == ls;
  }

  /** Runs compose. */
  lemma {:induction false} RunsAppend(cfg: Config, s: State, ls: seq<Step>, l: Step)
    requires Runs(cfg, s, ls) && Enabled(After(cfg, s, ls), l)
    ensures Runs(cfg, s, ls + [l])
    ensures After(cfg, s, ls + [l]) == Apply(cfg, After(cfg, s, ls), l)
    decreases ls
  {
    if ls != [] {
      RunsAppend(cfg, Apply(cfg, s, ls[0]), ls[1..], l);
      assert (ls + [l])[1..] == ls[1..] + [l];
    }
  }

  // ---------------------------------------------------------------------------------------------------------------
  // The invariant
  // ---------------------------------------------------------------------------------------------------------------

  /** The row was given its message id when it was inserted, and its id by the sequence. */
  predicate Owned(s: State, e: Event) {
    OwnedIn(s.minted, s.nextId, e)
  }

  predicate OwnedIn(minted: map<Uuid, nat>, nextId: nat, e: Event) {
    e.messageId in minted && minted[e.messageId] == e.id && e.id < nextId
  }

  predicate TableOk(s: State) {
    && Keyed(s.table)
    && forall i | i in s.table :: Owned(s, s.table[i])
  }

  predicate OpenOk(s: State) {
    RowsOk(s.table.Keys, s.open, s.minted, s.nextId) && Apart(s.open)
  }

  /** Rows of open transactions are new. */
  predicate RowsOk(visible: set<nat>, open: map<nat, Table>, minted: map<Uuid, nat>, nextId: nat) {
    forall tx, i | tx in open && i in open[tx] ::
      open[tx][i].id == i && i !in visible && open[tx][i].Pending() && OwnedIn(minted, nextId, open[tx][i])
  }

  predicate Apart(open: map<nat, Table>) {
    forall tx, tx', i | tx in open && tx' in open && i in open[tx] && i in open[tx'] :: tx == tx'
  }

  /** published_at only on rows whose message is on the stream, failed_at only on rows that can never be sent. */
  predicate FlagsOk(s: State) {
    forall i | i in s.table ::
      && (s.table[i].publishedAt.Some? ==> s.table[i].WellFormed() && i in s.origin)
      && (s.table[i].failedAt.Some? ==> !s.table[i].WellFormed())
  }

  /** Every stream message is the wire form of a committed row. */
  predicate StreamOk(cfg: Config, s: State) {
    && |s.origin| == |s.stream|
    && forall k | 0 <= k < |s.stream| ::
         && s.origin[k] in s.table
         && s.table[s.origin[k]].WellFormed()
         && s.stream[k] == Wire(cfg, s.table[s.origin[k]])
  }

  predicate DedupeOk(s: State) {
    forall u | u in s.dedupe :: u in s.minted && s.minted[u] in s.origin
  }

  predicate Snapshot(s: State, e: Event) {
    e.id in s.table && s.table[e.id].Core() == e.Core()
  }

  predicate DrainingOk(s: State, d: Draining) {
    && (forall k | 0 <= k < |d.rest| :: Snapshot(s, d.rest[k]))
    && Increasing(Ids(d.rest))
    && (d.phase.Stored? ==> d.rest != [] && d.rest[0].WellFormed() && d.rest[0].id in s.origin)
  }

  predicate RelaysOk(s: State) {
    forall r | r in s.relays :: DrainingOk(s, s.relays[r])
  }

  predicate Safe(cfg: Config, s: State) {
    TableOk(s) && OpenOk(s) && FlagsOk(s) && StreamOk(cfg, s) && DedupeOk(s) && RelaysOk(s)
  }

  /** What a step may do to the visible rows and the stream: rows keep their content, the stream only grows. */
  predicate Extends(s: State, s': State) {
    && (forall i | i in s.table :: i in s'.table && s'.table[i].Core() == s.table[i].Core())
    && s.stream <= s'.stream
    && s.origin <= s'.origin
  }

  lemma CoreFacts(a: Event, b: Event)
    requires a.Core() == b.Core()
    ensures a.WellFormed() == b.WellFormed() && a.id == b.id && a.messageId == b.messageId
    ensures forall cfg | a.WellFormed() :: Wire(cfg, a) == Wire(cfg, b)
  {
    assert a.Core().payload == a.payload && b.Core().payload == b.payload;
    assert a.Core().messageId == a.messageId && b.Core().messageId == b.messageId;
    assert a.Core().id == a.id && b.Core().id == b.id;
    assert a.Core().subject == a.subject && b.Core().subject == b.subject;
    assert a.Core().version == a.version && b.Core().version == b.version;
    assert a.Core().occurredAt == a.occurredAt && b.Core().occurredAt == b.occurredAt;
  }

  /** Draining relays stay consistent while the table and the stream are extended. */
  lemma RelaysKept(s: State, s': State)
    requires RelaysOk(s) && Extends(s, s')
    requires forall r | r in s'.relays ::
               (r in s.relays && s'.relays[r] == s.relays[r]) || DrainingOk(s', s'.relays[r])
    ensures RelaysOk(s')
  {
    forall r | r in s'.relays ensures DrainingOk(s', s'.relays[r]) {
      if r in s.relays && s'.relays[r] == s.relays[r] {
        DrainingKept(s, s', s.relays[r]);
      }
    }
  }

  lemma DrainingKept(s: State, s': State, d: Draining)
    requires DrainingOk(s, d) && Extends(s, s')
    ensures DrainingOk(s', d)
  {
    forall k | 0 <= k < |d.rest| ensures Snapshot(s', d.rest[k]) {
      assert Snapshot(s, d.rest[k]);
    }
  }

  /** Dropping the head of the batch keeps it consistent. */
  lemma DrainingTail(s: State, d: Draining)
    requires DrainingOk(s, d) && d.rest != []
    ensures DrainingOk(s, Draining(d.rest[1..], AtRow))
  {
    assert Ids(d.rest[1..]) == Ids(d.rest)[1..];
  }

  lemma StepExtends(cfg: Config, s: State, l: Step)
    requires Safe(cfg, s) && Enabled(s, l)
    ensures Extends(s, Apply(cfg, s, l))
  {
    if l.Commit? {
      forall i | i in s.table ensures i !in s.open[l.tx] {}
    }
  }

  lemma CommitSafe(cfg: Config, s: State, tx: nat)
    requires Safe(cfg, s) && Enabled(s, Commit(tx))
    ensures Safe(cfg, Apply(cfg, s, Commit(tx)))
  {
    var s' := Apply(cfg, s, Commit(tx));
    StepExtends(cfg, s, Commit(tx));
    forall i | i in s'.table ensures s'.table[i] == if i in s.table then s.table[i] else s.open[tx][i] {}
    RelaysKept(s, s');
  }

  lemma InsertOpen(s: State, tx: nat, d: Draft)
    requires TableOk(s) && OpenOk(s) && Enabled(s, Insert(tx, d))
    ensures var rows: Table := s.open[tx][s.nextId := NewRow(s.nextId, d)];
            var open := s.open[tx := rows];
            RowsOk(s.table.Keys, open, s.minted[d.messageId := s.nextId], s.nextId + 1) && Apart(open)
  {
    var rows: Table := s.open[tx][s.nextId := NewRow(s.nextId, d)];
    var open := s.open[tx := rows];
    forall i | i in s.table ensures i < s.nextId {
      assert Owned(s, s.table[i]);
    }
    forall t, i | t in open && i in open[t]
      ensures (t == tx && i == s.nextId) || (i in s.open[t] && open[t][i] == s.open[t][i] && i < s.nextId)
    {
      if i in s.open[t] {
        assert OwnedIn(s.minted, s.nextId, s.open[t][i]);
      }
    }
  }

  lemma InsertSafe(cfg: Config, s: State, tx: nat, d: Draft)
    requires Safe(cfg, s) && Enabled(s, Insert(tx, d))
    ensures Safe(cfg, Apply(cfg, s, Insert(tx, d)))
  {
    var s' := Apply(cfg, s, Insert(tx, d));
    InsertOpen(s, tx, d);
    forall i | i in s.table ensures Owned(s', s.table[i]) {
      assert Owned(s, s.table[i]);
    }
    RelaysKept(s, s');
  }

  lemma ReceiveSafe(cfg: Config, s: State, e: Event)
    requires Safe(cfg, s) && Snapshot(s, e) && e.WellFormed()
    ensures Safe(cfg, Receive(cfg, s, e)) && Extends(s, Receive(cfg, s, e))
    ensures e.id in Receive(cfg, s, e).origin
  {
    var s' := Receive(cfg, s, e);
    CoreFacts(e, s.table[e.id]);
    RelaysKept(s, s');
  }

  /** A relay that leaves drain, or moves on within its batch, touches nothing else. */
  lemma RelaysChanged(cfg: Config, s: State, relays: map<nat, Draining>)
    requires Safe(cfg, s)
    requires forall r | r in relays :: (r in s.relays && relays[r] == s.relays[r]) || DrainingOk(s, relays[r])
    ensures Safe(cfg, s.(relays := relays)) && Extends(s, s.(relays := relays))
  {
    var s' := s.(relays := relays);
    forall r | r in relays && DrainingOk(s, relays[r]) ensures DrainingOk(s', relays[r]) {
      DrainingKept(s, s', relays[r]);
    }
    RelaysKept(s, s');
  }

  lemma PublishSafe(cfg: Config, s: State, r: nat, outcome: PublishOutcome)
    requires Safe(cfg, s) && Enabled(s, Publish(r, outcome))
    ensures Safe(cfg, Apply(cfg, s, Publish(r, outcome)))
  {
    var e := s.relays[r].rest[0];
    assert DrainingOk(s, s.relays[r]) && Snapshot(s, e);
    ReceiveSafe(cfg, s, e);
    var received := if outcome.NotStored? then s else Receive(cfg, s, e);
    if outcome.Replied? {
      DrainingKept(s, received, s.relays[r]);
    }
    RelaysChanged(cfg, received, Apply(cfg, s, Publish(r, outcome)).relays);
  }

  lemma ListSafe(cfg: Config, s: State, r: nat, limit: int)
    requires Safe(cfg, s) && Enabled(s, List(r, limit))
    ensures Safe(cfg, Apply(cfg, s, List(r, limit)))
  {
    var d := Draining(ListUnpublished(s.table, limit), AtRow);
    ListUnpublishedSpec(s.table, limit);
    assert DrainingOk(s, d);
    RelaysChanged(cfg, s, s.relays[r := d]);
  }

  /** An UPDATE that leaves every row's content alone and only sets flags that the row may carry. */
  lemma FlagsChanged(cfg: Config, s: State, t: Table)
    requires Safe(cfg, s) && t.Keys == s.table.Keys
    requires forall i | i in t :: t[i].Core() == s.table[i].Core()
    requires FlagsOk(s.(table := t))
    ensures Safe(cfg, s.(table := t)) && Extends(s, s.(table := t))
  {
    var s' := s.(table := t);
    forall i | i in t ensures t[i].id == i && Owned(s', t[i]) {
      CoreFacts(t[i], s.table[i]);
    }
    forall k | 0 <= k < |s.stream| ensures s.origin[k] in t && t[s.origin[k]].WellFormed() {
      CoreFacts(t[s.origin[k]], s.table[s.origin[k]]);
    }
    RelaysKept(s, s');
  }

  /** A successful publish is followed by a mark whose update may or may not take effect. */
  lemma MarkSafe(cfg: Config, s: State, r: nat, effective: bool, at: Time)
    requires Safe(cfg, s) && Enabled(s, Mark(r, effective, at))
    ensures Safe(cfg, Apply(cfg, s, Mark(r, effective, at)))
  {
    var e := s.relays[r].rest[0];
    var t := if effective then SetPublished(s.table, e.messageId, at) else s.table;
    assert DrainingOk(s, s.relays[r]) && Snapshot(s, e);
    CoreFacts(e, s.table[e.id]);
    FlagsChanged(cfg, s, t);
    DrainingTail(s, s.relays[r]);
    var d := Draining(s.relays[r].rest[1..], AtRow);
    DrainingKept(s, s.(table := t), d);
    RelaysChanged(cfg, s.(table := t), s.relays[r := d]);
  }

  lemma QuarantineSafe(cfg: Config, s: State, r: nat, effective: bool, reason: string, at: Time)
    requires Safe(cfg, s) && Enabled(s, Quarantine(r, effective, reason, at))
    ensures Safe(cfg, Apply(cfg, s, Quarantine(r, effective, reason, at)))
  {
    var e := s.relays[r].rest[0];
    var t := if effective then SetFailed(s.table, e.messageId, reason, at) else s.table;
    assert DrainingOk(s, s.relays[r]) && Snapshot(s, e);
    CoreFacts(e, s.table[e.id]);
    FlagsChanged(cfg, s, t);
    DrainingTail(s, s.relays[r]);
    var d := Draining(s.relays[r].rest[1..], AtRow);
    DrainingKept(s, s.(table := t), d);
    RelaysChanged(cfg, s.(table := t), s.relays[r := d]);
  }

  lemma TransactionEndsSafe(cfg: Config, s: State, l: Step)
    requires Safe(cfg, s) && Enabled(s, l) && (l.Begin? || l.CommitRefused? || l.Rollback?)
    ensures Safe(cfg, Apply(cfg, s, l))
  {
    var s' := Apply(cfg, s, l);
    forall tx, i | tx in s'.open && i in s'.open[tx] ensures tx in s.open && s'.open[tx] == s.open[tx] {}
    assert OpenOk(s');
    RelaysKept(s, s');
  }

  lemma ForgetSafe(cfg: Config, s: State, ids: set<Uuid>)
    requires Safe(cfg, s)
    ensures Safe(cfg, s.(dedupe := s.dedupe - ids))
  {
    var s' := s.(dedupe := s.dedupe - ids);
    RelaysKept(s, s');
  }

  lemma StepSafe(cfg: Config, s: State, l: Step)
    requires Safe(cfg, s) && Enabled(s, l)
    ensures Safe(cfg, Apply(cfg, s, l))
  {
    match l
    case Insert(tx, d) => InsertSafe(cfg, s, tx, d);
    case Commit(tx) => CommitSafe(cfg, s, tx);
    case List(r, limit) => ListSafe(cfg, s, r, limit);
    case Publish(r, outcome) => PublishSafe(cfg, s, r, outcome);
    case Mark(r, effective, at) => MarkSafe(cfg, s, r, effective, at);
    case Quarantine(r, effective, reason, at) => QuarantineSafe(cfg, s, r, effective, reason, at);
    case Finish(r) => RelaysChanged(cfg, s, s.relays - {r});
    case Crash(r) => RelaysChanged(cfg, s, s.relays - {r});
    case Begin(_) => TransactionEndsSafe(cfg, s, l);
    case CommitRefused(_) => TransactionEndsSafe(cfg, s, l);
    case Rollback(_) => TransactionEndsSafe(cfg, s, l);
    case BeginFails(_) =>
    case ListFails(_) =>
    case Forget(ids) => ForgetSafe(cfg, s, ids);
  }

  lemma {:induction false} RunSafe(cfg: Config, s: State, ls: seq<Step>)
    requires Safe(cfg, s) && Runs(cfg, s, ls)
    ensures Safe(cfg, After(cfg, s, ls)) && Extends(s, After(cfg, s, ls))
    decreases ls
  {
    if ls != [] {
      StepSafe(cfg, s, ls[0]);
      StepExtends(cfg, s, ls[0]);
      RunSafe(cfg, Apply(cfg, s, ls[0]), ls[1..]);
    }
  }

  /** The three columns that classify a committed row. */
  predicate ExactlyOne(a: bool, b: bool, c: bool) {
    (a || b || c) && !(a && b) && !(a && c) && !(b && c)
  }

  /**
   At-least-once, for any number of relays and no assumption on the duplicates window or on commit order: in every
   reachable state a committed row is in exactly one of pending, published and quarantined; a published row is on the
   stream; only rows that cannot be marshalled are quarantined; and whatever is on the stream was committed.
   */
  lemma AtLeastOnce(cfg: Config, ls: seq<Step>)
    requires Runs(cfg, Initial, ls)
    ensures var s := After(cfg, Initial, ls);
            && (forall i | i in s.table ::
                  && ExactlyOne(s.table[i].Pending(), s.table[i].publishedAt.Some?, s.table[i].failedAt.Some?)
                  && (s.table[i].publishedAt.Some? ==> s.table[i].WellFormed() && Wire(cfg, s.table[i]) in s.stream)
                  && (s.table[i].failedAt.Some? ==> MakeEnvelope(cfg, s.table[i]).Failure?))
            && (forall m | m in s.stream ::
                  exists i :: i in s.table && s.table[i].WellFormed() && m == Wire(cfg, s.table[i]))
  {
    RunSafe(cfg, Initial, ls);
    var s := After(cfg, Initial, ls);
    forall i | i in s.table && s.table[i].publishedAt.Some? ensures Wire(cfg, s.table[i]) in s.stream {
      var k :| 0 <= k < |s.origin| && s.origin[k] == i;
      assert s.stream[k] == Wire(cfg, s.table[i]);
    }
    forall m | m in s.stream
      ensures exists i :: i in s.table && s.table[i].WellFormed() && m == Wire(cfg, s.table[i])
    {
      var k :| 0 <= k < |s.stream| && s.stream[k] == m;
      assert s.origin[k] in s.table;
    }
  }

  /**
   The pending rows, exactly: a commit adds all rows of its transaction, an UPDATE that takes effect removes the one row
   its relay was treating, and no other step, and in particular no crash and no failed statement, changes them.
   */
  lemma PendingAfter(cfg: Config, s: State, l: Step)
    requires Safe(cfg, s) && Enabled(s, l)
    ensures PendingIds(Apply(cfg, s, l).table) ==
      match l
      case Commit(tx) => PendingIds(s.table) + s.open[tx].Keys
      case Mark(r, effective, _) =>
        if effective then PendingIds(s.table) - {s.relays[r].rest[0].id} else PendingIds(s.table)
      case Quarantine(r, effective, _, _) =>
        if effective then PendingIds(s.table) - {s.relays[r].rest[0].id} else PendingIds(s.table)
      case _ => PendingIds(s.table)
  {
    if l.Commit? {
      CommitPending(s, l.tx);
    } else if (l.Mark? || l.Quarantine?) && l.effective {
      OneRowAffected(s, l.relay);
    }
  }

  /** What an UPDATE that takes effect writes: one column, or two, of the one row its relay was treating. */
  lemma ColumnsAfter(cfg: Config, s: State, l: Step)
    requires Safe(cfg, s) && Enabled(s, l) && (l.Mark? || l.Quarantine?)
    ensures var id, t := s.relays[l.relay].rest[0].id, Apply(cfg, s, l).table;
            && id in s.table && t.Keys == s.table.Keys
            && forall i | i in s.table ::
                 t[i] == if i != id || !l.effective then s.table[i]
                         else if l.Mark? then s.table[i].(publishedAt := Some(l.at))
                         else s.table[i].(error := Some(l.reason), failedAt := Some(l.at))
  {
    var e := s.relays[l.relay].rest[0];
    assert Snapshot(s, e);
    OneRowAffected(s, l.relay);
    forall i | i in s.table ensures s.table[i].messageId == e.messageId <==> i == e.id {
      assert i in RowsAffected(s.table, e.messageId) <==> s.table[i].messageId == e.messageId;
    }
  }

  lemma CommitPending(s: State, tx: nat)
    requires OpenOk(s) && tx in s.open
    ensures PendingIds(s.table + s.open[tx]) == PendingIds(s.table) + s.open[tx].Keys
  {
    forall i | i in s.open[tx] ensures i !in s.table && s.open[tx][i].Pending() {
      OpenRowOwned(s, tx, i);
    }
  }

  /** WHERE message_id = ? selects the row being treated, and only that. */
  lemma OneRowAffected(s: State, r: nat)
    requires TableOk(s) && r in s.relays && DrainingOk(s, s.relays[r]) && s.relays[r].rest != []
    ensures var e := s.relays[r].rest[0]; RowsAffected(s.table, e.messageId) == {e.id}
  {
    var e := s.relays[r].rest[0];
    assert Snapshot(s, e);
    CoreFacts(e, s.table[e.id]);
    forall i | i in s.table ensures s.table[i].messageId == e.messageId <==> i == e.id {
      assert Owned(s, s.table[i]) && Owned(s, s.table[e.id]);
    }
  }

  lemma OpenRowOwned(s: State, tx: nat, i: nat)
    requires OpenOk(s) && tx in s.open && i in s.open[tx]
    ensures i !in s.table && s.open[tx][i].id == i && s.open[tx][i].Pending() && Owned(s, s.open[tx][i])
  {
  }

  /** The rows of a transaction that has not committed are not in the table nor, under any message, on the stream. */
  lemma NothingUncommitted(cfg: Config, ls: seq<Step>, tx: nat, i: nat)
    requires Runs(cfg, Initial, ls)
    requires var s := After(cfg, Initial, ls); tx in s.open && i in s.open[tx]
    ensures var s := After(cfg, Initial, ls);
            && i !in s.table && i !in s.origin
            && forall m | m in s.stream :: m.msgId != s.open[tx][i].messageId
  {
    RunSafe(cfg, Initial, ls);
    var s := After(cfg, Initial, ls);
    OpenRowOwned(s, tx, i);
    forall m | m in s.stream ensures m.msgId != s.open[tx][i].messageId {
      var k :| 0 <= k < |s.stream| && s.stream[k] == m;
      var e := s.table[s.origin[k]];
      assert Owned(s, e);
    }
  }

  /** The row with this id and message id is neither visible nor in an open transaction, nor can it come back. */
  ghost predicate Gone(s: State, i: nat, u: Uuid) {
    && i !in s.table && (forall tx | tx in s.open :: i !in s.open[tx])
    && i < s.nextId && u in s.minted && s.minted[u] == i
  }

  lemma GoneKept(cfg: Config, s: State, l: Step, i: nat, u: Uuid)
    requires Safe(cfg, s) && Enabled(s, l) && Gone(s, i, u)
    ensures Gone(Apply(cfg, s, l), i, u)
  {
    var s' := Apply(cfg, s, l);
    assert s'.minted == s.minted || (l.Insert? && s'.minted == s.minted[l.draft.messageId := s.nextId]);
    forall tx | tx in s'.open ensures i !in s'.open[tx] {
      assert tx in s.open ==> i !in s.open[tx];
    }
  }

  lemma {:induction false} StaysGone(cfg: Config, s: State, ls: seq<Step>, i: nat, u: Uuid)
    requires Safe(cfg, s) && Runs(cfg, s, ls) && Gone(s, i, u)
    ensures Safe(cfg, After(cfg, s, ls)) && Gone(After(cfg, s, ls), i, u)
    decreases ls
  {
    if ls != [] {
      StepSafe(cfg, s, ls[0]);
      GoneKept(cfg, s, ls[0], i, u);
      StaysGone(cfg, Apply(cfg, s, ls[0]), ls[1..], i, u);
    }
  }

  lemma GoneUnsent(cfg: Config, s: State, i: nat, u: Uuid)
    requires Safe(cfg, s) && Gone(s, i, u)
    ensures forall m | m in s.stream :: m.msgId != u
  {
    forall m | m in s.stream ensures m.msgId != u {
      var k :| 0 <= k < |s.stream| && s.stream[k] == m;
      assert Owned(s, s.table[s.origin[k]]);
    }
  }

  /**
   The end of a transaction decides on its rows for good: after it the transaction is closed, and in whatever state
   follows, a row of it is visible, with the content it was inserted with, iff that end was a commit, and otherwise no
   message of it is ever on the stream.
   */
  lemma EndDecides(cfg: Config, ls: seq<Step>, l: Step, more: seq<Step>, i: nat)
    requires Runs(cfg, Initial, ls) && (l.Commit? || l.CommitRefused? || l.Rollback?)
    requires var s := After(cfg, Initial, ls);
             && l.tx in s.open && i in s.open[l.tx] && Runs(cfg, Apply(cfg, s, l), more)
    ensures var s := After(cfg, Initial, ls);
            var s' := After(cfg, Apply(cfg, s, l), more);
            && l.tx !in Apply(cfg, s, l).open
            && (i in s'.table <==> l.Commit?)
            && (l.Commit? ==> s'.table[i].Core() == s.open[l.tx][i].Core())
            && (!l.Commit? ==> forall m | m in s'.stream :: m.msgId != s.open[l.tx][i].messageId)
  {
    RunSafe(cfg, Initial, ls);
    var s := After(cfg, Initial, ls);
    StepSafe(cfg, s, l);
    OpenRowOwned(s, l.tx, i);
    if l.Commit? {
      RunSafe(cfg, Apply(cfg, s, l), more);
    } else {
      StaysGone(cfg, Apply(cfg, s, l), more, i, s.open[l.tx][i].messageId);
      GoneUnsent(cfg, After(cfg, Apply(cfg, s, l), more), i, s.open[l.tx][i].messageId);
    }
  }
}

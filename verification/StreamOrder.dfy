/**
 The order of the stream. Nothing in the code orders it by itself: a bigserial id is taken before its transaction
 commits, and a message whose mark was lost is published again. This module proves exactly which steps break the order,
 and that two conditions on commits and on the duplicates window, which mention no more than the step at hand, are
 enough to keep it for any number of relays.
 */
module StreamOrder {
  import opened Ordering
  import opened Outbox
  import opened RelayProtocol

  predicate Sendable(s: State, i: int) {
    i in s.table && s.table[i].WellFormed()
  }

  /** The stream carries sendable rows in id order, without duplicates, and skips none below one that it carries. */
  ghost predicate InLine(s: State) {
    && Increasing(s.origin)
    && forall i, k | Sendable(s, i) && 0 <= k < |s.origin| && i < s.origin[k] :: i in s.origin
  }

  /** Every sendable row below a row that a relay is still going to send is on the stream or earlier in its batch. */
  ghost predicate BatchWithoutGaps(s: State, rest: seq<Event>) {
    forall k, i | 0 <= k < |rest| && rest[k].WellFormed() && Sendable(s, i) && i < rest[k].id ::
      i in s.origin || i in Ids(rest)[..k]
  }

  ghost predicate Ordered(s: State) {
    InLine(s) && forall r | r in s.relays :: BatchWithoutGaps(s, s.relays[r].rest)
  }

  /** A commit reveals no sendable row below a row that is already sent, or listed by a relay that will send it. */
  predicate RevealsInOrder(s: State, tx: nat)
    requires tx in s.open
  {
    forall i | i in s.open[tx] && s.open[tx][i].WellFormed() ::
      (forall x | x in s.origin :: x < i) && AboveListed(s, i)
  }

  predicate AboveListed(s: State, i: nat) {
    forall r, k | r in s.relays && 0 <= k < |s.relays[r].rest| && s.relays[r].rest[k].WellFormed() ::
      s.relays[r].rest[k].id < i
  }

  /** A message that is published again still finds its id in the duplicates window. */
  predicate InsideWindow(s: State, r: nat, outcome: PublishOutcome)
    requires AtWellFormedRow(s, r)
  {
    var e := s.relays[r].rest[0];
    !outcome.NotStored? && e.id in s.origin ==> e.messageId in s.dedupe
  }

  predicate Admissible(s: State, l: Step)
    requires Enabled(s, l)
  {
    match l
    case Commit(tx) => RevealsInOrder(s, tx)
    case Publish(r, outcome) => InsideWindow(s, r, outcome)
    case _ => true
  }

  predicate Disciplined(cfg: Config, s: State, ls: seq<Step>)
    requires Runs(cfg, s, ls)
    decreases ls
  {
    ls != [] ==> Admissible(s, ls[0]) && Disciplined(cfg, Apply(cfg, s, ls[0]), ls[1..])
  }

  ghost predicate OrderedThroughout(cfg: Config, s: State, ls: seq<Step>)
    requires Runs(cfg, s, ls)
    decreases ls
  {
    Ordered(s) && (ls != [] ==> OrderedThroughout(cfg, Apply(cfg, s, ls[0]), ls[1..]))
  }

  // ---------------------------------------------------------------------------------------------------------------
  // One step
  // ---------------------------------------------------------------------------------------------------------------

  lemma SnapshotSendable(cfg: Config, s: State, r: nat, k: nat)
    requires Safe(cfg, s) && r in s.relays && k < |s.relays[r].rest|
    ensures var e := s.relays[r].rest[k];
            e.id in s.table && Sendable(s, e.id) == e.WellFormed() && s.table[e.id].messageId == e.messageId
  {
    assert DrainingOk(s, s.relays[r]);
    var e := s.relays[r].rest[k];
    assert Snapshot(s, e);
    CoreFacts(e, s.table[e.id]);
  }

  lemma CommitOrdered(cfg: Config, s: State, tx: nat)
    requires Safe(cfg, s) && Ordered(s) && Enabled(s, Commit(tx))
    ensures Ordered(Apply(cfg, s, Commit(tx))) <==> RevealsInOrder(s, tx)
  {
    var s' := Apply(cfg, s, Commit(tx));
    forall i ensures Sendable(s', i) <==> Sendable(s, i) || (i in s.open[tx] && s.open[tx][i].WellFormed()) {
      if i in s.open[tx] { OpenRowOwned(s, tx, i); }
    }
    if RevealsInOrder(s, tx) {
      assert s'.origin == s.origin && s'.relays == s.relays;
      forall r | r in s'.relays ensures BatchWithoutGaps(s', s'.relays[r].rest) {
        assert BatchWithoutGaps(s, s.relays[r].rest);
      }
      forall k, i | 0 <= k < |s.origin| && i in s.open[tx] && s.open[tx][i].WellFormed() ensures s.origin[k] < i {
        assert s.origin[k] in s.origin;
      }
    } else {
      var i :| i in s.open[tx] && s.open[tx][i].WellFormed()
        && !((forall x | x in s.origin :: x < i) && AboveListed(s, i));
      CommitOutOfOrder(cfg, s, tx, i);
    }
  }

  lemma CommitOutOfOrder(cfg: Config, s: State, tx: nat, i: nat)
    requires Safe(cfg, s) && Enabled(s, Commit(tx))
    requires i in s.open[tx] && s.open[tx][i].WellFormed()
    requires !((forall x | x in s.origin :: x < i) && AboveListed(s, i))
    ensures !Ordered(Apply(cfg, s, Commit(tx)))
  {
    OpenRowOwned(s, tx, i);
    if x :| x in s.origin && !(x < i) {
      var k :| 0 <= k < |s.origin| && s.origin[k] == x;
      CommitBelowStream(cfg, s, tx, i, k);
    } else {
      var r, k :| r in s.relays && 0 <= k < |s.relays[r].rest| && s.relays[r].rest[k].WellFormed()
                  && !(s.relays[r].rest[k].id < i);
      CommitBelowBatch(cfg, s, tx, i, r, k);
    }
  }

  lemma CommitBelowStream(cfg: Config, s: State, tx: nat, i: nat, k: nat)
    requires StreamOk(cfg, s) && Enabled(s, Commit(tx))
    requires i in s.open[tx] && i !in s.table && s.open[tx][i].WellFormed()
    requires k < |s.origin| && i <= s.origin[k]
    ensures !Ordered(Apply(cfg, s, Commit(tx)))
  {
    var s' := Apply(cfg, s, Commit(tx));
    assert Sendable(s', i) && s.origin[k] != i;
    assert i < s'.origin[k] && i !in s'.origin;
  }

  lemma CommitBelowBatch(cfg: Config, s: State, tx: nat, i: nat, r: nat, k: nat)
    requires Safe(cfg, s) && Enabled(s, Commit(tx))
    requires i in s.open[tx] && i !in s.table && s.open[tx][i].WellFormed()
    requires r in s.relays && k < |s.relays[r].rest| && s.relays[r].rest[k].WellFormed()
    requires i <= s.relays[r].rest[k].id
    ensures !Ordered(Apply(cfg, s, Commit(tx)))
  {
    var s' := Apply(cfg, s, Commit(tx));
    var rest := s'.relays[r].rest;
    assert Sendable(s', i) && i !in s'.origin;
    NotInBatch(cfg, s, r, i);
    assert Ids(rest)[k] != i;
    assert i < rest[k].id && i !in Ids(rest)[..k];
    assert !BatchWithoutGaps(s', rest);
  }

  lemma NotInBatch(cfg: Config, s: State, r: nat, i: nat)
    requires Safe(cfg, s) && r in s.relays && i !in s.table
    ensures i !in Ids(s.relays[r].rest)
  {
    var rest := s.relays[r].rest;
    forall j | 0 <= j < |rest| ensures rest[j].id != i {
      SnapshotSendable(cfg, s, r, j);
    }
  }

  lemma ListOrdered(cfg: Config, s: State, r: nat, limit: int)
    requires Safe(cfg, s) && Ordered(s) && Enabled(s, List(r, limit))
    ensures Ordered(Apply(cfg, s, List(r, limit)))
  {
    var s' := Apply(cfg, s, List(r, limit));
    var rest := s'.relays[r].rest;
    ListUnpublishedSpec(s.table, limit);
    forall k, i | 0 <= k < |rest| && Sendable(s', i) && i < rest[k].id ensures i in s'.origin || i in Ids(rest)[..k] {
      assert s.table[i].Pending() ==> i in PendingIds(s.table);
    }
    forall q | q in s'.relays ensures BatchWithoutGaps(s', s'.relays[q].rest) {
      if q != r { assert BatchWithoutGaps(s, s.relays[q].rest); }
    }
  }

  lemma PublishKeepsBatches(cfg: Config, s: State, r: nat, outcome: PublishOutcome)
    requires Ordered(s) && Enabled(s, Publish(r, outcome))
    ensures var s' := Apply(cfg, s, Publish(r, outcome));
            forall q | q in s'.relays :: BatchWithoutGaps(s', s'.relays[q].rest)
  {
    var s' := Apply(cfg, s, Publish(r, outcome));
    forall q | q in s'.relays ensures BatchWithoutGaps(s', s'.relays[q].rest) {
      assert BatchWithoutGaps(s, s.relays[q].rest);
    }
  }

  lemma PublishOrdered(cfg: Config, s: State, r: nat, outcome: PublishOutcome)
    requires Safe(cfg, s) && Ordered(s) && Enabled(s, Publish(r, outcome))
    ensures Ordered(Apply(cfg, s, Publish(r, outcome))) <==> InsideWindow(s, r, outcome)
  {
    var s' := Apply(cfg, s, Publish(r, outcome));
    var e := s.relays[r].rest[0];
    SnapshotSendable(cfg, s, r, 0);
    PublishKeepsBatches(cfg, s, r, outcome);
    if s'.origin != s.origin {
      assert s'.origin == s.origin + [e.id];
      if e.id in s.origin {
        var k :| 0 <= k < |s.origin| && s.origin[k] == e.id;
        assert s'.origin[k] == s'.origin[|s.origin|];
      } else {
        assert BatchWithoutGaps(s, s.relays[r].rest);
        forall k | 0 <= k < |s.origin| ensures s.origin[k] < e.id {}
      }
    }
  }

  /** Treating the head of a batch leaves the rest without gaps: the row is on the stream, or can never be there. */
  lemma AdvanceOrdered(cfg: Config, s: State, l: Step)
    requires Safe(cfg, s) && Ordered(s) && Enabled(s, l) && (l.Mark? || l.Quarantine?)
    ensures Ordered(Apply(cfg, s, l))
  {
    var s' := Apply(cfg, s, l);
    var r := l.relay;
    var rest := s.relays[r].rest;
    SnapshotSendable(cfg, s, r, 0);
    forall i ensures Sendable(s', i) == Sendable(s, i) {}
    assert DrainingOk(s, s.relays[r]) && BatchWithoutGaps(s, rest);
    forall k, i | 0 <= k < |rest[1..]| && rest[1..][k].WellFormed() && Sendable(s', i) && i < rest[1..][k].id
      ensures i in s'.origin || i in Ids(rest[1..])[..k]
    {
      if i !in s.origin {
        assert i in Ids(rest)[..k + 1];
        var j :| 0 <= j < k + 1 && Ids(rest)[j] == i;
        assert j > 0 && Ids(rest[1..])[..k][j - 1] == i;
      }
    }
    forall q | q in s'.relays ensures BatchWithoutGaps(s', s'.relays[q].rest) {
      if q != r { assert BatchWithoutGaps(s, s.relays[q].rest); }
    }
  }

  lemma BookkeepingOrdered(cfg: Config, s: State, l: Step)
    requires Safe(cfg, s) && Ordered(s) && Enabled(s, l)
    requires !l.Commit? && !l.List? && !l.Publish? && !l.Mark? && !l.Quarantine?
    ensures Ordered(Apply(cfg, s, l))
  {
    var s' := Apply(cfg, s, l);
    forall r | r in s'.relays ensures BatchWithoutGaps(s', s'.relays[r].rest) {
      assert BatchWithoutGaps(s, s.relays[r].rest);
    }
  }

  /** A step keeps the order of the stream and leaves no gap in a batch iff it meets the two conditions. */
  lemma StepOrdered(cfg: Config, s: State, l: Step)
    requires Safe(cfg, s) && Ordered(s) && Enabled(s, l)
    ensures Ordered(Apply(cfg, s, l)) <==> Admissible(s, l)
  {
    match l
    case Commit(tx) => CommitOrdered(cfg, s, tx);
    case List(r, limit) => ListOrdered(cfg, s, r, limit);
    case Publish(r, outcome) => PublishOrdered(cfg, s, r, outcome);
    case Mark(_, _, _) => AdvanceOrdered(cfg, s, l);
    case Quarantine(_, _, _, _) => AdvanceOrdered(cfg, s, l);
    case _ => BookkeepingOrdered(cfg, s, l);
  }

  /** Row i is in the way of the k-th row of a batch: the relay will send that one, and not row i before it. */
  ghost predicate Gap(s: State, r: nat, k: nat, i: nat) {
    && r in s.relays && k < |s.relays[r].rest| && s.relays[r].rest[k].WellFormed()
    && Sendable(s, i) && i < s.relays[r].rest[k].id && i !in s.origin && i !in Ids(s.relays[r].rest)[..k]
  }

  /**
   Why the batches matter: a gap in one puts the stream out of line without any further commit or fault, by nothing but
   its relay going on.
   */
  lemma {:induction false} GapBreaksLine(cfg: Config, s: State, r: nat, k: nat, i: nat) returns (ls: seq<Step>)
    requires Safe(cfg, s) && Gap(s, r, k, i)
    ensures Runs(cfg, s, ls) && !InLine(After(cfg, s, ls))
    ensures forall l | l in ls :: l.ByRelay(r) && l.Succeeds()
    decreases |s.relays[r].rest|, s.relays[r].phase.AtRow?
  {
    ls := [];
    if InLine(s) {
      var l := NextStep(s, r);
      GapStays(cfg, s, r, k, i);
      StepSafe(cfg, s, l);
      var s', k' := Apply(cfg, s, l), if l.Publish? then k else k - 1;
      var later := GapBreaksLine(cfg, s', r, k', i);
      RunsFirst(cfg, s, l, later);
      ls := [l] + later;
    }
  }

  /** What a relay does next if nothing goes wrong. */
  function NextStep(s: State, r: nat): Step
    requires r in s.relays && s.relays[r].rest != []
  {
    if s.relays[r].phase.Stored? then Mark(r, true, 0)
    else if s.relays[r].rest[0].WellFormed() then Publish(r, Replied)
    else Quarantine(r, true, "", 0)
  }

  lemma GapStays(cfg: Config, s: State, r: nat, k: nat, i: nat)
    requires Safe(cfg, s) && InLine(s) && Gap(s, r, k, i)
    ensures var l := NextStep(s, r);
            && Enabled(s, l) && l.ByRelay(r) && l.Succeeds()
            && var s' := Apply(cfg, s, l);
            && r in s'.relays
            && if l.Publish? then s'.relays[r] == s.relays[r].(phase := Stored) && Gap(s', r, k, i)
               else |s'.relays[r].rest| < |s.relays[r].rest| && k > 0 && Gap(s', r, k - 1, i)
  {
    var rest := s.relays[r].rest;
    assert DrainingOk(s, s.relays[r]);
    if NextStep(s, r).Publish? {
      assert i != rest[0].id by {
        if k > 0 { assert Ids(rest)[..k][0] == rest[0].id; }
      }
    } else {
      if s.relays[r].phase.Stored? {
        var j :| 0 <= j < |s.origin| && s.origin[j] == rest[0].id;
        assert k > 0;
      }
      assert Ids(rest[1..])[..k - 1] == Ids(rest)[..k][1..];
    }
  }

  // ---------------------------------------------------------------------------------------------------------------
  // The stream alone
  // ---------------------------------------------------------------------------------------------------------------

  /**
   What a step must not do to the stream itself: reveal a sendable row below a sent one, or store a message that is
   there already, or one above a sendable row that is not.
   */
  predicate KeepsLine(s: State, l: Step)
    requires Enabled(s, l)
  {
    match l
    case Commit(tx) => forall i, x | i in s.open[tx] && s.open[tx][i].WellFormed() && x in s.origin :: x < i
    case Publish(r, outcome) =>
      var e := s.relays[r].rest[0];
      !outcome.NotStored? && e.messageId !in s.dedupe ==>
        && e.id !in s.origin
        && forall i | i in s.table && s.table[i].WellFormed() && i < e.id :: i in s.origin
    case _ => true
  }

  lemma CommitInLine(cfg: Config, s: State, tx: nat)
    requires Safe(cfg, s) && InLine(s) && Enabled(s, Commit(tx))
    ensures InLine(Apply(cfg, s, Commit(tx))) <==> KeepsLine(s, Commit(tx))
  {
    var s' := Apply(cfg, s, Commit(tx));
    forall i ensures Sendable(s', i) <==> Sendable(s, i) || (i in s.open[tx] && s.open[tx][i].WellFormed()) {
      if i in s.open[tx] { OpenRowOwned(s, tx, i); }
    }
    if !KeepsLine(s, Commit(tx)) {
      var i, x :| i in s.open[tx] && s.open[tx][i].WellFormed() && x in s.origin && !(x < i);
      OpenRowOwned(s, tx, i);
      var k :| 0 <= k < |s.origin| && s.origin[k] == x;
      assert Sendable(s', i) && i !in s'.origin && i < s'.origin[k];
    } else {
      forall k, i | 0 <= k < |s.origin| && i in s.open[tx] && s.open[tx][i].WellFormed() ensures s.origin[k] < i {
        assert s.origin[k] in s.origin;
      }
    }
  }

  lemma PublishInLine(cfg: Config, s: State, r: nat, outcome: PublishOutcome)
    requires Safe(cfg, s) && InLine(s) && Enabled(s, Publish(r, outcome))
    ensures InLine(Apply(cfg, s, Publish(r, outcome))) <==> KeepsLine(s, Publish(r, outcome))
  {
    var s' := Apply(cfg, s, Publish(r, outcome));
    var e := s.relays[r].rest[0];
    SnapshotSendable(cfg, s, r, 0);
    if s'.origin != s.origin {
      Appended(s, s', e.id);
    }
  }

  lemma Appended(s: State, s': State, id: nat)
    requires InLine(s) && s'.table == s.table && s'.origin == s.origin + [id] && Sendable(s, id)
    ensures InLine(s') <==> id !in s.origin && forall i | Sendable(s, i) && i < id :: i in s.origin
  {
    var n := |s.origin|;
    assert s'.origin[n] == id;
    if id in s.origin {
      var k :| 0 <= k < n && s.origin[k] == id;
      assert s'.origin[k] == s'.origin[n];
    } else {
      forall k | 0 <= k < n ensures s'.origin[k] == s.origin[k] < id {}
      forall i ensures i in s'.origin <==> i in s.origin || i == id {}
    }
  }

  /** Exactly these steps keep the stream in line. */
  lemma StepInLine(cfg: Config, s: State, l: Step)
    requires Safe(cfg, s) && InLine(s) && Enabled(s, l)
    ensures InLine(Apply(cfg, s, l)) <==> KeepsLine(s, l)
  {
    match l
    case Commit(tx) => CommitInLine(cfg, s, tx);
    case Publish(r, outcome) => PublishInLine(cfg, s, r, outcome);
    case _ => forall i ensures Sendable(Apply(cfg, s, l), i) == Sendable(s, i) {}
  }

  ghost predicate InLineThroughout(cfg: Config, s: State, ls: seq<Step>)
    requires Runs(cfg, s, ls)
    decreases ls
  {
    InLine(s) && (ls != [] ==> InLineThroughout(cfg, Apply(cfg, s, ls[0]), ls[1..]))
  }

  predicate AllKeepLine(cfg: Config, s: State, ls: seq<Step>)
    requires Runs(cfg, s, ls)
    decreases ls
  {
    ls != [] ==> KeepsLine(s, ls[0]) && AllKeepLine(cfg, Apply(cfg, s, ls[0]), ls[1..])
  }

  /** Over whole runs: the stream is in line all the time iff each step keeps it in line. */
  lemma {:induction false} RunInLine(cfg: Config, s: State, ls: seq<Step>)
    requires Safe(cfg, s) && InLine(s) && Runs(cfg, s, ls)
    ensures InLineThroughout(cfg, s, ls) <==> AllKeepLine(cfg, s, ls)
    decreases ls
  {
    if ls != [] {
      StepInLine(cfg, s, ls[0]);
      StepSafe(cfg, s, ls[0]);
      var s' := Apply(cfg, s, ls[0]);
      if InLine(s') {
        RunInLine(cfg, s', ls[1..]);
      }
    }
  }

  // ---------------------------------------------------------------------------------------------------------------
  // Whole runs
  // ---------------------------------------------------------------------------------------------------------------

  lemma {:induction false} RunOrdered(cfg: Config, s: State, ls: seq<Step>)
    requires Safe(cfg, s) && Ordered(s) && Runs(cfg, s, ls)
    ensures OrderedThroughout(cfg, s, ls) <==> Disciplined(cfg, s, ls)
    ensures OrderedThroughout(cfg, s, ls) ==> Ordered(After(cfg, s, ls))
    decreases ls
  {
    if ls != [] {
      StepOrdered(cfg, s, ls[0]);
      StepSafe(cfg, s, ls[0]);
      var s' := Apply(cfg, s, ls[0]);
      if Ordered(s') {
        RunOrdered(cfg, s', ls[1..]);
      }
    }
  }

  function SendableIds(t: Table): set<nat> {
    set i | i in t && t[i].WellFormed()
  }

  /** What the stream would be if every committed row that can be sent had been sent, in id order. */
  function IdealStream(cfg: Config, t: Table): (ms: seq<Msg>)
    ensures |ms| == |SendableIds(t)|
  {
    var ids := Ascending(SendableIds(t));
    seq(|ids|, k requires 0 <= k < |ids| => assert ids[k] in SendableIds(t); Wire(cfg, t[ids[k]]))
  }

  /** In line means: the stream is a prefix of the ideal one. */
  lemma InLineIffPrefix(cfg: Config, s: State)
    requires Safe(cfg, s)
    ensures InLine(s) <==> s.stream <= IdealStream(cfg, s.table)
  {
    if InLine(s) {
      InLineIsPrefix(cfg, s);
    } else if s.stream <= IdealStream(cfg, s.table) {
      PrefixIsInLine(cfg, s);
    }
  }

  lemma InLineIsPrefix(cfg: Config, s: State)
    requires Safe(cfg, s) && InLine(s)
    ensures s.stream <= IdealStream(cfg, s.table)
  {
    var ids := Ascending(SendableIds(s.table));
    PrefixOfAscending(s.origin, SendableIds(s.table));
    forall k | 0 <= k < |s.stream| ensures s.stream[k] == IdealStream(cfg, s.table)[k] {
      assert s.origin[k] == ids[k];
    }
  }

  lemma PrefixIsInLine(cfg: Config, s: State)
    requires Safe(cfg, s) && s.stream <= IdealStream(cfg, s.table)
    ensures InLine(s)
  {
    var ids := Ascending(SendableIds(s.table));
    forall k | 0 <= k < |s.origin| ensures s.origin[k] == ids[k] {
      assert ids[k] in SendableIds(s.table);
      assert s.stream[k] == IdealStream(cfg, s.table)[k];
      SameRow(cfg, s, k, ids[k]);
    }
    AscendingInLine(s, ids);
  }

  /** A stream message tells by its id which row it was made of. */
  lemma SameRow(cfg: Config, s: State, k: nat, i: nat)
    requires TableOk(s) && StreamOk(cfg, s) && k < |s.stream|
    requires Sendable(s, i) && s.stream[k].msgId == s.table[i].messageId
    ensures s.origin[k] == i
  {
    assert Owned(s, s.table[s.origin[k]]) && Owned(s, s.table[i]);
  }

  lemma AscendingInLine(s: State, ids: seq<nat>)
    requires ids == Ascending(SendableIds(s.table)) && s.origin <= ids
    ensures InLine(s)
  {
    forall i, k | Sendable(s, i) && 0 <= k < |s.origin| && i < s.origin[k] ensures i in s.origin {
      assert i in SendableIds(s.table);
      var p :| 0 <= p < |ids| && ids[p] == i;
      assert s.origin[p] == i;
    }
  }

  lemma InLineHasNoDuplicates(cfg: Config, s: State)
    requires Safe(cfg, s) && InLine(s)
    ensures forall j, k | 0 <= j < k < |s.stream| :: s.stream[j].msgId != s.stream[k].msgId
  {
    forall j, k | 0 <= j < k < |s.stream| ensures s.stream[j].msgId != s.stream[k].msgId {
      assert Owned(s, s.table[s.origin[j]]) && Owned(s, s.table[s.origin[k]]);
    }
  }

  /**
   In every run of any number of relays, through publish errors, lost replies, failed marks, crashes and restarts: if
   commits reveal rows in order and re-publishes fall inside the duplicates window, the stream is a prefix, without
   duplicates, of the sendable committed rows in ascending id order.
   */
  lemma StreamRefinement(cfg: Config, ls: seq<Step>)
    requires Runs(cfg, Initial, ls) && Disciplined(cfg, Initial, ls)
    ensures var s := After(cfg, Initial, ls);
            && s.stream <= IdealStream(cfg, s.table)
            && forall j, k | 0 <= j < k < |s.stream| :: s.stream[j].msgId != s.stream[k].msgId
  {
    RunSafe(cfg, Initial, ls);
    RunOrdered(cfg, Initial, ls);
    InLineIffPrefix(cfg, After(cfg, Initial, ls));
    InLineHasNoDuplicates(cfg, After(cfg, Initial, ls));
  }

  /** When nothing is pending any more, the prefix is the whole of it. */
  lemma StreamComplete(cfg: Config, ls: seq<Step>)
    requires Runs(cfg, Initial, ls) && Disciplined(cfg, Initial, ls)
    requires PendingIds(After(cfg, Initial, ls).table) == {}
    ensures var s := After(cfg, Initial, ls); s.stream == IdealStream(cfg, s.table)
  {
    var s := After(cfg, Initial, ls);
    RunSafe(cfg, Initial, ls);
    RunOrdered(cfg, Initial, ls);
    StreamRefinement(cfg, ls);
    var ids := Ascending(SendableIds(s.table));
    forall i ensures i in ids <==> i in s.origin {
      if i in SendableIds(s.table) {
        assert i !in PendingIds(s.table) && !s.table[i].Pending();
      }
      if i in s.origin {
        var k :| 0 <= k < |s.origin| && s.origin[k] == i;
      }
    }
    IncreasingUnique(ids, s.origin);
  }

  /** Rows become visible in id order, and re-publishes fall inside the duplicates window. */
  predicate VisibleInOrderThroughout(cfg: Config, s: State, ls: seq<Step>)
    requires Runs(cfg, s, ls)
    decreases ls
  {
    ls != [] ==>
      && (match ls[0]
          case Commit(tx) => forall i, j | i in s.open[tx] && j in s.table :: j < i
          case Publish(r, outcome) => InsideWindow(s, r, outcome)
          case _ => true)
      && VisibleInOrderThroughout(cfg, Apply(cfg, s, ls[0]), ls[1..])
  }

  lemma {:induction false} VisibleInOrderIsDisciplined(cfg: Config, s: State, ls: seq<Step>)
    requires Safe(cfg, s) && Runs(cfg, s, ls) && VisibleInOrderThroughout(cfg, s, ls)
    ensures Disciplined(cfg, s, ls)
    decreases ls
  {
    if ls != [] {
      if ls[0].Commit? {
        VisibleInIdOrder(cfg, s, ls[0].tx);
      }
      StepSafe(cfg, s, ls[0]);
      VisibleInOrderIsDisciplined(cfg, Apply(cfg, s, ls[0]), ls[1..]);
    }
  }

  /**
   So in every run in which rows become visible in id order and re-publishes fall inside the window, the stream is the
   duplicate-free prefix.
   */
  lemma VisibleInOrderRefines(cfg: Config, ls: seq<Step>)
    requires Runs(cfg, Initial, ls) && VisibleInOrderThroughout(cfg, Initial, ls)
    ensures var s := After(cfg, Initial, ls);
            && s.stream <= IdealStream(cfg, s.table)
            && forall j, k | 0 <= j < k < |s.stream| :: s.stream[j].msgId != s.stream[k].msgId
  {
    VisibleInOrderIsDisciplined(cfg, Initial, ls);
    StreamRefinement(cfg, ls);
  }

  /** Rows that become visible above every visible row satisfy the commit condition. */
  lemma VisibleInIdOrder(cfg: Config, s: State, tx: nat)
    requires Safe(cfg, s) && tx in s.open
    requires forall i, j | i in s.open[tx] && j in s.table :: j < i
    ensures RevealsInOrder(s, tx)
  {
    forall i | i in s.open[tx] && s.open[tx][i].WellFormed()
      ensures forall x | x in s.origin :: x < i
      ensures AboveListed(s, i)
    {
      forall x | x in s.origin ensures x < i {
        var k :| 0 <= k < |s.origin| && s.origin[k] == x;
      }
      forall r, k | r in s.relays && 0 <= k < |s.relays[r].rest| ensures s.relays[r].rest[k].id < i {
        SnapshotSendable(cfg, s, r, k);
      }
    }
  }
}

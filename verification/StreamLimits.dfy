/**
 Without the two conditions of StreamOrder the stream is not ordered, respectively not free of duplicates. Both runs
 below contain no crash and no failed database statement.
 */
module StreamLimits {
  import opened Ordering
  import opened Outbox
  import opened RelayProtocol
  import opened StreamOrder

  ghost predicate Reachable(cfg: Config, s: State) {
    exists ls :: Runs(cfg, Initial, ls) && After(cfg, Initial, ls) == s
  }

  lemma ReachableInitially(cfg: Config)
    ensures Reachable(cfg, Initial)
  {
    assert Runs(cfg, Initial, []) && After(cfg, Initial, []) == Initial;
  }

  lemma ReachableStep(cfg: Config, s: State, l: Step)
    requires Reachable(cfg, s) && Enabled(s, l)
    ensures Reachable(cfg, Apply(cfg, s, l))
  {
    var ls :| Runs(cfg, Initial, ls) && After(cfg, Initial, ls) == s;
    RunsAppend(cfg, Initial, ls, l);
  }

  function Task(messageId: Uuid): Draft {
    Draft(messageId, "queues.default.job", "v1", Json("{}"), 0)
  }

  lemma ListsOnly(t: Table, i: nat)
    requires i in t && PendingIds(t) == {i}
    ensures ListUnpublished(t, 100) == [t[i]]
  {
    assert Ascending({i}) == [i] by {
      IncreasingUnique(Ascending({i}), [i]);
    }
  }

  const Early := NewRow(0, Task(7))
  const Late := NewRow(1, Task(8))

  /** One transaction inserts row 0 and stays open. */
  lemma EarlyInserted(cfg: Config)
    ensures Reachable(cfg, Initial.(open := map[0 := map[0 := Early]], nextId := 1, minted := map[7 := 0]))
  {
    ReachableInitially(cfg);
    ReachableStep(cfg, Initial, Begin(0));
    var s1 := Apply(cfg, Initial, Begin(0));
    ReachableStep(cfg, s1, Insert(0, Task(7)));
    assert Apply(cfg, s1, Insert(0, Task(7)))
        == Initial.(open := map[0 := map[0 := Early]], nextId := 1, minted := map[7 := 0]);
  }

  /** A second transaction takes id 1 and commits first. */
  lemma LateCommitted(cfg: Config)
    ensures Reachable(cfg, Initial.(table := map[1 := Late], open := map[0 := map[0 := Early]], nextId := 2,
                                    minted := map[7 := 0, 8 := 1]))
  {
    EarlyInserted(cfg);
    var s2 := Initial.(open := map[0 := map[0 := Early]], nextId := 1, minted := map[7 := 0]);
    ReachableStep(cfg, s2, Begin(1));
    var s3 := Apply(cfg, s2, Begin(1));
    ReachableStep(cfg, s3, Insert(1, Task(8)));
    var s4 := Apply(cfg, s3, Insert(1, Task(8)));
    ReachableStep(cfg, s4, Commit(1));
    assert Apply(cfg, s4, Commit(1)).table == map[1 := Late];
    assert Apply(cfg, s4, Commit(1)).open == map[0 := map[0 := Early]];
  }

  lemma LateRelayed(cfg: Config)
    ensures exists s :: Reachable(cfg, s) && s.table == map[1 := Late] && s.open == map[0 := map[0 := Early]]
                        && s.stream == [Wire(cfg, Late)]
  {
    LateCommitted(cfg);
    var s5 := Initial.(table := map[1 := Late], open := map[0 := map[0 := Early]], nextId := 2,
                       minted := map[7 := 0, 8 := 1]);
    ReachableStep(cfg, s5, List(0, 100));
    var s6 := Apply(cfg, s5, List(0, 100));
    assert PendingIds(s5.table) == {1};
    ListsOnly(s5.table, 1);
    ReachableStep(cfg, s6, Publish(0, Replied));
    assert Apply(cfg, s6, Publish(0, Replied)).stream == [Wire(cfg, Late)];
  }

  /** The later row is relayed before the earlier one becomes visible, so the stream skips the earlier one. */
  lemma CommitOrderMatters(cfg: Config)
    ensures exists s :: Reachable(cfg, s) && !(s.stream <= IdealStream(cfg, s.table))
  {
    LateRelayed(cfg);
    var s7 :| Reachable(cfg, s7) && s7.table == map[1 := Late] && s7.open == map[0 := map[0 := Early]]
              && s7.stream == [Wire(cfg, Late)];
    ReachableStep(cfg, s7, Commit(0));
    var s8 := Apply(cfg, s7, Commit(0));
    assert s8.table == map[0 := Early, 1 := Late];
    SkippedRow(cfg, s8);
  }

  lemma SkippedRow(cfg: Config, s: State)
    requires s.table == map[0 := Early, 1 := Late] && s.stream == [Wire(cfg, Late)]
    ensures !(s.stream <= IdealStream(cfg, s.table))
  {
    TwoSendable(s.table);
    ZeroOne();
    assert IdealStream(cfg, s.table)[0] == Wire(cfg, s.table[0]);
    assert Wire(cfg, Early).msgId != Wire(cfg, Late).msgId;
  }

  lemma TwoSendable(t: Table)
    requires t == map[0 := Early, 1 := Late]
    ensures SendableIds(t) == {0, 1}
  {
  }

  lemma ZeroOne()
    ensures Ascending({0, 1}) == [0, 1]
  {
    IncreasingUnique(Ascending({0, 1}), [0, 1]);
  }

  lemma EarlyCommitted(cfg: Config)
    ensures Reachable(cfg, Initial.(table := map[0 := Early], nextId := 1, minted := map[7 := 0]))
  {
    EarlyInserted(cfg);
    var s2 := Initial.(open := map[0 := map[0 := Early]], nextId := 1, minted := map[7 := 0]);
    ReachableStep(cfg, s2, Commit(0));
    assert Apply(cfg, s2, Commit(0)).table == map[0 := Early];
    assert Apply(cfg, s2, Commit(0)) == Initial.(table := map[0 := Early], nextId := 1, minted := map[7 := 0]);
  }

  /** The row reaches the stream, but the reply does not reach the relay, so the row stays pending. */
  lemma ReplyIsLost(cfg: Config)
    ensures Reachable(cfg, Initial.(table := map[0 := Early], nextId := 1, minted := map[7 := 0],
                                    stream := [Wire(cfg, Early)], origin := [0], dedupe := {7}))
  {
    EarlyCommitted(cfg);
    var s3 := Initial.(table := map[0 := Early], nextId := 1, minted := map[7 := 0]);
    assert PendingIds(s3.table) == {0};
    ListsOnly(s3.table, 0);
    ReachableStep(cfg, s3, List(0, 100));
    var s4 := Apply(cfg, s3, List(0, 100));
    ReachableStep(cfg, s4, Publish(0, ReplyLost));
    assert Apply(cfg, s4, Publish(0, ReplyLost)).relays == map[];
  }

  /** The duplicates window lapses before the row is published again. */
  lemma WindowMatters(cfg: Config)
    ensures exists s :: Reachable(cfg, s) && |s.stream| == 2 && s.stream[0].msgId == s.stream[1].msgId
  {
    ReplyIsLost(cfg);
    var s5 := Initial.(table := map[0 := Early], nextId := 1, minted := map[7 := 0],
                       stream := [Wire(cfg, Early)], origin := [0], dedupe := {7});
    ReachableStep(cfg, s5, Forget({7}));
    var s6 := Apply(cfg, s5, Forget({7}));
    assert PendingIds(s6.table) == {0};
    ListsOnly(s6.table, 0);
    ReachableStep(cfg, s6, List(0, 100));
    var s7 := Apply(cfg, s6, List(0, 100));
    ReachableStep(cfg, s7, Publish(0, Replied));
    var s8 := Apply(cfg, s7, Publish(0, Replied));
    assert s8.stream == [Wire(cfg, Early), Wire(cfg, Early)];
  }
}

/**
 The whole pipeline: the relays of RelayProtocol feed the stream, and the queue consumers work through it. A message
 goes to every consumer whose registered subject, plain or with wildcards, covers its own, and each consumer works on it
 by itself. Several deliveries to one consumer may be in progress at once, because JetStream redelivers after AckWait
 even while a slow handler still runs; replies may be lost, and a consumer may die at any point.
 */
module EndToEnd {
  import opened Strings
  import opened Outbox
  import RelayProtocol
  import opened Subjects
  import opened MessagingRouter
  import opened QueueConsumer
  import QueueRouting

  /** A delivery being worked on: in the handler, about to be dead-lettered, or about to be answered. */
  datatype Progress = Handling | Burying(attempts: nat, error: string) | Replying(reply: Reply)

  /** The broker's view of a message for one consumer; Exhausted means it stopped delivering without having a reply. */
  datatype Status = Open | Acked | Terminated | Exhausted

  /** A message, by its position on the stream, on its way to one consumer, named by its registered subject. */
  datatype Tracking = Tracking(msg: nat, consumer: string, count: nat, status: Status, attempts: map<nat, Progress>)

  /** subjects are the registered subjects, in the order in which the subscriber met them. */
  datatype Setup = Setup(cfg: Outbox.Config, appSlug: string, subjects: seq<string>)

  /** handled are the messages for which a call of their registered handler returned nil. */
  datatype System = System(
    outbox: RelayProtocol.State, tracks: seq<Tracking>, handled: set<nat>, dlq: seq<FailedMessage>)

  datatype Move =
    | Relay(step: RelayProtocol.Step)
    | Deliver(k: nat)
    | Return(k: nat, c: nat, outcome: Outcome)
    | Skip(k: nat, c: nat)
    | NoMetadata(k: nat, c: nat, error: string)
    | Save(k: nat, c: nat, written: bool)
    | Send(k: nat, c: nat, arrives: bool)
    | Die(k: nat, c: nat)
    | GiveUp(k: nat)

  const Start := System(RelayProtocol.Initial, [], {}, [])

  /** The consumers that a message is delivered to. */
  function Receivers(setup: Setup, m: Msg): seq<Consumer> {
    QueueRouting.Receivers(QueueConsumers(setup.appSlug, setup.cfg.prefix, setup.subjects), m.subject)
  }

  function Copies(msg: nat, cs: seq<Consumer>): (copies: seq<Tracking>)
    ensures |copies| == |cs|
    ensures forall k | 0 <= k < |cs| :: copies[k] == Tracking(msg, cs[k].registered, 0, Open, map[])
  {
    seq(|cs|, k requires 0 <= k < |cs| => Tracking(msg, cs[k].registered, 0, Open, map[]))
  }

  /** The router subject that a message is looked up by. */
  function Subject(setup: Setup, m: Msg): string {
    TrimPrefix(m.subject, setup.cfg.prefix + ".")
  }

  function RowFor(setup: Setup, m: Msg, attempts: nat, error: string): FailedMessage {
    DeadLetterRow(
      QueueConsumer.Envelope(Parsed(m.envelope.id), m.envelope.version, m.envelope.data),
      Subject(setup, m), attempts, error, 0)
  }

  predicate Placed(s: System) {
    forall k | 0 <= k < |s.tracks| :: s.tracks[k].msg < |s.outbox.stream|
  }

  function MsgOf(s: System, k: nat): Msg
    requires k < |s.tracks| && s.tracks[k].msg < |s.outbox.stream|
  {
    s.outbox.stream[s.tracks[k].msg]
  }

  /** There is a handler for the message. */
  predicate HasHandler(setup: Setup, s: System, k: nat)
    requires k < |s.tracks| && s.tracks[k].msg < |s.outbox.stream|
  {
    Subject(setup, MsgOf(s, k)) in setup.subjects
  }

  predicate InProgress(s: System, k: nat, c: nat) {
    k < |s.tracks| && c in s.tracks[k].attempts
  }

  predicate Enabled(setup: Setup, s: System, m: Move) {
    Placed(s) &&
    match m
    case Relay(step) => RelayProtocol.Enabled(s.outbox, step)
    case Deliver(k) => k < |s.tracks| && s.tracks[k].status.Open? && s.tracks[k].count < MaxDeliver
    case Return(k, c, _) =>
      InProgress(s, k, c) && s.tracks[k].attempts[c].Handling? && 1 <= c && HasHandler(setup, s, k)
    case Skip(k, c) => InProgress(s, k, c) && s.tracks[k].attempts[c].Handling? && !HasHandler(setup, s, k)
    case NoMetadata(k, c, _) => InProgress(s, k, c) && s.tracks[k].attempts[c].Handling?
    case Save(k, c, _) => InProgress(s, k, c) && s.tracks[k].attempts[c].Burying?
    case Send(k, c, _) => InProgress(s, k, c) && s.tracks[k].attempts[c].Replying?
    case Die(k, c) => InProgress(s, k, c)
    case GiveUp(k) => k < |s.tracks| && s.tracks[k].status.Open? && s.tracks[k].count == MaxDeliver
  }

  function Proceed(t: Tracking, c: nat, p: Progress): Tracking {
    t.(attempts := t.attempts[c := p])
  }

  function AfterVerdict(v: Verdict): Progress {
    match v
    case Answer(reply) => Replying(reply)
    case Bury(attempts, error) => Burying(attempts, error)
  }

  /** A reply settles a message only while the broker still waits for one. */
  function Receive(status: Status, reply: Reply): Status {
    if !status.Open? || reply.Nak? then status else if reply.Ack? then Acked else Terminated
  }

  function Apply(setup: Setup, s: System, m: Move): System
    requires Enabled(setup, s, m)
  {
    match m
    case Relay(step) =>
      var outbox, n := RelayProtocol.Apply(setup.cfg, s.outbox, step), |s.outbox.stream|;
      s.(outbox := outbox,
         tracks := if |outbox.stream| <= n then s.tracks
                   else s.tracks + Copies(n, Receivers(setup, outbox.stream[n])))
    case Deliver(k) =>
      var t := s.tracks[k];
      Put(s, k, Proceed(t.(count := t.count + 1), t.count + 1, Handling))
    case Return(k, c, outcome) =>
      var s' := Put(s, k, Proceed(s.tracks[k], c, AfterVerdict(Decide(c, outcome))));
      if outcome.Handled? then s'.(handled := s.handled + {s.tracks[k].msg}) else s'
    case Skip(k, c) => Put(s, k, Proceed(s.tracks[k], c, Replying(Ack)))
    case NoMetadata(k, c, error) => Put(s, k, Proceed(s.tracks[k], c, Burying(0, error)))
    case Save(k, c, written) =>
      var p := s.tracks[k].attempts[c];
      var s' := Put(s, k, Proceed(s.tracks[k], c, Replying(Term)));
      if written then s'.(dlq := FirstOrCreate(s.dlq, RowFor(setup, MsgOf(s, k), p.attempts, p.error))) else s'
    case Send(k, c, arrives) =>
      var t := s.tracks[k];
      Put(s, k, t.(attempts := t.attempts - {c},
                   status := if arrives then Receive(t.status, t.attempts[c].reply) else t.status))
    case Die(k, c) => Put(s, k, s.tracks[k].(attempts := s.tracks[k].attempts - {c}))
    case GiveUp(k) => Put(s, k, s.tracks[k].(status := Exhausted))
  }

  function Put(s: System, k: nat, t: Tracking): System
    requires k < |s.tracks|
  {
    s.(tracks := s.tracks[k := t])
  }

  predicate Runs(setup: Setup, s: System, ms: seq<Move>)
    decreases ms
  {
    ms != [] ==> Enabled(setup, s, ms[0]) && Runs(setup, Apply(setup, s, ms[0]), ms[1..])
  }

  function After(setup: Setup, s: System, ms: seq<Move>): System
    requires Runs(setup, s, ms)
    decreases ms
  {
    if ms == [] then s else After(setup, Apply(setup, s, ms[0]), ms[1..])
  }

  // ---------------------------------------------------------------------------------------------------------------
  // What always holds
  // ---------------------------------------------------------------------------------------------------------------

  /** For which message and which consumer there is a track. */
  function Pairs(tracks: seq<Tracking>): (pairs: seq<(nat, string)>)
    ensures |pairs| == |tracks| && forall k | 0 <= k < |tracks| :: pairs[k] == (tracks[k].msg, tracks[k].consumer)
  {
    seq(|tracks|, k requires 0 <= k < |tracks| => (tracks[k].msg, tracks[k].consumer))
  }

  /** Each message of the stream for each of its receivers. */
  function Deliverable(setup: Setup, stream: seq<Msg>): seq<(nat, string)> {
    if stream == [] then []
    else
      var n := |stream| - 1;
      Deliverable(setup, stream[..n]) + Pairs(Copies(n, Receivers(setup, stream[n])))
  }

  predicate HasRow(s: System, k: nat)
    requires k < |s.tracks| && s.tracks[k].msg < |s.outbox.stream|
  {
    MsgOf(s, k).msgId in RowIds(s.dlq)
  }

  /** The message was handled, or it is in the dead-letter table. */
  predicate Settled(s: System, k: nat)
    requires k < |s.tracks| && s.tracks[k].msg < |s.outbox.stream|
  {
    s.tracks[k].msg in s.handled || HasRow(s, k)
  }

  /** The eleventh delivery has not come to a decision yet. */
  predicate LastUndecided(t: Tracking) {
    MaxDeliver in t.attempts && !t.attempts[MaxDeliver].Replying?
  }

  /** An ack is sent for a message that was handled, or that has no handler. */
  predicate MayAck(setup: Setup, s: System, k: nat)
    requires k < |s.tracks| && s.tracks[k].msg < |s.outbox.stream|
  {
    s.tracks[k].msg in s.handled || !HasHandler(setup, s, k)
  }

  /** What holds of a track whatever happens: acks have a reason, and Nak's follow the schedule. */
  predicate TrackOk(setup: Setup, s: System, k: nat)
    requires k < |s.tracks| && s.tracks[k].msg < |s.outbox.stream|
  {
    var t := s.tracks[k];
    && t.count <= MaxDeliver
    && (t.status.Acked? ==> MayAck(setup, s, k))
    && forall c | c in t.attempts :: AttemptOk(t, MayAck(setup, s, k), c)
  }

  predicate AttemptOk(t: Tracking, mayAck: bool, c: nat)
    requires c in t.attempts
  {
    1 <= c <= t.count &&
    match t.attempts[c]
    case Replying(Ack) => mayAck
    case Replying(Nak(delay)) => c < MaxDeliver && delay == Delay(c)
    case _ => true
  }

  predicate TracksOk(setup: Setup, s: System) {
    Placed(s) && forall k | 0 <= k < |s.tracks| :: TrackOk(setup, s, k)
  }

  ghost predicate Sound(setup: Setup, s: System) {
    && RelayProtocol.Safe(setup.cfg, s.outbox)
    && TracksOk(setup, s)
    && Pairs(s.tracks) == Deliverable(setup, s.outbox.stream)
    && (forall k | 0 <= k < |s.outbox.stream| :: s.outbox.stream[k].envelope.id == s.outbox.stream[k].msgId)
    && UniqueIds(s.dlq)
    && (forall r | r in s.dlq :: Sourced(setup, s, r))
  }

  /** A dead-letter row was made of a message that is on the stream. */
  ghost predicate Sourced(setup: Setup, s: System, r: FailedMessage) {
    exists k :: 0 <= k < |s.outbox.stream| && r == RowFor(setup, s.outbox.stream[k], r.attempts, r.lastError)
  }

  /** A relay's step appends at most one message. */
  lemma StreamGrows(setup: Setup, s: System, step: RelayProtocol.Step)
    requires RelayProtocol.Safe(setup.cfg, s.outbox) && RelayProtocol.Enabled(s.outbox, step)
    ensures var outbox := RelayProtocol.Apply(setup.cfg, s.outbox, step);
            && RelayProtocol.Safe(setup.cfg, outbox)
            && s.outbox.stream <= outbox.stream && |outbox.stream| <= |s.outbox.stream| + 1
  {
    RelayProtocol.StepSafe(setup.cfg, s.outbox, step);
    RelayProtocol.StepExtends(setup.cfg, s.outbox, step);
  }

  /** Nothing is taken back. */
  predicate Grows(s: System, s': System) {
    && s.outbox.stream <= s'.outbox.stream && s.dlq <= s'.dlq && s.handled <= s'.handled
    && |s.tracks| <= |s'.tracks|
    && forall k | 0 <= k < |s.tracks| ::
         s'.tracks[k].msg == s.tracks[k].msg && s'.tracks[k].consumer == s.tracks[k].consumer
  }

  lemma MoveGrows(setup: Setup, s: System, m: Move)
    requires RelayProtocol.Safe(setup.cfg, s.outbox) && Enabled(setup, s, m)
    ensures Grows(s, Apply(setup, s, m)) && Placed(Apply(setup, s, m))
    ensures RelayProtocol.Safe(setup.cfg, Apply(setup, s, m).outbox)
  {
    if m.Relay? {
      StreamGrows(setup, s, m.step);
    }
  }

  lemma MoveSound(setup: Setup, s: System, m: Move)
    requires Sound(setup, s) && Enabled(setup, s, m)
    ensures Sound(setup, Apply(setup, s, m)) && Grows(s, Apply(setup, s, m))
  {
    MoveGrows(setup, s, m);
    MoveTracks(setup, s, m);
    MovePairs(setup, s, m);
    MoveRows(setup, s, m);
    forall k | 0 <= k < |Apply(setup, s, m).outbox.stream|
      ensures Apply(setup, s, m).outbox.stream[k].envelope.id == Apply(setup, s, m).outbox.stream[k].msgId {}
  }

  lemma MoveRows(setup: Setup, s: System, m: Move)
    requires UniqueIds(s.dlq) && (forall r | r in s.dlq :: Sourced(setup, s, r))
    requires Enabled(setup, s, m) && Grows(s, Apply(setup, s, m))
    ensures UniqueIds(Apply(setup, s, m).dlq)
    ensures forall r | r in Apply(setup, s, m).dlq :: Sourced(setup, Apply(setup, s, m), r)
  {
    SourcedKept(setup, s, Apply(setup, s, m));
    if m.Save? {
      var p := s.tracks[m.k].attempts[m.c];
      var r := RowFor(setup, MsgOf(s, m.k), p.attempts, p.error);
      FirstOrCreateIds(s.dlq, r);
      assert Sourced(setup, Apply(setup, s, m), r);
    }
  }

  lemma SourcedKept(setup: Setup, s: System, s': System)
    requires s.outbox.stream <= s'.outbox.stream
    ensures forall r | Sourced(setup, s, r) :: Sourced(setup, s', r)
  {
    forall r | Sourced(setup, s, r) ensures Sourced(setup, s', r) {
      var k :| 0 <= k < |s.outbox.stream| && r == RowFor(setup, s.outbox.stream[k], r.attempts, r.lastError);
      assert s'.outbox.stream[k] == s.outbox.stream[k];
    }
  }

  lemma MovePairs(setup: Setup, s: System, m: Move)
    requires RelayProtocol.Safe(setup.cfg, s.outbox) && Enabled(setup, s, m)
    requires Pairs(s.tracks) == Deliverable(setup, s.outbox.stream)
    ensures Pairs(Apply(setup, s, m).tracks) == Deliverable(setup, Apply(setup, s, m).outbox.stream)
  {
    var s' := Apply(setup, s, m);
    if m.Relay? {
      StreamGrows(setup, s, m.step);
      if |s'.outbox.stream| > |s.outbox.stream| {
        PairsGrow(setup, s.tracks, s.outbox.stream, s'.outbox.stream);
      } else {
        assert s'.outbox.stream == s.outbox.stream;
      }
    } else {
      MoveGrows(setup, s, m);
      SamePairs(s.tracks, s'.tracks);
    }
  }

  lemma SamePairs(a: seq<Tracking>, b: seq<Tracking>)
    requires |a| == |b| && forall k | 0 <= k < |a| :: a[k].msg == b[k].msg && a[k].consumer == b[k].consumer
    ensures Pairs(a) == Pairs(b)
  {
  }

  lemma PairsGrow(setup: Setup, tracks: seq<Tracking>, stream: seq<Msg>, stream': seq<Msg>)
    requires Pairs(tracks) == Deliverable(setup, stream)
    requires |stream'| == |stream| + 1 && stream <= stream'
    ensures Pairs(tracks + Copies(|stream|, Receivers(setup, stream'[|stream|]))) == Deliverable(setup, stream')
  {
    var copies := Copies(|stream|, Receivers(setup, stream'[|stream|]));
    DeliverableMore(setup, stream, stream', copies);
    PairsJoin(tracks, copies);
  }

  lemma DeliverableMore(setup: Setup, stream: seq<Msg>, stream': seq<Msg>, copies: seq<Tracking>)
    requires |stream'| == |stream| + 1 && stream <= stream'
    requires copies == Copies(|stream|, Receivers(setup, stream'[|stream|]))
    ensures Deliverable(setup, stream') == Deliverable(setup, stream) + Pairs(copies)
  {
    assert stream'[..|stream|] == stream;
  }

  lemma PairsJoin(a: seq<Tracking>, b: seq<Tracking>)
    ensures Pairs(a + b) == Pairs(a) + Pairs(b)
  {
  }

  lemma MoveTracks(setup: Setup, s: System, m: Move)
    requires RelayProtocol.Safe(setup.cfg, s.outbox) && TracksOk(setup, s) && Enabled(setup, s, m)
    ensures TracksOk(setup, Apply(setup, s, m))
  {
    var s' := Apply(setup, s, m);
    MoveGrows(setup, s, m);
    forall k | 0 <= k < |s'.tracks| ensures s'.tracks[k].msg < |s'.outbox.stream| && TrackOk(setup, s', k) {
      if k < |s.tracks| {
        assert TrackOk(setup, s, k) && s'.tracks[k].msg == s.tracks[k].msg;
        if !m.Relay? && k == m.k {
          OwnTrackOk(setup, s, m);
        } else {
          OtherTrackOk(setup, s, s', k);
        }
      }
    }
  }

  /** Messages keep their subject, and handled ones stay handled. */
  lemma OtherTrackOk(setup: Setup, s: System, s': System, k: nat)
    requires k < |s.tracks| && s.tracks[k].msg < |s.outbox.stream| && TrackOk(setup, s, k)
    requires k < |s'.tracks| && s'.tracks[k] == s.tracks[k]
    requires s.outbox.stream <= s'.outbox.stream && s.handled <= s'.handled
    ensures TrackOk(setup, s', k)
  {
    assert MsgOf(s', k) == MsgOf(s, k);
    assert MayAck(setup, s, k) ==> MayAck(setup, s', k);
    forall c | c in s'.tracks[k].attempts ensures AttemptOk(s'.tracks[k], MayAck(setup, s', k), c) {
      assert AttemptOk(s.tracks[k], MayAck(setup, s, k), c);
    }
  }

  lemma OwnTrackOk(setup: Setup, s: System, m: Move)
    requires TracksOk(setup, s) && Enabled(setup, s, m) && !m.Relay? && m.k < |s.tracks|
    ensures var s' := Apply(setup, s, m);
            && m.k < |s'.tracks| && s'.tracks[m.k].msg < |s'.outbox.stream| && TrackOk(setup, s', m.k)
  {
    var s' := Apply(setup, s, m);
    var t, t' := s.tracks[m.k], s'.tracks[m.k];
    assert TrackOk(setup, s, m.k) && MsgOf(s', m.k) == MsgOf(s, m.k);
    var before, now := MayAck(setup, s, m.k), MayAck(setup, s', m.k);
    assert before ==> now;
    if m.Return? || m.Skip? || m.NoMetadata? || m.Save? || m.Send? {
      assert AttemptOk(t, before, m.c);
    }
    if m.Return? {
      ClampIsIdle(m.c);
    }
    forall c | c in t'.attempts ensures AttemptOk(t', now, c) {
      if c in t.attempts {
        assert AttemptOk(t, before, c);
      }
    }
  }

  // ---------------------------------------------------------------------------------------------------------------
  // Losses
  // ---------------------------------------------------------------------------------------------------------------

  /** The broker is done with the message for this consumer, and it was neither handled nor dead-lettered. */
  predicate Lost(s: System, k: nat)
    requires k < |s.tracks| && s.tracks[k].msg < |s.outbox.stream|
  {
    !s.tracks[k].status.Open? && !Settled(s, k)
  }

  predicate NothingLost(s: System)
    requires Placed(s)
  {
    forall k | 0 <= k < |s.tracks| :: !Lost(s, k)
  }

  /** Settled is for good, and a move of a consumer or the broker moves its own track only. */
  lemma OthersUntouched(setup: Setup, s: System, m: Move, k: nat)
    requires Sound(setup, s) && Enabled(setup, s, m) && k < |s.tracks|
    ensures var s' := Apply(setup, s, m);
            && Placed(s') && k < |s'.tracks| && s'.tracks[k].msg == s.tracks[k].msg && MsgOf(s', k) == MsgOf(s, k)
            && (Settled(s, k) ==> Settled(s', k))
            && (m.Relay? || k != m.k ==> s'.tracks[k] == s.tracks[k])
  {
    MoveGrows(setup, s, m);
  }

  /**
   The moves that lose a message for a consumer: while it is unsettled, a Term for it arrives, or an ack, which the
   consumer of a wildcard sends if the message has no handler, or the broker gives up.
   */
  predicate Loses(setup: Setup, s: System, m: Move)
    requires Enabled(setup, s, m)
  {
    match m
    case Send(k, c, arrives) =>
      && arrives && s.tracks[k].status.Open? && !Settled(s, k)
      && (s.tracks[k].attempts[c] == Replying(Term)
          || (s.tracks[k].attempts[c] == Replying(Ack) && !HasHandler(setup, s, k)))
    case GiveUp(k) => !Settled(s, k)
    case _ => false
  }

  /** Exactly these. */
  lemma LostIff(setup: Setup, s: System, m: Move)
    requires Sound(setup, s) && NothingLost(s) && Enabled(setup, s, m)
    ensures Sound(setup, Apply(setup, s, m))
    ensures NothingLost(Apply(setup, s, m)) <==> !Loses(setup, s, m)
  {
    var s' := Apply(setup, s, m);
    MoveSound(setup, s, m);
    forall j | 0 <= j < |s'.tracks| && (m.Relay? || j != m.k) ensures !Lost(s', j) {
      if j < |s.tracks| {
        OthersUntouched(setup, s, m, j);
        assert !Lost(s, j);
      }
    }
    if !m.Relay? {
      OwnLoss(setup, s, m);
    }
  }

  lemma OwnLoss(setup: Setup, s: System, m: Move)
    requires Sound(setup, s) && NothingLost(s) && Enabled(setup, s, m) && !m.Relay? && m.k < |s.tracks|
    ensures Placed(Apply(setup, s, m)) && m.k < |Apply(setup, s, m).tracks|
    ensures Lost(Apply(setup, s, m), m.k) <==> Loses(setup, s, m)
  {
    assert TrackOk(setup, s, m.k) && !Lost(s, m.k);
    OthersUntouched(setup, s, m, m.k);
    if m.Send? {
      assert AttemptOk(s.tracks[m.k], MayAck(setup, s, m.k), m.c);
    }
  }

  /**
   Nothing is lost, nor about to be: neither a Term nor an ack is on its way for an unsettled message, and the broker
   has not run out of deliveries of one, unless the eleventh may still settle it.
   */
  predicate Conserved(s: System)
    requires Placed(s)
  {
    forall k | 0 <= k < |s.tracks| :: Kept(s, k)
  }

  predicate Kept(s: System, k: nat)
    requires k < |s.tracks| && s.tracks[k].msg < |s.outbox.stream|
  {
    Settled(s, k) || StillOpen(s.tracks[k])
  }

  predicate StillOpen(t: Tracking) {
    && t.status.Open?
    && (forall c | c in t.attempts :: Undecided(t.attempts[c]))
    && (t.count == MaxDeliver ==> LastUndecided(t))
  }

  predicate Undecided(p: Progress) {
    p != Replying(Term) && p != Replying(Ack)
  }

  /** What nobody can prevent: a reply arrives, or the broker gives up once the eleventh delivery is decided or dead. */
  predicate Unpreventable(setup: Setup, s: System, m: Move)
    requires Enabled(setup, s, m)
  {
    match m
    case Send(_, _, arrives) => arrives
    case GiveUp(k) => !LastUndecided(s.tracks[k])
    case _ => false
  }

  /** Conserved is exact: in any other state a message is lost already, or a move that nobody can prevent loses one. */
  lemma ConservedIff(setup: Setup, s: System)
    requires Sound(setup, s)
    ensures Conserved(s) <==>
              NothingLost(s) && forall m | Enabled(setup, s, m) && Unpreventable(setup, s, m) :: !Loses(setup, s, m)
  {
    if Conserved(s) {
      forall k | 0 <= k < |s.tracks| ensures !Lost(s, k) {
        assert Kept(s, k);
      }
      forall m | Enabled(setup, s, m) && Unpreventable(setup, s, m) ensures !Loses(setup, s, m) {
        assert Kept(s, m.k);
      }
    } else {
      var k :| 0 <= k < |s.tracks| && !Kept(s, k);
      NotKept(setup, s, k);
    }
  }

  lemma NotKept(setup: Setup, s: System, k: nat)
    requires Sound(setup, s) && k < |s.tracks| && !Kept(s, k)
    ensures Lost(s, k) || exists m :: Enabled(setup, s, m) && Unpreventable(setup, s, m) && Loses(setup, s, m)
  {
    var t := s.tracks[k];
    assert TrackOk(setup, s, k);
    if t.status.Open? {
      if c :| c in t.attempts && !Undecided(t.attempts[c]) {
        assert AttemptOk(t, MayAck(setup, s, k), c);
        assert Enabled(setup, s, Send(k, c, true)) && Loses(setup, s, Send(k, c, true));
      } else {
        assert Enabled(setup, s, GiveUp(k)) && Loses(setup, s, GiveUp(k));
      }
    }
  }

  /**
   What may not happen to an unsettled message: that a dead-letter write fails, that its eleventh delivery dies before
   it came to a decision, that AckWait runs out on it, and that it is looked up without having a handler.
   */
  predicate Benign(s: System, m: Move)
    requires Placed(s)
  {
    match m
    case Save(k, c, written) => k < |s.tracks| && !written ==> Settled(s, k)
    case Skip(k, c) => k < |s.tracks| ==> Settled(s, k)
    case Die(k, c) => k < |s.tracks| && c == MaxDeliver && LastUndecided(s.tracks[k]) ==> Settled(s, k)
    case GiveUp(k) => k < |s.tracks| ==> Settled(s, k)
    case _ => true
  }

  lemma OwnKept(setup: Setup, s: System, m: Move)
    requires Sound(setup, s) && Conserved(s) && Enabled(setup, s, m) && !m.Relay? && m.k < |s.tracks|
    ensures Placed(Apply(setup, s, m)) && m.k < |Apply(setup, s, m).tracks|
    ensures Kept(Apply(setup, s, m), m.k) <==> Benign(s, m)
  {
    if m.Save? || m.Skip? {
      OwnKeptReplying(setup, s, m);
    } else if m.Die? || m.GiveUp? {
      OwnKeptEnding(setup, s, m);
    } else if m.Send? {
      OwnKeptSending(setup, s, m);
    } else {
      OwnKeptWorking(setup, s, m);
    }
  }

  lemma OwnKeptWorking(setup: Setup, s: System, m: Move)
    requires Sound(setup, s) && Conserved(s) && Enabled(setup, s, m)
    requires (m.Deliver? || m.Return? || m.NoMetadata?) && m.k < |s.tracks|
    ensures Placed(Apply(setup, s, m)) && m.k < |Apply(setup, s, m).tracks| && Kept(Apply(setup, s, m), m.k)
  {
    var t, s' := s.tracks[m.k], Apply(setup, s, m);
    assert Kept(s, m.k) && TrackOk(setup, s, m.k);
    OthersUntouched(setup, s, m, m.k);
    if m.Deliver? {
      assert StillOpen(t) ==> StillOpen(s'.tracks[m.k]);
    } else {
      assert AttemptOk(t, MayAck(setup, s, m.k), m.c);
      if StillOpen(t) && !Settled(s', m.k) {
        WorkedOn(t, m.c, s'.tracks[m.k].attempts[m.c]);
      }
    }
  }

  lemma WorkedOn(t: Tracking, c: nat, p: Progress)
    requires StillOpen(t) && c in t.attempts && Undecided(p) && (c == MaxDeliver ==> !p.Replying?)
    ensures StillOpen(Proceed(t, c, p))
  {
  }

  lemma OwnKeptSending(setup: Setup, s: System, m: Move)
    requires Sound(setup, s) && Conserved(s) && Enabled(setup, s, m) && m.Send? && m.k < |s.tracks|
    ensures Placed(Apply(setup, s, m)) && m.k < |Apply(setup, s, m).tracks| && Kept(Apply(setup, s, m), m.k)
  {
    assert Kept(s, m.k) && TrackOk(setup, s, m.k);
    assert AttemptOk(s.tracks[m.k], MayAck(setup, s, m.k), m.c);
    OthersUntouched(setup, s, m, m.k);
  }

  lemma OwnKeptEnding(setup: Setup, s: System, m: Move)
    requires Sound(setup, s) && Conserved(s) && Enabled(setup, s, m) && (m.Die? || m.GiveUp?) && m.k < |s.tracks|
    ensures Placed(Apply(setup, s, m)) && m.k < |Apply(setup, s, m).tracks|
    ensures Kept(Apply(setup, s, m), m.k) <==> Benign(s, m)
  {
    assert Kept(s, m.k) && TrackOk(setup, s, m.k);
    OthersUntouched(setup, s, m, m.k);
    if m.Die? {
      assert AttemptOk(s.tracks[m.k], MayAck(setup, s, m.k), m.c);
    }
  }

  lemma OwnKeptReplying(setup: Setup, s: System, m: Move)
    requires Sound(setup, s) && Enabled(setup, s, m) && (m.Save? || m.Skip?) && m.k < |s.tracks|
    ensures Placed(Apply(setup, s, m)) && m.k < |Apply(setup, s, m).tracks|
    ensures Kept(Apply(setup, s, m), m.k) <==> Benign(s, m)
  {
    OthersUntouched(setup, s, m, m.k);
    var s' := Apply(setup, s, m);
    assert s'.tracks[m.k].attempts[m.c] == Replying(if m.Save? then Term else Ack);
    if m.Save? && m.written {
      assert HasRow(s', m.k);
    }
  }

  /** From a conserved state, a move leads to a conserved one iff it is benign. */
  lemma ConservedIffBenign(setup: Setup, s: System, m: Move)
    requires Sound(setup, s) && Conserved(s) && Enabled(setup, s, m)
    ensures Sound(setup, Apply(setup, s, m))
    ensures Conserved(Apply(setup, s, m)) <==> Benign(s, m)
  {
    var s' := Apply(setup, s, m);
    MoveSound(setup, s, m);
    forall j | 0 <= j < |s'.tracks| && (m.Relay? || j != m.k) ensures Kept(s', j) {
      if j < |s.tracks| {
        OthersUntouched(setup, s, m, j);
        assert Kept(s, j);
      }
    }
    if !m.Relay? {
      OwnKept(setup, s, m);
    }
  }

  // ---------------------------------------------------------------------------------------------------------------
  // What the moves of a run tell
  // ---------------------------------------------------------------------------------------------------------------

  ghost predicate Decided(ms: seq<Move>, k: nat, c: nat) {
    Skip(k, c) in ms || (exists o :: Return(k, c, o) in ms) || (exists e :: NoMetadata(k, c, e) in ms)
  }

  ghost predicate Acks(ms: seq<Move>, k: nat, c: nat) {
    Return(k, c, Handled) in ms || Skip(k, c) in ms
  }

  ghost predicate Terms(ms: seq<Move>, k: nat, c: nat) {
    Save(k, c, true) in ms || Save(k, c, false) in ms
  }

  ghost predicate Ended(ms: seq<Move>, k: nat, c: nat) {
    Send(k, c, true) in ms || Send(k, c, false) in ms || Die(k, c) in ms
  }

  /** Why delivery c is dead-lettered, and with which number of attempts. */
  ghost predicate MayBury(ms: seq<Move>, k: nat, c: nat, attempts: nat, error: string) {
    || (Return(k, c, AppError(error)) in ms && attempts == c)
    || (Return(k, c, Retriable(error)) in ms && attempts == c == MaxDeliver)
    || (NoMetadata(k, c, error) in ms && attempts == 0)
  }

  ghost predicate Retried(ms: seq<Move>, k: nat, c: nat, delay: nat) {
    1 <= c < MaxDeliver && delay == Delay(c) && exists e :: Return(k, c, Retriable(e)) in ms
  }

  /** How far delivery c, which is in progress, has come. */
  ghost predicate AttemptTold(ms: seq<Move>, k: nat, c: nat, p: Progress) {
    && (p.Handling? <==> !Decided(ms, k, c))
    && (p == Replying(Ack) <==> Acks(ms, k, c))
    && (p == Replying(Term) <==> Terms(ms, k, c))
    && (p.Burying? ==> MayBury(ms, k, c, p.attempts, p.error))
    && (p.Replying? && p.reply.Nak? ==> Retried(ms, k, c, p.reply.delay))
  }

  /** A reply of delivery c that settles the message has arrived. */
  ghost predicate AnswerArrived(ms: seq<Move>, k: nat, c: nat) {
    Send(k, c, true) in ms && (Acks(ms, k, c) || Terms(ms, k, c))
  }

  ghost predicate Closed(ms: seq<Move>, k: nat) {
    GiveUp(k) in ms || exists c :: AnswerArrived(ms, k, c)
  }

  ghost predicate StatusTold(ms: seq<Move>, k: nat, status: Status) {
    && (status.Open? <==> !Closed(ms, k))
    && (status.Acked? ==> exists c :: AnswerArrived(ms, k, c) && Acks(ms, k, c))
    && (status.Terminated? ==> exists c :: AnswerArrived(ms, k, c) && Terms(ms, k, c))
    && (status.Exhausted? ==> GiveUp(k) in ms)
  }

  ghost predicate TrackTold(ms: seq<Move>, k: nat, t: Tracking) {
    && t.count == multiset(ms)[Deliver(k)]
    && StatusTold(ms, k, t.status)
    && (forall c :: c in t.attempts <==> 1 <= c <= t.count && !Ended(ms, k, c))
    && forall c | c in t.attempts :: AttemptTold(ms, k, c, t.attempts[c])
  }

  /** A call of the message's registered handler returned nil. */
  ghost predicate WasHandled(s: System, ms: seq<Move>, msg: nat) {
    exists k, c :: 0 <= k < |s.tracks| && s.tracks[k].msg == msg && Return(k, c, Handled) in ms
  }

  /** A dead-letter row was written for a message with this id. */
  ghost predicate WasSaved(s: System, ms: seq<Move>, id: Uuid)
    requires Placed(s)
  {
    exists k, c :: 0 <= k < |s.tracks| && MsgOf(s, k).msgId == id && Save(k, c, true) in ms
  }

  /** Moves that work on a delivery name one that was started. */
  ghost predicate Started(s: System, m: Move) {
    !m.Relay? ==> m.k < |s.tracks| && (m.Deliver? || m.GiveUp? || 1 <= m.c <= s.tracks[m.k].count)
  }

  /** A row was saved by a delivery that had its attempts and error to give. */
  ghost predicate RowTold(setup: Setup, s: System, ms: seq<Move>, r: FailedMessage)
    requires Placed(s)
  {
    exists k, c :: 0 <= k < |s.tracks| && RowOf(setup, s, ms, k, c, r)
  }

  ghost predicate RowOf(setup: Setup, s: System, ms: seq<Move>, k: nat, c: nat, r: FailedMessage)
    requires Placed(s) && k < |s.tracks|
  {
    && Save(k, c, true) in ms && MayBury(ms, k, c, r.attempts, r.lastError)
    && r == RowFor(setup, MsgOf(s, k), r.attempts, r.lastError)
  }

  /** Which messages were handled, how far each delivery has come, and which rows there are, is all in the moves. */
  ghost predicate Told(setup: Setup, s: System, ms: seq<Move>) {
    && Placed(s)
    && (forall m {:trigger Started(s, m)} | m in ms :: Started(s, m))
    && HandledTold(s, ms) && TracksTold(s, ms) && RowsTold(setup, s, ms)
  }

  ghost predicate HandledTold(s: System, ms: seq<Move>) {
    forall msg: nat :: msg in s.handled <==> WasHandled(s, ms, msg)
  }

  ghost predicate TracksTold(s: System, ms: seq<Move>) {
    forall k {:trigger TrackTold(ms, k, s.tracks[k])} | 0 <= k < |s.tracks| :: TrackTold(ms, k, s.tracks[k])
  }

  ghost predicate RowsTold(setup: Setup, s: System, ms: seq<Move>)
    requires Placed(s)
  {
    && (forall id: Uuid :: id in RowIds(s.dlq) <==> WasSaved(s, ms, id))
    && (forall r | r in s.dlq :: RowTold(setup, s, ms, r))
  }

  /** A move that works on delivery c of track k. */
  ghost predicate WorksOn(m: Move, k: nat, c: nat) {
    !m.Relay? && !m.Deliver? && !m.GiveUp? && m.k == k && m.c == c
  }

  /** Other moves tell nothing about a delivery. */
  lemma OtherMove(ms: seq<Move>, m: Move, k: nat, c: nat)
    requires !WorksOn(m, k, c)
    ensures Decided(ms + [m], k, c) <==> Decided(ms, k, c)
    ensures Acks(ms + [m], k, c) <==> Acks(ms, k, c)
    ensures Terms(ms + [m], k, c) <==> Terms(ms, k, c)
    ensures Ended(ms + [m], k, c) <==> Ended(ms, k, c)
    ensures AnswerArrived(ms + [m], k, c) <==> AnswerArrived(ms, k, c)
    ensures forall a, e :: MayBury(ms + [m], k, c, a, e) <==> MayBury(ms, k, c, a, e)
    ensures forall d :: Retried(ms + [m], k, c, d) <==> Retried(ms, k, c, d)
  {
    assert forall x :: x in ms + [m] <==> x in ms || x == m;
    assert (exists o :: Return(k, c, o) in ms + [m]) <==> (exists o :: Return(k, c, o) in ms);
    assert (exists e :: NoMetadata(k, c, e) in ms + [m]) <==> (exists e :: NoMetadata(k, c, e) in ms);
  }

  lemma OtherAttempt(ms: seq<Move>, m: Move, k: nat, c: nat, p: Progress)
    requires !WorksOn(m, k, c) && AttemptTold(ms, k, c, p)
    ensures AttemptTold(ms + [m], k, c, p)
  {
    OtherMove(ms, m, k, c);
  }

  lemma OtherTrack(ms: seq<Move>, m: Move, k: nat, t: Tracking)
    requires (m.Relay? || m.k != k) && TrackTold(ms, k, t)
    ensures TrackTold(ms + [m], k, t)
  {
    forall c: nat
      ensures AnswerArrived(ms + [m], k, c) <==> AnswerArrived(ms, k, c)
      ensures Acks(ms + [m], k, c) <==> Acks(ms, k, c)
      ensures Terms(ms + [m], k, c) <==> Terms(ms, k, c)
      ensures Ended(ms + [m], k, c) <==> Ended(ms, k, c)
    {
      OtherMove(ms, m, k, c);
    }
    forall c | c in t.attempts ensures AttemptTold(ms + [m], k, c, t.attempts[c]) {
      OtherAttempt(ms, m, k, c, t.attempts[c]);
    }
    assert StatusTold(ms + [m], k, t.status);
  }

  /** A track that was just added. */
  lemma NewTrack(s: System, ms: seq<Move>, m: Move, k: nat, t: Tracking)
    requires (forall x | x in ms :: Started(s, x)) && |s.tracks| <= k && m.Relay?
    requires t.count == 0 && t.status.Open? && t.attempts == map[]
    ensures TrackTold(ms + [m], k, t)
  {
    assert forall x | x in ms + [m] && !x.Relay? :: x in ms && x.k < |s.tracks|;
    assert Deliver(k) !in ms + [m] && !Closed(ms + [m], k);
  }

  /** A move that decides a delivery, saves its row, or neither. */
  lemma OwnAttempt(ms: seq<Move>, m: Move, k: nat, c: nat, p: Progress, p': Progress)
    requires WorksOn(m, k, c) && AttemptTold(ms, k, c, p) && 1 <= c <= MaxDeliver
    requires match m
             case Return(_, _, outcome) => p.Handling? && p' == AfterVerdict(Decide(c, outcome))
             case Skip(_, _) => p.Handling? && p' == Replying(Ack)
             case NoMetadata(_, _, error) => p.Handling? && p' == Burying(0, error)
             case Save(_, _, _) => p.Burying? && p' == Replying(Term)
             case _ => false
    ensures AttemptTold(ms + [m], k, c, p')
  {
    assert m in ms + [m] && forall x :: x in ms + [m] <==> x in ms || x == m;
    if m.Return? {
      ClampIsIdle(c);
      assert m == Return(k, c, m.outcome) && Decided(ms + [m], k, c);
    } else if m.NoMetadata? {
      assert Decided(ms + [m], k, c);
    } else if m.Save? {
      assert Decided(ms, k, c) ==> Decided(ms + [m], k, c);
    }
  }

  /** What a move does to the deliveries of its track. */
  lemma OwnMove(setup: Setup, s: System, m: Move)
    requires Enabled(setup, s, m) && !m.Relay? && m.k < |s.tracks|
    ensures m.k < |Apply(setup, s, m).tracks|
    ensures var t, t' := s.tracks[m.k], Apply(setup, s, m).tracks[m.k];
            && t'.count == (if m.Deliver? then t.count + 1 else t.count)
            && t'.attempts.Keys ==
                 (if m.Deliver? then t.attempts.Keys + {t.count + 1}
                  else if m.Send? || m.Die? then t.attempts.Keys - {m.c} else t.attempts.Keys)
            && (forall c | c in t.attempts && c in t'.attempts && (m.Deliver? ==> c <= t.count) && !WorksOn(m, m.k, c)
                  :: t'.attempts[c] == t.attempts[c])
            && (m.Deliver? ==> t'.attempts[t.count + 1] == Handling)
  {
    if !m.Deliver? && !m.GiveUp? {
      assert m.c in s.tracks[m.k].attempts;
    }
  }

  lemma OwnTrack(setup: Setup, s: System, ms: seq<Move>, m: Move)
    requires TracksOk(setup, s) && Told(setup, s, ms) && Enabled(setup, s, m) && !m.Relay? && m.k < |s.tracks|
    ensures m.k < |Apply(setup, s, m).tracks| && TrackTold(ms + [m], m.k, Apply(setup, s, m).tracks[m.k])
  {
    OwnMove(setup, s, m);
    var t, t' := s.tracks[m.k], Apply(setup, s, m).tracks[m.k];
    assert TrackTold(ms, m.k, t) && TrackOk(setup, s, m.k);
    forall x | x in ms ensures m.Deliver? ==> !WorksOn(x, m.k, t.count + 1) {
      assert Started(s, x);
    }
    OwnStatus(setup, s, ms, m);
    OwnProgress(ms, m, t, t');
    OwnAttempts(setup, s, ms, m);
  }

  lemma OwnAttempts(setup: Setup, s: System, ms: seq<Move>, m: Move)
    requires TracksOk(setup, s) && Enabled(setup, s, m) && !m.Relay? && m.k < |s.tracks|
    requires TrackTold(ms, m.k, s.tracks[m.k])
    requires m.Deliver? ==> forall x | x in ms :: !WorksOn(x, m.k, s.tracks[m.k].count + 1)
    ensures var t' := Apply(setup, s, m).tracks[m.k];
            forall c | c in t'.attempts :: AttemptTold(ms + [m], m.k, c, t'.attempts[c])
  {
    OwnMove(setup, s, m);
    var t, t' := s.tracks[m.k], Apply(setup, s, m).tracks[m.k];
    assert TrackOk(setup, s, m.k);
    forall c | c in t'.attempts ensures AttemptTold(ms + [m], m.k, c, t'.attempts[c]) {
      assert c in t.attempts ==> AttemptOk(t, MayAck(setup, s, m.k), c) && AttemptTold(ms, m.k, c, t.attempts[c]);
      if WorksOn(m, m.k, c) {
        OwnAttempt(ms, m, m.k, c, t.attempts[c], t'.attempts[c]);
      } else if m.Deliver? && c == t.count + 1 {
        NewAttempt(ms, m, m.k, c);
      } else {
        OtherAttempt(ms, m, m.k, c, t.attempts[c]);
      }
    }
  }

  /** A delivery that was just started: no move has named it yet. */
  lemma NewAttempt(ms: seq<Move>, m: Move, k: nat, c: nat)
    requires (forall x | x in ms :: !WorksOn(x, k, c)) && m.Deliver?
    ensures AttemptTold(ms + [m], k, c, Handling) && !Ended(ms + [m], k, c)
  {
    forall x | x in ms + [m] ensures !WorksOn(x, k, c) {
      assert x in ms || x == m;
    }
  }

  lemma OwnProgress(ms: seq<Move>, m: Move, t: Tracking, t': Tracking)
    requires !m.Relay? && TrackTold(ms, m.k, t)
    requires t'.count == if m.Deliver? then t.count + 1 else t.count
    requires t'.attempts.Keys ==
               if m.Deliver? then t.attempts.Keys + {t.count + 1}
               else if m.Send? || m.Die? then t.attempts.Keys - {m.c} else t.attempts.Keys
    requires m.Deliver? ==> forall x | x in ms :: !WorksOn(x, m.k, t.count + 1)
    ensures t'.count == multiset(ms + [m])[Deliver(m.k)]
    ensures forall c :: c in t'.attempts <==> 1 <= c <= t'.count && !Ended(ms + [m], m.k, c)
  {
    forall c: nat ensures c in t'.attempts <==> 1 <= c <= t'.count && !Ended(ms + [m], m.k, c) {
      assert c in t'.attempts <==> c in t'.attempts.Keys;
      assert c in t.attempts <==> c in t.attempts.Keys;
      if WorksOn(m, m.k, c) {
        OwnEnded(ms, m, m.k, c);
      } else {
        OtherMove(ms, m, m.k, c);
        if m.Deliver? && c == t.count + 1 {
          NewAttempt(ms, m, m.k, c);
        }
      }
    }
  }

  lemma OwnEnded(ms: seq<Move>, m: Move, k: nat, c: nat)
    requires WorksOn(m, k, c)
    ensures Ended(ms + [m], k, c) <==> Ended(ms, k, c) || m.Send? || m.Die?
  {
    assert m in ms + [m] && forall x :: x in ms + [m] <==> x in ms || x == m;
  }

  lemma OwnStatus(setup: Setup, s: System, ms: seq<Move>, m: Move)
    requires Enabled(setup, s, m) && !m.Relay? && m.k < |s.tracks| && TrackTold(ms, m.k, s.tracks[m.k])
    ensures m.k < |Apply(setup, s, m).tracks|
    ensures StatusTold(ms + [m], m.k, Apply(setup, s, m).tracks[m.k].status)
  {
    var k, t := m.k, s.tracks[m.k];
    if !m.Deliver? && !m.GiveUp? {
      assert m.c in t.attempts;
    }
    forall c: nat
      ensures AnswerArrived(ms + [m], k, c) <==>
                AnswerArrived(ms, k, c) || (m == Send(k, c, true) && (Acks(ms, k, c) || Terms(ms, k, c)))
      ensures AnswerArrived(ms + [m], k, c) ==> (Acks(ms + [m], k, c) <==> Acks(ms, k, c))
      ensures AnswerArrived(ms + [m], k, c) ==> (Terms(ms + [m], k, c) <==> Terms(ms, k, c))
    {
      if WorksOn(m, k, c) {
        OwnAnswer(ms, m, k, c);
      } else {
        OtherMove(ms, m, k, c);
      }
    }
    assert GiveUp(k) in ms + [m] <==> GiveUp(k) in ms || m == GiveUp(k);
    if m.Send? {
      SentStatus(ms, k, m.c, m.arrives, t.status, t.attempts[m.c]);
    } else {
      assert Apply(setup, s, m).tracks[k].status == if m.GiveUp? then Exhausted else t.status;
    }
  }

  lemma SentStatus(ms: seq<Move>, k: nat, c: nat, arrives: bool, status: Status, p: Progress)
    requires StatusTold(ms, k, status) && AttemptTold(ms, k, c, p) && p.Replying?
    requires var ms' := ms + [Send(k, c, arrives)];
             && (forall c' :: AnswerArrived(ms', k, c') <==>
                   AnswerArrived(ms, k, c') || (c' == c && arrives && (Acks(ms, k, c) || Terms(ms, k, c))))
             && (forall c' | AnswerArrived(ms', k, c') ::
                   (Acks(ms', k, c') <==> Acks(ms, k, c')) && (Terms(ms', k, c') <==> Terms(ms, k, c')))
             && (GiveUp(k) in ms' <==> GiveUp(k) in ms)
    ensures StatusTold(ms + [Send(k, c, arrives)], k, if arrives then Receive(status, p.reply) else status)
  {
    var ms' := ms + [Send(k, c, arrives)];
    assert arrives && (Acks(ms, k, c) || Terms(ms, k, c)) ==> AnswerArrived(ms', k, c);
  }

  lemma OwnAnswer(ms: seq<Move>, m: Move, k: nat, c: nat)
    requires WorksOn(m, k, c) && !Ended(ms, k, c)
    ensures AnswerArrived(ms + [m], k, c) <==> m == Send(k, c, true) && (Acks(ms, k, c) || Terms(ms, k, c))
    ensures AnswerArrived(ms + [m], k, c) ==> (Acks(ms + [m], k, c) <==> Acks(ms, k, c))
    ensures AnswerArrived(ms + [m], k, c) ==> (Terms(ms + [m], k, c) <==> Terms(ms, k, c))
  {
    assert m in ms + [m] && forall x :: x in ms + [m] <==> x in ms || x == m;
  }

  lemma StartedMore(setup: Setup, s: System, ms: seq<Move>, m: Move)
    requires Enabled(setup, s, m) && TracksOk(setup, s) && (forall x | x in ms :: Started(s, x))
    requires Grows(s, Apply(setup, s, m))
    ensures Started(s, m)
    ensures forall x | x in ms + [m] :: Started(Apply(setup, s, m), x)
  {
    if !m.Relay? {
      OwnMove(setup, s, m);
      assert TrackOk(setup, s, m.k);
      if !m.Deliver? && !m.GiveUp? {
        assert AttemptOk(s.tracks[m.k], MayAck(setup, s, m.k), m.c);
      }
    }
  }

  lemma HandledMore(s: System, s': System, ms: seq<Move>, m: Move, msg: nat)
    requires (forall x | x in ms :: Started(s, x)) && Started(s, m) && Grows(s, s')
    requires msg in s.handled <==> WasHandled(s, ms, msg)
    requires s'.handled == s.handled + if m.Return? && m.outcome.Handled? then {s.tracks[m.k].msg} else {}
    ensures msg in s'.handled <==> WasHandled(s', ms + [m], msg)
  {
    if WasHandled(s, ms, msg) {
      var k, c :| 0 <= k < |s.tracks| && s.tracks[k].msg == msg && Return(k, c, Handled) in ms;
      assert Return(k, c, Handled) in ms + [m];
    }
    if m.Return? && m.outcome.Handled? {
      assert m == Return(m.k, m.c, Handled) && m in ms + [m] && s'.tracks[m.k].msg == s.tracks[m.k].msg;
    }
    if WasHandled(s', ms + [m], msg) {
      var k, c :| 0 <= k < |s'.tracks| && s'.tracks[k].msg == msg && Return(k, c, Handled) in ms + [m];
      assert Return(k, c, Handled) in ms ==> Started(s, Return(k, c, Handled));
    }
  }

  lemma SavedMore(s: System, s': System, ms: seq<Move>, m: Move, id: Uuid)
    requires Placed(s) && Placed(s') && Grows(s, s')
    requires (forall x | x in ms :: Started(s, x)) && Started(s, m)
    requires id in RowIds(s.dlq) <==> WasSaved(s, ms, id)
    requires RowIds(s'.dlq) == RowIds(s.dlq) + if m.Save? && m.written then {MsgOf(s, m.k).msgId} else {}
    ensures id in RowIds(s'.dlq) <==> WasSaved(s', ms + [m], id)
  {
    if WasSaved(s, ms, id) {
      var k, c :| 0 <= k < |s.tracks| && MsgOf(s, k).msgId == id && Save(k, c, true) in ms;
      assert Save(k, c, true) in ms + [m] && MsgOf(s', k).msgId == id;
    }
    if m.Save? && m.written {
      assert m == Save(m.k, m.c, true) && m in ms + [m] && MsgOf(s', m.k) == MsgOf(s, m.k);
    }
    if WasSaved(s', ms + [m], id) {
      var k, c :| 0 <= k < |s'.tracks| && MsgOf(s', k).msgId == id && Save(k, c, true) in ms + [m];
      assert Save(k, c, true) in ms ==> Started(s, Save(k, c, true)) && MsgOf(s', k) == MsgOf(s, k);
    }
  }

  lemma SavedIdsMore(setup: Setup, s: System, m: Move)
    requires Sound(setup, s) && Enabled(setup, s, m)
    ensures RowIds(Apply(setup, s, m).dlq) ==
              RowIds(s.dlq) + if m.Save? && m.written then {MsgOf(s, m.k).msgId} else {}
  {
    if m.Save? {
      var p := s.tracks[m.k].attempts[m.c];
      FirstOrCreateIds(s.dlq, RowFor(setup, MsgOf(s, m.k), p.attempts, p.error));
    }
  }

  lemma RowsMore(setup: Setup, s: System, ms: seq<Move>, m: Move, r: FailedMessage)
    requires Placed(s) && Enabled(setup, s, m) && Grows(s, Apply(setup, s, m)) && Placed(Apply(setup, s, m))
    requires (forall k | 0 <= k < |s.tracks| :: TrackTold(ms, k, s.tracks[k]))
    requires (r in s.dlq ==> RowTold(setup, s, ms, r)) && r in Apply(setup, s, m).dlq
    ensures RowTold(setup, Apply(setup, s, m), ms + [m], r)
  {
    var s' := Apply(setup, s, m);
    assert forall x :: x in ms + [m] <==> x in ms || x == m;
    if r in s.dlq {
      var k, c :| 0 <= k < |s.tracks| && RowOf(setup, s, ms, k, c, r);
      assert MsgOf(s', k) == MsgOf(s, k) && RowOf(setup, s', ms + [m], k, c, r);
    } else {
      assert m == Save(m.k, m.c, true);
      assert TrackTold(ms, m.k, s.tracks[m.k]);
      assert AttemptTold(ms, m.k, m.c, s.tracks[m.k].attempts[m.c]);
      assert MsgOf(s', m.k) == MsgOf(s, m.k) && RowOf(setup, s', ms + [m], m.k, m.c, r);
    }
  }

  lemma TracksMore(setup: Setup, s: System, ms: seq<Move>, m: Move, k: nat)
    requires Sound(setup, s) && Told(setup, s, ms) && Enabled(setup, s, m) && k < |Apply(setup, s, m).tracks|
    ensures TrackTold(ms + [m], k, Apply(setup, s, m).tracks[k])
  {
    if k >= |s.tracks| {
      NewTrack(s, ms, m, k, Apply(setup, s, m).tracks[k]);
    } else {
      OthersUntouched(setup, s, m, k);
      if m.Relay? || k != m.k {
        OtherTrack(ms, m, k, s.tracks[k]);
      } else {
        OwnTrack(setup, s, ms, m);
      }
    }
  }

  lemma MoveTold(setup: Setup, s: System, ms: seq<Move>, m: Move)
    requires Sound(setup, s) && Told(setup, s, ms) && Enabled(setup, s, m)
    ensures Told(setup, Apply(setup, s, m), ms + [m])
  {
    MoveSound(setup, s, m);
    StartedMore(setup, s, ms, m);
    MoveHandledTold(setup, s, ms, m);
    MoveTracksTold(setup, s, ms, m);
    MoveRowsTold(setup, s, ms, m);
  }

  lemma MoveHandledTold(setup: Setup, s: System, ms: seq<Move>, m: Move)
    requires Enabled(setup, s, m) && (forall x | x in ms :: Started(s, x)) && Started(s, m) && HandledTold(s, ms)
    requires Grows(s, Apply(setup, s, m))
    ensures HandledTold(Apply(setup, s, m), ms + [m])
  {
    var s' := Apply(setup, s, m);
    forall msg: nat ensures msg in s'.handled <==> WasHandled(s', ms + [m], msg) {
      HandledMore(s, s', ms, m, msg);
    }
  }

  lemma MoveTracksTold(setup: Setup, s: System, ms: seq<Move>, m: Move)
    requires Sound(setup, s) && Told(setup, s, ms) && Enabled(setup, s, m)
    ensures TracksTold(Apply(setup, s, m), ms + [m])
  {
    forall k | 0 <= k < |Apply(setup, s, m).tracks| ensures TrackTold(ms + [m], k, Apply(setup, s, m).tracks[k]) {
      TracksMore(setup, s, ms, m, k);
    }
  }

  lemma MoveRowsTold(setup: Setup, s: System, ms: seq<Move>, m: Move)
    requires Sound(setup, s) && Told(setup, s, ms) && Enabled(setup, s, m) && Started(s, m)
    requires Grows(s, Apply(setup, s, m)) && Placed(Apply(setup, s, m))
    ensures RowsTold(setup, Apply(setup, s, m), ms + [m])
  {
    var s' := Apply(setup, s, m);
    SavedIdsMore(setup, s, m);
    forall id: Uuid ensures id in RowIds(s'.dlq) <==> WasSaved(s', ms + [m], id) {
      SavedMore(s, s', ms, m, id);
    }
    forall r | r in s'.dlq ensures RowTold(setup, s', ms + [m], r) {
      RowsMore(setup, s, ms, m, r);
    }
  }

  lemma NextTold(setup: Setup, s: System, ms: seq<Move>, m: Move) returns (next: System)
    requires Sound(setup, s) && Told(setup, s, ms) && Enabled(setup, s, m)
    ensures next == Apply(setup, s, m) && Sound(setup, next) && Told(setup, next, ms + [m])
  {
    next := Apply(setup, s, m);
    MoveSound(setup, s, m);
    MoveTold(setup, s, ms, m);
  }

  lemma {:induction false} RunTold(setup: Setup, s: System, before: seq<Move>, ms: seq<Move>)
    requires Sound(setup, s) && Told(setup, s, before) && Runs(setup, s, ms)
    ensures Told(setup, After(setup, s, ms), before + ms)
    decreases ms
  {
    if ms == [] {
      assert before + ms == before;
    } else {
      var next := NextTold(setup, s, before, ms[0]);
      RunTold(setup, next, before + [ms[0]], ms[1..]);
      assert before + [ms[0]] + ms[1..] == before + ms;
    }
  }

  /**
   The state of every reachable system, read off the moves that led to it. A message is handled iff a handler called
   for it returned nil; a delivery is in progress iff it was started and neither answered nor died, and it is where its
   handler's outcome, its save and the schedule have brought it; the broker is done with a track iff it gave up or a
   settling reply arrived; and the dead-letter rows are those that were saved, each for a reason.
   */
  lemma HistoryTells(setup: Setup, ms: seq<Move>)
    requires Runs(setup, Start, ms)
    ensures Told(setup, After(setup, Start, ms), ms)
  {
    StartSound(setup);
    RunTold(setup, Start, [], ms);
    assert [] + ms == ms;
  }

  /** Losses, in terms of the moves: the broker is done with a message that no move has handled or saved. */
  lemma LostInMoves(setup: Setup, ms: seq<Move>, k: nat)
    requires Runs(setup, Start, ms) && k < |After(setup, Start, ms).tracks|
    ensures var s := After(setup, Start, ms);
            && Placed(s)
            && (Lost(s, k) <==>
                  Closed(ms, k) && !WasHandled(s, ms, s.tracks[k].msg) && !WasSaved(s, ms, MsgOf(s, k).msgId))
  {
    HistoryTells(setup, ms);
    SettledInMoves(setup, After(setup, Start, ms), ms, k);
  }

  lemma SettledInMoves(setup: Setup, s: System, ms: seq<Move>, k: nat)
    requires Told(setup, s, ms) && k < |s.tracks|
    ensures Settled(s, k) <==> WasHandled(s, ms, s.tracks[k].msg) || WasSaved(s, ms, MsgOf(s, k).msgId)
    ensures s.tracks[k].msg in s.handled <==> WasHandled(s, ms, s.tracks[k].msg)
    ensures !s.tracks[k].status.Open? <==> Closed(ms, k)
  {
    assert TrackTold(ms, k, s.tracks[k]);
  }

  // ---------------------------------------------------------------------------------------------------------------
  // Whole runs
  // ---------------------------------------------------------------------------------------------------------------

  predicate NeverLost(setup: Setup, s: System, ms: seq<Move>)
    requires Runs(setup, s, ms)
    decreases ms
  {
    && Placed(s) && NothingLost(s)
    && (ms != [] ==> NeverLost(setup, Apply(setup, s, ms[0]), ms[1..]))
  }

  predicate NoneLoses(setup: Setup, s: System, ms: seq<Move>)
    requires Runs(setup, s, ms)
    decreases ms
  {
    ms != [] ==> !Loses(setup, s, ms[0]) && NoneLoses(setup, Apply(setup, s, ms[0]), ms[1..])
  }

  /** Over whole runs: nothing is ever lost iff none of the moves loses a message. */
  lemma {:induction false} RunLostIff(setup: Setup, s: System, ms: seq<Move>)
    requires Sound(setup, s) && NothingLost(s) && Runs(setup, s, ms)
    ensures NeverLost(setup, s, ms) <==> NoneLoses(setup, s, ms)
    decreases ms
  {
    if ms != [] {
      LostIff(setup, s, ms[0]);
      var s' := Apply(setup, s, ms[0]);
      if NothingLost(s') {
        RunLostIff(setup, s', ms[1..]);
      }
    }
  }

  predicate AllBenign(setup: Setup, s: System, ms: seq<Move>)
    requires Runs(setup, s, ms)
    decreases ms
  {
    ms != [] ==> Benign(s, ms[0]) && AllBenign(setup, Apply(setup, s, ms[0]), ms[1..])
  }

  lemma {:induction false} RunConserved(setup: Setup, s: System, ms: seq<Move>)
    requires Sound(setup, s) && Conserved(s) && Runs(setup, s, ms) && AllBenign(setup, s, ms)
    ensures Sound(setup, After(setup, s, ms)) && Conserved(After(setup, s, ms))
    decreases ms
  {
    if ms != [] {
      ConservedIffBenign(setup, s, ms[0]);
      RunConserved(setup, Apply(setup, s, ms[0]), ms[1..]);
    }
  }

  /** The outbox part of a run is a run of the relays. */
  lemma {:induction false} OutboxRun(setup: Setup, s: System, ms: seq<Move>) returns (ls: seq<RelayProtocol.Step>)
    requires Runs(setup, s, ms)
    ensures RelayProtocol.Runs(setup.cfg, s.outbox, ls)
    ensures RelayProtocol.After(setup.cfg, s.outbox, ls) == After(setup, s, ms).outbox
    decreases ms
  {
    ls := [];
    if ms != [] {
      ls := OutboxRun(setup, Apply(setup, s, ms[0]), ms[1..]);
      if ms[0].Relay? {
        var rest := ls;
        ls := [ms[0].step] + rest;
        assert ls[1..] == rest;
      }
    }
  }

  lemma StartSound(setup: Setup)
    ensures Sound(setup, Start) && NothingLost(Start) && Conserved(Start)
  {
    assert Pairs([]) == [];
  }

  /** What became of a message for one of its consumers, as far as the broker is concerned. */
  predicate Accounted(s: System, k: nat)
    requires k < |s.tracks| && s.tracks[k].msg < |s.outbox.stream|
  {
    match s.tracks[k].status
    case Open => s.tracks[k].count < MaxDeliver || Settled(s, k) || LastUndecided(s.tracks[k])
    case _ => Settled(s, k)
  }

  /**
   End to end: in every state of a benign run, through crashes, lost replies and redeliveries, a committed row is in
   exactly one of pending, published and quarantined, a published row is on the stream, and every message on the
   stream, for each consumer whose registered subject covers it, has deliveries left, or its eleventh is being worked
   on, or it is settled: a call of its handler returned nil in some move of the run, or its dead-letter row was saved in
   one. A message that was acked, terminated or given up is settled, and if it has a handler an ack means that it was
   handled.
   */
  lemma Conservation(setup: Setup, ms: seq<Move>)
    requires Runs(setup, Start, ms) && AllBenign(setup, Start, ms)
    ensures var s := After(setup, Start, ms);
            && (forall i | i in s.outbox.table ::
                  var e := s.outbox.table[i];
                  && RelayProtocol.ExactlyOne(e.Pending(), e.publishedAt.Some?, e.failedAt.Some?)
                  && (e.publishedAt.Some? ==> e.WellFormed() && Wire(setup.cfg, e) in s.outbox.stream))
            && Placed(s) && Pairs(s.tracks) == Deliverable(setup, s.outbox.stream)
            && forall k | 0 <= k < |s.tracks| :: Accounted(s, k) && SettlingTold(setup, s, ms, k)
  {
    StartSound(setup);
    RunConserved(setup, Start, ms);
    var s := After(setup, Start, ms);
    var ls := OutboxRun(setup, Start, ms);
    RelayProtocol.AtLeastOnce(setup.cfg, ls);
    HistoryTells(setup, ms);
    forall k | 0 <= k < |s.tracks| ensures Accounted(s, k) && SettlingTold(setup, s, ms, k) {
      assert Kept(s, k) && TrackOk(setup, s, k);
      SettledInMoves(setup, s, ms, k);
    }
  }

  /** A message is settled by a move, and acked only after a move that handled it, if it has a handler. */
  ghost predicate SettlingTold(setup: Setup, s: System, ms: seq<Move>, k: nat)
    requires Placed(s) && k < |s.tracks|
  {
    && (Settled(s, k) <==> WasHandled(s, ms, s.tracks[k].msg) || WasSaved(s, ms, MsgOf(s, k).msgId))
    && (s.tracks[k].status.Acked? && HasHandler(setup, s, k) ==> WasHandled(s, ms, s.tracks[k].msg))
    && (s.tracks[k].status.Open? && s.tracks[k].count < MaxDeliver ==> Enabled(setup, s, Deliver(k)))
  }

  /**
   What is not settled can still be settled: a kept message has a continuation, of moves of its own consumer alone, that
   handles it, or if it has no handler or is about to be dead-lettered, gives it its row.
   */
  lemma CanSettle(setup: Setup, s: System, k: nat) returns (ms: seq<Move>)
    requires Sound(setup, s) && k < |s.tracks| && Kept(s, k)
    ensures forall m | m in ms :: !m.Relay? && m.k == k
    ensures Runs(setup, s, ms) && AllBenign(setup, s, ms)
    ensures var s' := After(setup, s, ms); k < |s'.tracks| && Placed(s') && Settled(s', k)
  {
    var t := s.tracks[k];
    assert TrackOk(setup, s, k);
    if Settled(s, k) {
      ms := [];
    } else if t.count == MaxDeliver {
      ms := Finishing(setup, s, k, MaxDeliver);
    } else {
      var m := Deliver(k);
      MoveSound(setup, s, m);
      var rest := Finishing(setup, Apply(setup, s, m), k, t.count + 1);
      ms := [m] + rest;
      assert ms[1..] == rest;
    }
  }

  lemma Finishing(setup: Setup, s: System, k: nat, c: nat) returns (ms: seq<Move>)
    requires Sound(setup, s) && InProgress(s, k, c) && !s.tracks[k].attempts[c].Replying?
    ensures forall m | m in ms :: !m.Relay? && m.k == k
    ensures Runs(setup, s, ms) && AllBenign(setup, s, ms)
    ensures var s' := After(setup, s, ms); k < |s'.tracks| && Placed(s') && Settled(s', k)
  {
    assert TrackOk(setup, s, k) && AttemptOk(s.tracks[k], MayAck(setup, s, k), c);
    if s.tracks[k].attempts[c].Burying? {
      ms := [Save(k, c, true)];
      Saving(setup, s, k, c);
    } else if HasHandler(setup, s, k) {
      ms := [Return(k, c, Handled)];
      assert Runs(setup, s, ms);
    } else {
      var m := NoMetadata(k, c, "");
      MoveSound(setup, s, m);
      Saving(setup, Apply(setup, s, m), k, c);
      ms := [m] + [Save(k, c, true)];
      assert ms[1..] == [Save(k, c, true)];
    }
  }

  lemma Saving(setup: Setup, s: System, k: nat, c: nat)
    requires Sound(setup, s) && InProgress(s, k, c) && s.tracks[k].attempts[c].Burying?
    ensures var ms := [Save(k, c, true)];
            && Runs(setup, s, ms) && AllBenign(setup, s, ms)
            && var s' := After(setup, s, ms); k < |s'.tracks| && Placed(s') && Settled(s', k)
  {
    var m, ms := Save(k, c, true), [Save(k, c, true)];
    MoveSound(setup, s, m);
    SavedIdsMore(setup, s, m);
    assert ms[1..] == [] && After(setup, s, ms) == Apply(setup, s, m);
  }

  /** A message to which a Term was sent has its row. */
  predicate RowWritten(s: System, k: nat)
    requires k < |s.tracks| && s.tracks[k].msg < |s.outbox.stream|
  {
    var t := s.tracks[k];
    t.status.Terminated? || (exists c | c in t.attempts :: t.attempts[c] == Replying(Term)) ==> HasRow(s, k)
  }

  predicate RowsWritten(s: System)
    requires Placed(s)
  {
    forall k | 0 <= k < |s.tracks| :: RowWritten(s, k)
  }

  lemma MoveWrites(setup: Setup, s: System, m: Move)
    requires Sound(setup, s) && RowsWritten(s) && Enabled(setup, s, m) && (m.Save? ==> m.written)
    ensures Sound(setup, Apply(setup, s, m)) && RowsWritten(Apply(setup, s, m))
  {
    var s' := Apply(setup, s, m);
    MoveSound(setup, s, m);
    forall k | 0 <= k < |s'.tracks| ensures RowWritten(s', k) {
      if k < |s.tracks| {
        assert RowWritten(s, k);
        OthersUntouched(setup, s, m, k);
        if !m.Relay? && k == m.k {
          OwnRowWritten(setup, s, m);
        }
      }
    }
  }

  lemma OwnRowWritten(setup: Setup, s: System, m: Move)
    requires Enabled(setup, s, m) && (m.Save? ==> m.written) && !m.Relay? && m.k < |s.tracks|
    requires RowWritten(s, m.k) && MsgOf(s, m.k).envelope.id == MsgOf(s, m.k).msgId
    ensures Placed(Apply(setup, s, m)) && m.k < |Apply(setup, s, m).tracks| && RowWritten(Apply(setup, s, m), m.k)
  {
    var s' := Apply(setup, s, m);
    assert Placed(s') && s.dlq <= s'.dlq;
    assert HasRow(s, m.k) ==> HasRow(s', m.k);
  }

  lemma {:induction false} RunWrites(setup: Setup, s: System, ms: seq<Move>)
    requires Sound(setup, s) && RowsWritten(s) && Runs(setup, s, ms)
    requires forall m | m in ms && m.Save? :: m.written
    ensures Sound(setup, After(setup, s, ms)) && RowsWritten(After(setup, s, ms))
    decreases ms
  {
    if ms != [] {
      assert ms[0] in ms && forall m | m in ms[1..] :: m in ms;
      MoveWrites(setup, s, ms[0]);
      RunWrites(setup, Apply(setup, s, ms[0]), ms[1..]);
    }
  }

  /** If all dead-letter writes succeed, a terminated message has its row, even if another delivery was handled. */
  lemma TerminatedHasRow(setup: Setup, ms: seq<Move>, k: nat)
    requires Runs(setup, Start, ms) && forall m | m in ms && m.Save? :: m.written
    requires k < |After(setup, Start, ms).tracks| && After(setup, Start, ms).tracks[k].status.Terminated?
    ensures var s := After(setup, Start, ms); s.tracks[k].msg < |s.outbox.stream| && HasRow(s, k)
  {
    StartSound(setup);
    RunWrites(setup, Start, ms);
    assert RowWritten(After(setup, Start, ms), k);
  }

  lemma {:induction false} RunGrows(setup: Setup, s: System, ms: seq<Move>)
    requires Sound(setup, s) && Runs(setup, s, ms)
    ensures Sound(setup, After(setup, s, ms))
    ensures s.dlq <= After(setup, s, ms).dlq
    decreases ms
  {
    if ms != [] {
      MoveSound(setup, s, ms[0]);
      RunGrows(setup, Apply(setup, s, ms[0]), ms[1..]);
    }
  }

  /** The row holds what was committed: the message id, the subject without prefix, the version and the payload. */
  predicate Buries(r: FailedMessage, e: Event) {
    && r.id == e.messageId && r.subject == e.subject && r.version == e.version
    && e.payload.Json? && r.payload == if e.payload.text == "" then "null" else e.payload.text
  }

  /** In every reachable state a dead-letter row buries a committed row of the outbox. */
  lemma DeadLettersAreCommitted(setup: Setup, ms: seq<Move>, r: FailedMessage)
    requires Runs(setup, Start, ms) && r in After(setup, Start, ms).dlq
    ensures var s := After(setup, Start, ms); exists i :: i in s.outbox.table && Buries(r, s.outbox.table[i])
  {
    StartSound(setup);
    RunGrows(setup, Start, ms);
    var s := After(setup, Start, ms);
    assert Sourced(setup, s, r);
    var k :| 0 <= k < |s.outbox.stream| && r == RowFor(setup, s.outbox.stream[k], r.attempts, r.lastError);
    var e := s.outbox.table[s.outbox.origin[k]];
    QueueRouting.TrimWire(setup.cfg.prefix, e.subject);
    assert Buries(r, e);
  }

  /**
   Dead-letter idempotence, with no assumption at all: once a message has its row, whatever redeliveries, crashes
   between a save and its Term and later saves follow, that row is still there, unchanged, and is the only one.
   */
  lemma FirstRowStays(setup: Setup, ms: seq<Move>, more: seq<Move>, r: FailedMessage)
    requires Runs(setup, Start, ms) && Runs(setup, After(setup, Start, ms), more)
    requires r in After(setup, Start, ms).dlq
    ensures var rows := After(setup, After(setup, Start, ms), more).dlq;
            r in rows && forall q | q in rows && q.id == r.id :: q == r
  {
    StartSound(setup);
    RunGrows(setup, Start, ms);
    var s := After(setup, Start, ms);
    RunGrows(setup, s, more);
    OnlyRow(After(setup, s, more).dlq, r);
  }
}

/**
 The queue subscriber: what it does with one delivery, the retry schedule, and the dead-letter table. JetStream counts
 deliveries of a message from 1.
 */
module QueueConsumer {
  import opened Wrappers
  import opened Strings
  import opened Subjects
  import opened MessagingRouter

  type Uuid = nat

  const MaxDeliver: nat := 11

  /** Seconds to wait before each retry. */
  const BackoffSchedule: seq<nat> := [5, 60, 300, 1800, 7200, 21600, 43200, 86400, 172800, 259200]

  datatype Reply = Ack | Term | Nak(delay: nat)

  /** Either the delivery is answered at once, or its message is first written to the dead-letter table. */
  datatype Verdict = Answer(reply: Reply) | Bury(attempts: nat, error: string)

  function Min(a: int, b: int): int {
    if a < b then a else b
  }

  function Decide(count: nat, outcome: Outcome): Verdict
    requires 1 <= count
  {
    match outcome
    case Handled => Answer(Ack)
    case AppError(message) => Bury(count, message)
    case Retriable(message) =>
      if count >= MaxDeliver then Bury(count, message)
      else Answer(Nak(BackoffSchedule[Min(count - 1, |BackoffSchedule| - 1)]))
  }

  // ---------------------------------------------------------------------------------------------------------------
  // The dead-letter table
  // ---------------------------------------------------------------------------------------------------------------

  /** An envelope id: the text of a UUID, or some other text. */
  datatype EnvelopeId = Parsed(id: Uuid) | Unparseable(text: string)

  datatype Envelope = Envelope(id: EnvelopeId, version: string, data: string)

  datatype FailedMessage = FailedMessage(
    id: Uuid, subject: string, version: string, payload: string, attempts: nat, lastError: string)

  function RowIds(rows: seq<FailedMessage>): set<Uuid> {
    set r | r in rows :: r.id
  }

  /** SELECT by id, else INSERT: a row that is there is left as it is. */
  function FirstOrCreate(rows: seq<FailedMessage>, m: FailedMessage): (rows': seq<FailedMessage>)
    ensures rows <= rows'
    ensures m.id in RowIds(rows')
    ensures m.id in RowIds(rows) ==> rows' == rows
  {
    if m.id in RowIds(rows) then rows else rows + [m]
  }

  predicate UniqueIds(rows: seq<FailedMessage>) {
    forall j, k | 0 <= j < k < |rows| :: rows[j].id != rows[k].id
  }

  /** The row of a failed task; an id that is no UUID is replaced by a fresh one, an absent payload by JSON null. */
  function DeadLetterRow(e: Envelope, subject: string, attempts: nat, error: string, minted: Uuid): FailedMessage {
    FailedMessage(
      if e.id.Parsed? then e.id.id else minted,
      subject, e.version, if e.data == "" then "null" else e.data, attempts, error)
  }

  function SaveAll(rows: seq<FailedMessage>, ms: seq<FailedMessage>): (rows': seq<FailedMessage>)
    ensures rows <= rows'
    decreases ms
  {
    if ms == [] then rows else SaveAll(FirstOrCreate(rows, ms[0]), ms[1..])
  }

  lemma FirstOrCreateIds(rows: seq<FailedMessage>, m: FailedMessage)
    ensures RowIds(FirstOrCreate(rows, m)) == RowIds(rows) + {m.id}
    ensures UniqueIds(rows) ==> UniqueIds(FirstOrCreate(rows, m))
  {
    if m.id !in RowIds(rows) {
      assert FirstOrCreate(rows, m) == rows + [m];
    }
  }

  lemma FirstId(ms: seq<FailedMessage>)
    requires ms != []
    ensures RowIds(ms) == {ms[0].id} + RowIds(ms[1..])
  {
    assert ms == [ms[0]] + ms[1..];
  }

  lemma {:induction false} SavedIds(rows: seq<FailedMessage>, ms: seq<FailedMessage>)
    ensures RowIds(SaveAll(rows, ms)) == RowIds(rows) + RowIds(ms)
    ensures UniqueIds(rows) ==> UniqueIds(SaveAll(rows, ms))
    decreases ms
  {
    if ms != [] {
      FirstOrCreateIds(rows, ms[0]);
      SavedIds(FirstOrCreate(rows, ms[0]), ms[1..]);
      FirstId(ms);
    }
  }

  /**
   However often messages are dead-lettered, the first write stays: over any sequence of saves there is one row per id,
   earlier rows are untouched, and the row of a new id is the one that was saved first under it.
   */
  lemma SaveIsIdempotent(rows: seq<FailedMessage>, ms: seq<FailedMessage>, k: nat)
    requires UniqueIds(rows)
    requires k < |ms| && ms[k].id !in RowIds(rows) && ms[k].id !in RowIds(ms[..k])
    ensures UniqueIds(SaveAll(rows, ms)) && rows <= SaveAll(rows, ms)
    ensures ms[k] in SaveAll(rows, ms)
    ensures forall r | r in SaveAll(rows, ms) && r.id == ms[k].id :: r == ms[k]
  {
    SavedIds(rows, ms);
    FirstSaved(rows, ms, k);
    OnlyRow(SaveAll(rows, ms), ms[k]);
  }

  lemma {:induction false} FirstSaved(rows: seq<FailedMessage>, ms: seq<FailedMessage>, k: nat)
    requires k < |ms| && ms[k].id !in RowIds(rows) && ms[k].id !in RowIds(ms[..k])
    ensures ms[k] in SaveAll(rows, ms)
    decreases ms
  {
    var next := FirstOrCreate(rows, ms[0]);
    FirstOrCreateIds(rows, ms[0]);
    if k == 0 {
      assert ms[0] in next;
    } else {
      assert ms[0] in ms[..k];
      assert forall m | m in ms[1..][..k - 1] :: m in ms[..k];
      FirstSaved(next, ms[1..], k - 1);
    }
  }

  lemma OnlyRow(rows: seq<FailedMessage>, r: FailedMessage)
    requires UniqueIds(rows) && r in rows
    ensures forall q | q in rows && q.id == r.id :: q == r
  {
    var j :| 0 <= j < |rows| && rows[j] == r;
  }

  // ---------------------------------------------------------------------------------------------------------------
  // The life of one message whose replies reach the broker
  // ---------------------------------------------------------------------------------------------------------------

  /** The schedule is never indexed out of bounds, and its clamp never changes the index of a delivery that is Nak'd. */
  lemma ClampIsIdle(count: nat)
    requires 1 <= count
    ensures count < MaxDeliver <==> Min(count - 1, |BackoffSchedule| - 1) == count - 1
    ensures forall m :: Decide(count, Retriable(m)) ==
              if count < MaxDeliver then Answer(Nak(BackoffSchedule[count - 1])) else Bury(count, m)
  {
  }

  /** The replies the broker sees from delivery `count` on, until one of them settles the message. */
  function Replies(handler: nat -> Outcome, count: nat): (replies: seq<Reply>)
    requires 1 <= count <= MaxDeliver
    ensures 1 <= |replies| <= MaxDeliver + 1 - count
    ensures replies[|replies| - 1] in {Ack, Term}
    ensures forall k | 0 <= k < |replies| - 1 :: replies[k].Nak?
    decreases MaxDeliver - count
  {
    match Decide(count, handler(count))
    case Answer(Ack) => [Ack]
    case Answer(Nak(delay)) => [Nak(delay)] + Replies(handler, count + 1)
    case _ => [Term]
  }

  /** The rows written while those replies are produced. */
  function Buried(handler: nat -> Outcome, count: nat): (rows: seq<(nat, string)>)
    requires 1 <= count <= MaxDeliver
    decreases MaxDeliver - count
  {
    match Decide(count, handler(count))
    case Bury(attempts, error) => [(attempts, error)]
    case Answer(Nak(_)) => Buried(handler, count + 1)
    case _ => []
  }

  /**
   Every message is settled within its 11 deliveries: the last delivery is the first one whose handler does not ask
   for a retry, or the eleventh; earlier ones are Nak'd with the delays of the schedule, each once and in order; and
   the message is acked iff that last handler call returned nil, else it has one dead-letter row naming that delivery.
   */
  lemma {:induction false} SettlesWithinMaxDeliver(handler: nat -> Outcome, count: nat)
    requires 1 <= count <= MaxDeliver
    ensures Settles(handler, count, Replies(handler, count), Buried(handler, count))
    decreases MaxDeliver - count
  {
    if handler(count).Retriable? && count < MaxDeliver {
      SettlesWithinMaxDeliver(handler, count + 1);
      SettlesLater(handler, count, Replies(handler, count + 1), Buried(handler, count + 1));
      assert Replies(handler, count) == [Nak(Delay(count))] + Replies(handler, count + 1);
      assert Buried(handler, count) == Buried(handler, count + 1);
    } else {
      assert Decide(count, handler(count)) ==
          if handler(count).Handled? then Answer(Ack) else Bury(count, handler(count).message);
      assert |Replies(handler, count)| == 1;
    }
  }

  predicate Settles(handler: nat -> Outcome, count: nat, replies: seq<Reply>, rows: seq<(nat, string)>)
    requires 1 <= count
  {
    && replies != []
    && var last := count + |replies| - 1;
    && last <= MaxDeliver
    && NaksInOrder(handler, count, replies)
    && SettledBy(handler, last, replies[|replies| - 1], rows)
  }

  lemma SettlesLater(handler: nat -> Outcome, count: nat, later: seq<Reply>, rows: seq<(nat, string)>)
    requires 1 <= count < MaxDeliver && handler(count).Retriable?
    requires Settles(handler, count + 1, later, rows)
    ensures Settles(handler, count, [Nak(Delay(count))] + later, rows)
  {
    NakFirst(handler, count, later);
    var replies := [Nak(Delay(count))] + later;
    assert replies[|replies| - 1] == later[|later| - 1];
    assert count + |replies| - 1 == count + 1 + |later| - 1;
  }

  /** All replies but the last are Nak's of retriable failures, delayed as the schedule says. */
  predicate NaksInOrder(handler: nat -> Outcome, count: nat, replies: seq<Reply>)
    requires 1 <= count && count + |replies| <= MaxDeliver + 1
  {
    forall c | count <= c < count + |replies| - 1 ::
      handler(c).Retriable? && replies[c - count] == Nak(Delay(c))
  }

  /** The delay scheduled after delivery `count`. */
  function Delay(count: nat): nat
    requires 1 <= count < MaxDeliver
  {
    BackoffSchedule[count - 1]
  }

  lemma NakFirst(handler: nat -> Outcome, count: nat, later: seq<Reply>)
    requires 1 <= count && later != [] && count + 1 + |later| <= MaxDeliver + 1
    requires handler(count).Retriable? && NaksInOrder(handler, count + 1, later)
    ensures NaksInOrder(handler, count, [Nak(Delay(count))] + later)
  {
    var replies := [Nak(Delay(count))] + later;
    forall c | count <= c < count + |replies| - 1
      ensures handler(c).Retriable? && replies[c - count] == Nak(Delay(c))
    {
      if c > count {
        assert replies[c - count] == later[c - (count + 1)];
      }
    }
  }

  /** How delivery `last` ends the story of a message. */
  predicate SettledBy(handler: nat -> Outcome, last: nat, reply: Reply, rows: seq<(nat, string)>)
  {
    && (handler(last).Retriable? ==> last == MaxDeliver)
    && reply == (if handler(last).Handled? then Ack else Term)
    && rows == if handler(last).Handled? then [] else [(last, handler(last).message)]
  }

  function TotalDelay(replies: seq<Reply>): nat {
    if replies == [] then 0
    else (if replies[0].Nak? then replies[0].delay else 0) + TotalDelay(replies[1..])
  }

  lemma {:induction false} AlwaysRetriableFrom(handler: nat -> Outcome, count: nat)
    requires 1 <= count <= MaxDeliver && forall n :: handler(n).Retriable?
    ensures |Replies(handler, count)| == MaxDeliver + 1 - count
    ensures TotalDelay(Replies(handler, count)) == ScheduleFrom(count)
    decreases MaxDeliver - count
  {
    if count < MaxDeliver {
      AlwaysRetriableFrom(handler, count + 1);
      var later := Replies(handler, count + 1);
      assert Replies(handler, count) == [Nak(Delay(count))] + later;
      assert Replies(handler, count)[1..] == later;
    } else {
      assert Replies(handler, count) == [Term];
      assert TotalDelay([Term]) == 0 + TotalDelay([Term][1..]);
    }
  }

  /** The delays still to come at delivery `count`. */
  function ScheduleFrom(count: nat): nat
    requires 1 <= count <= MaxDeliver
    decreases MaxDeliver - count
  {
    if count == MaxDeliver then 0 else BackoffSchedule[count - 1] + ScheduleFrom(count + 1)
  }

  lemma NaksSpelled(handler: nat -> Outcome, replies: seq<Reply>)
    requires |replies| == 11 && NaksInOrder(handler, 1, replies) && replies[10] == Term
    ensures replies == [Nak(5), Nak(60), Nak(300), Nak(1800), Nak(7200), Nak(21600), Nak(43200), Nak(86400),
                        Nak(172800), Nak(259200), Term]
  {
    forall k | 0 <= k < 10 ensures replies[k] == Nak(BackoffSchedule[k]) {
      assert replies[(k + 1) - 1] == Nak(Delay(k + 1));
    }
  }

  /** A task that always fails is retried over 592565 seconds and buried at its eleventh attempt. */
  lemma AlwaysRetriable(handler: nat -> Outcome)
    requires forall n :: handler(n).Retriable?
    ensures Replies(handler, 1) == [Nak(5), Nak(60), Nak(300), Nak(1800), Nak(7200), Nak(21600), Nak(43200),
                                    Nak(86400), Nak(172800), Nak(259200), Term]
    ensures TotalDelay(Replies(handler, 1)) == 592565
    ensures Buried(handler, 1) == [(11, handler(11).message)]
  {
    SettlesWithinMaxDeliver(handler, 1);
    AlwaysRetriableFrom(handler, 1);
    NaksSpelled(handler, Replies(handler, 1));
    assert ScheduleFrom(8) == 86400 + (172800 + (259200 + 0));
    assert ScheduleFrom(5) == 7200 + (21600 + (43200 + ScheduleFrom(8)));
    assert ScheduleFrom(1) == 5 + (60 + (300 + (1800 + ScheduleFrom(5))));
  }

  // ---------------------------------------------------------------------------------------------------------------
  // The subscriber as a program
  // ---------------------------------------------------------------------------------------------------------------

  /** The body of a delivery: an envelope, or bytes of which only the fields before the error could be decoded. */
  datatype Body = Decoded(envelope: Envelope) | Malformed(partial: Envelope, error: string)

  datatype Delivery = Delivery(wireSubject: string, count: Result<nat, string>, body: Body)

  /** The reaction to a delivery: the handler that is called, if any, and the verdict. */
  datatype Response<H> = Response(called: Option<H>, verdict: Verdict)

  /** A delivery goes to the router if its metadata and its envelope can be read; otherwise it is terminal. */
  function Respond<H>(routes: map<string, H>, prefix: string, d: Delivery, answer: H -> Outcome): Response<H>
    requires d.count.Success? ==> 1 <= d.count.value
  {
    match d.count
    case Failure(error) => Response(None, if d.body.Decoded? then Bury(0, error) else Answer(Term))
    case Success(count) =>
      if d.body.Malformed? then Response(None, Bury(count, d.body.error))
      else Route(routes, TrimPrefix(d.wireSubject, prefix + "."), count, answer)
  }

  /** What becomes of a task: its own handler decides, and without one it is skipped. */
  function Route<H>(routes: map<string, H>, subject: string, count: nat, answer: H -> Outcome): Response<H>
    requires 1 <= count
  {
    match Lookup(routes, subject)
    case Some(h) => Response(Some(h), Decide(count, answer(h)))
    case None => Response(None, Answer(Ack))
  }

  /** The envelope as far as it was decoded. */
  function EnvelopeOf(body: Body): Envelope {
    match body
    case Decoded(e) => e
    case Malformed(e, _) => e
  }

  /** failed_tasks. */
  class FailedMessageRepository {
    var rows: seq<FailedMessage>

    constructor ()
      ensures rows == []
    {
      rows := [];
    }

    /** First-or-create, unless the write fails, which the caller logs only. */
    method Save(m: FailedMessage, fails: bool) returns (err: bool)
      modifies this
      ensures err == fails
      ensures rows == if fails then old(rows) else FirstOrCreate(old(rows), m)
    {
      if !fails && forall r | r in rows :: r.id != m.id {
        rows := rows + [m];
      }
      err := fails;
    }
  }

  class QueueSubscriber<H> {
    const router: Router<H>
    const repo: FailedMessageRepository
    const prefix: string
    const appSlug: string
    var subs: seq<Consumer>

    constructor (router: Router<H>, repo: FailedMessageRepository, prefix: string, appSlug: string)
      ensures this.router == router && this.repo == repo
      ensures this.prefix == prefix && this.appSlug == appSlug && subs == []
    {
      this.router := router;
      this.repo := repo;
      this.prefix := prefix;
      this.appSlug := appSlug;
      subs := [];
    }

    /**
     Subscribes the router's subjects under "queues."; the first subscription that fails stops it, keeping the earlier
     ones.
     */
    method Start(fails: string -> bool) returns (err: bool, ghost subjects: seq<string>, ghost n: nat)
      modifies this
      ensures Distinct(subjects) && forall s :: s in subjects <==> s in router.routes
      ensures n <= |subjects| && subs == old(subs) + QueueConsumers(appSlug, prefix, subjects[..n])
      ensures forall k | 0 <= k < n :: IsQueue(subjects[k]) ==> !fails(subjects[k])
      ensures err <==> n < |subjects|
      ensures err ==> IsQueue(subjects[n]) && fails(subjects[n])
    {
      var registered := router.Subjects();
      err, subjects, n := false, registered, |registered|;
      for i := 0 to |registered|
        invariant subs == old(subs) + QueueConsumers(appSlug, prefix, registered[..i])
        invariant !err && subjects == registered && n == |registered|
        invariant forall k | 0 <= k < i :: IsQueue(registered[k]) ==> !fails(registered[k])
      {
        var subject := registered[i];
        assert registered[..i + 1][..i] == registered[..i];
        if IsQueue(subject) {
          if fails(subject) {
            return true, subjects, i;
          }
          subs := subs + [Consumer(subject, prefix + "." + subject, DurableNameFor(appSlug, subject))];
        }
      }
      assert registered[..|registered|] == registered;
    }

    /** Writes at most one row, and never a second one for an id that has one. */
    method DeadLetter(e: Envelope, subject: string, attempts: nat, error: string, minted: Uuid, saveFails: bool)
      modifies repo
      ensures repo.rows ==
        if saveFails then old(repo.rows)
        else FirstOrCreate(old(repo.rows), DeadLetterRow(e, subject, attempts, error, minted))
      ensures !saveFails ==> exists r :: r in repo.rows && r.id == if e.id.Parsed? then e.id.id else minted
      ensures forall r | r in repo.rows && r !in old(repo.rows) ::
                && r.id == (if e.id.Parsed? then e.id.id else minted)
                && r.subject == subject && r.version == e.version
                && r.payload == (if e.data == "" then "null" else e.data)
                && r.attempts == attempts && r.lastError == error
    {
      var id := minted;
      if e.id.Parsed? {
        id := e.id.id;
      }
      var payload := e.data;
      if |payload| == 0 {
        payload := "null";
      }
      var err := repo.Save(FailedMessage(id, subject, e.version, payload, attempts, error), saveFails);
    }

    /** One dead-letter write, if it does not fail. */
    predicate Buries(before: seq<FailedMessage>, after: seq<FailedMessage>, saveFails: bool, e: Envelope,
                     wireSubject: string, attempts: nat, error: string, minted: Uuid)
    {
      after ==
        if saveFails then before
        else FirstOrCreate(before, DeadLetterRow(e, TrimPrefix(wireSubject, prefix + "."), attempts, error, minted))
    }

    /**
     One delivery; answer is what each handler returns if it is called, and saveFails whether a dead-letter write would
     fail. Delivery counts start at 1. A buried message is terminated whether or not its row could be written.
     */
    method HandleMessage(d: Delivery, answer: H -> Outcome, minted: Uuid, saveFails: bool)
      returns (reply: Reply, ghost called: Option<H>)
      requires d.count.Success? ==> 1 <= d.count.value
      modifies repo
      ensures var r := Respond(router.routes, prefix, d, answer);
              && called == r.called
              && match r.verdict
                 case Answer(a) => reply == a && repo.rows == old(repo.rows)
                 case Bury(attempts, error) =>
                   && reply == Term
                   && repo.rows ==
                        if saveFails then old(repo.rows)
                        else FirstOrCreate(old(repo.rows), DeadLetterRow(
                          EnvelopeOf(d.body), TrimPrefix(d.wireSubject, prefix + "."), attempts, error, minted))
      ensures d.count.Failure? ==>
                && called.None? && reply == Term
                && (if d.body.Malformed? then repo.rows == old(repo.rows)
                    else Buries(old(repo.rows), repo.rows, saveFails, d.body.envelope, d.wireSubject, 0, d.count.error,
                                minted))
      ensures d.count.Success? && d.body.Malformed? ==>
                && called.None? && reply == Term
                && Buries(old(repo.rows), repo.rows, saveFails, d.body.partial, d.wireSubject, d.count.value,
                          d.body.error, minted)
      ensures d.count.Success? && d.body.Decoded? ==>
                var subject := TrimPrefix(d.wireSubject, prefix + ".");
                if subject !in router.routes then called.None? && reply == Ack && repo.rows == old(repo.rows)
                else
                  && called == Some(router.routes[subject])
                  && match answer(router.routes[subject])
                     case Handled => reply == Ack && repo.rows == old(repo.rows)
                     case AppError(error) =>
                       && reply == Term
                       && Buries(old(repo.rows), repo.rows, saveFails, d.body.envelope, d.wireSubject, d.count.value,
                                 error, minted)
                     case Retriable(error) =>
                       if d.count.value < 11 then reply == Nak(Delay(d.count.value)) && repo.rows == old(repo.rows)
                       else
                         && reply == Term
                         && Buries(old(repo.rows), repo.rows, saveFails, d.body.envelope, d.wireSubject, d.count.value,
                                   error, minted)
    {
      called := None;
      var subject := TrimPrefix(d.wireSubject, prefix + ".");
      if d.count.Failure? {
        if d.body.Decoded? {
          DeadLetter(d.body.envelope, subject, 0, d.count.error, minted, saveFails);
        }
        return Term, called;
      }
      var numDelivered := d.count.value;
      if d.body.Malformed? {
        DeadLetter(d.body.partial, subject, numDelivered, d.body.error, minted, saveFails);
        return Term, called;
      }
      var outcome;
      outcome, called := router.Handle(subject, answer);
      if outcome.Handled? {
        return Ack, called;
      }
      if outcome.AppError? {
        DeadLetter(d.body.envelope, subject, numDelivered, outcome.message, minted, saveFails);
        return Term, called;
      }
      if numDelivered >= MaxDeliver {
        DeadLetter(d.body.envelope, subject, numDelivered, outcome.message, minted, saveFails);
        return Term, called;
      }
      var delay := BackoffSchedule[Min(numDelivered - 1, |BackoffSchedule| - 1)];
      reply := Nak(delay);
    }
  }
}

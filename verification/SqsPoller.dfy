/**
 The SQS poller: parsing a message into object events, dispatching them, and deleting the message or leaving it to be
 delivered again. JSON and URL decoding are abstract.
 */
module SqsPoller {
  import opened Wrappers

  datatype Key = Unescaped(text: string) | BadEscape(text: string)

  datatype Record = Record(eventName: string, bucket: string, key: Key, size: Option<int>)

  datatype Body = NotJson | Records(records: seq<Record>)

  datatype Event = Event(eventName: string, bucket: string, key: string, size: Option<int>)

  datatype ParseError = CannotUnmarshal | CannotDecodeKey(text: string) | NoRecords

  /** What the router returns for an event. */
  datatype Outcome = Handled | AppError | Retriable

  /** The events of decodable records, in order; records with an empty key are left out. */
  function EventsOf(records: seq<Record>): (events: seq<Event>)
    requires forall r | r in records :: r.key.Unescaped?
    ensures |events| <= |records|
  {
    if records == [] then []
    else
      var r := records[|records| - 1];
      EventsOf(records[..|records| - 1])
        + if r.key.text == "" then [] else [Event(r.eventName, r.bucket, r.key.text, r.size)]
  }

  predicate Parses(body: Body) {
    && body.Records?
    && (forall r | r in body.records :: r.key.Unescaped?)
    && exists r | r in body.records :: r.key.text != ""
  }

  lemma {:induction false} EventsExist(records: seq<Record>)
    requires forall r | r in records :: r.key.Unescaped?
    ensures EventsOf(records) != [] <==> exists r | r in records :: r.key.text != ""
    decreases |records|
  {
    if records != [] {
      var n := |records| - 1;
      assert forall r :: r in records <==> r in records[..n] || r == records[n];
      EventsExist(records[..n]);
    }
  }

  /** The positions of the records whose key is not empty, in order. */
  function NonEmptyAt(records: seq<Record>): (at: seq<nat>)
    requires forall r | r in records :: r.key.Unescaped?
    ensures forall k | 0 <= k < |at| :: at[k] < |records| && (k > 0 ==> at[k - 1] < at[k])
    ensures forall i: nat :: i in at <==> i < |records| && records[i].key.text != ""
  {
    if records == [] then []
    else
      var n := |records| - 1;
      assert records[n] in records;
      assert forall i | 0 <= i < n :: records[..n][i] == records[i];
      NonEmptyAt(records[..n]) + if records[n].key.text == "" then [] else [n]
  }

  /** Each event is made of one record with a non-empty key, in order, and each such record gives one. */
  lemma {:induction false} EventsAreRecords(records: seq<Record>)
    requires forall r | r in records :: r.key.Unescaped?
    ensures var events, at := EventsOf(records), NonEmptyAt(records);
            && |events| == |at|
            && forall k | 0 <= k < |at| :: at[k] < |records| && MadeOf(events[k], records[at[k]])
    decreases records
  {
    if records != [] {
      EventsAreRecords(records[..|records| - 1]);
      assert records[|records| - 1] in records;
    }
  }

  predicate MadeOf(e: Event, r: Record) {
    r.key == Unescaped(e.key) && e.eventName == r.eventName && e.bucket == r.bucket && e.size == r.size
  }

  method ParseS3Records(body: Body) returns (r: Result<seq<Event>, ParseError>)
    ensures r.Success? <==> Parses(body)
    ensures r.Success? ==> r.value == EventsOf(body.records) && r.value != []
    ensures r == Failure(CannotUnmarshal) <==> body.NotJson?
    ensures r == Failure(NoRecords) <==>
              body.Records? && forall x | x in body.records :: x.key == Unescaped("")
    ensures r.Failure? && r.error.CannotDecodeKey? ==>
              && body.Records?
              && exists k :: 0 <= k < |body.records| && body.records[k].key == BadEscape(r.error.text)
                             && forall x | x in body.records[..k] :: x.key.Unescaped?
  {
    if body.NotJson? {
      return Failure(CannotUnmarshal);
    }
    var records := body.records;
    var events := [];
    for i := 0 to |records|
      invariant forall x | x in records[..i] :: x.key.Unescaped?
      invariant events == EventsOf(records[..i])
    {
      assert records[..i + 1][..i] == records[..i];
      assert records[i] in records;
      if records[i].key.BadEscape? {
        return Failure(CannotDecodeKey(records[i].key.text));
      }
      var key := records[i].key.text;
      if key == "" {
        continue;
      }
      events := events + [Event(records[i].eventName, records[i].bucket, key, records[i].size)];
    }
    assert records[..|records|] == records;
    EventsExist(records);
    if |events| == 0 {
      return Failure(NoRecords);
    }
    r := Success(events);
  }

  /** One delivery of a message: what the router returns for its events, and whether a delete request succeeds. */
  datatype Pass = Pass(handler: seq<Event> -> Outcome, deleteFails: bool)

  /** The router's answer to the event at index i of a pass may depend on everything dispatched before it. */
  function OutcomeAt(p: Pass, events: seq<Event>, i: nat): Outcome
    requires i < |events|
  {
    p.handler(events[..i + 1])
  }

  /** The number of events dispatched in a pass: up to and including the first retriable error. */
  function Dispatched(p: Pass, events: seq<Event>, i: nat): (n: nat)
    requires i <= |events|
    ensures i <= n <= |events|
    ensures forall k | i <= k < n - 1 :: !OutcomeAt(p, events, k).Retriable?
    ensures n < |events| ==> i < n && OutcomeAt(p, events, n - 1).Retriable?
    decreases |events| - i
  {
    if i == |events| then i
    else if OutcomeAt(p, events, i).Retriable? then i + 1
    else Dispatched(p, events, i + 1)
  }

  predicate AllAnswered(p: Pass, events: seq<Event>) {
    forall k | 0 <= k < |events| :: !OutcomeAt(p, events, k).Retriable?
  }

  /** A pass over one message: the events dispatched, and whether the message is gone afterwards. */
  method ProcessMessage(body: Body, p: Pass) returns (dispatched: seq<Event>, deleted: bool)
    ensures !Parses(body) ==> dispatched == [] && deleted == !p.deleteFails
    ensures Parses(body) ==>
              var events := EventsOf(body.records);
              && dispatched == events[..Dispatched(p, events, 0)]
              && deleted == (AllAnswered(p, events) && !p.deleteFails)
              && (AllAnswered(p, events) ==> dispatched == events)
              && (!AllAnswered(p, events) ==>
                    dispatched != [] && OutcomeAt(p, events, |dispatched| - 1).Retriable?)
    ensures dispatched == EventsDispatched(body, p) && deleted == Deletes(body, p)
  {
    var parsed := ParseS3Records(body);
    if parsed.Failure? {
      return [], !p.deleteFails;
    }
    var events := parsed.value;
    dispatched := [];
    for i := 0 to |events|
      invariant dispatched == events[..i]
      invariant forall k | 0 <= k < i :: !OutcomeAt(p, events, k).Retriable?
      invariant Dispatched(p, events, 0) == Dispatched(p, events, i)
    {
      dispatched := dispatched + [events[i]];
      if p.handler(dispatched) == Retriable {
        assert dispatched == events[..i + 1];
        assert OutcomeAt(p, events, i).Retriable?;
        return dispatched, false;
      }
      assert dispatched == events[..i + 1];
    }
    deleted := !p.deleteFails;
  }

  // ---------------------------------------------------------------------------------------------------------------
  // Redeliveries
  // ---------------------------------------------------------------------------------------------------------------

  /** Whether a pass removes the message. */
  predicate Deletes(body: Body, p: Pass) {
    !p.deleteFails && (Parses(body) ==> AllAnswered(p, EventsOf(body.records)))
  }

  /** The number of passes a message lives through: it is delivered again until a pass deletes it. */
  function Lifetime(body: Body, passes: seq<Pass>): (n: nat)
    ensures n <= |passes|
    ensures forall k | 0 <= k < n - 1 :: !Deletes(body, passes[k])
    ensures n < |passes| ==> n > 0 && Deletes(body, passes[n - 1])
    decreases passes
  {
    if passes == [] then 0
    else if Deletes(body, passes[0]) then 1
    else
      var rest := Lifetime(body, passes[1..]);
      assert forall k | 1 <= k < rest :: passes[1..][k - 1] == passes[k];
      1 + rest
  }

  function EventsDispatched(body: Body, p: Pass): seq<Event> {
    if Parses(body) then EventsOf(body.records)[..Dispatched(p, EventsOf(body.records), 0)] else []
  }

  /**
   A message that parses is deleted only by its last pass, and only if that dispatched all its events, in order, none
   of them answered by a retriable error. A pass that does not delete it has dispatched a prefix of its events that
   either is all of them, with the delete request failing, or ends at the first retriable error. So no event of a
   deleted message is skipped.
   */
  lemma NoEventSkipped(body: Body, passes: seq<Pass>)
    requires Parses(body)
    ensures var events, n := EventsOf(body.records), Lifetime(body, passes);
            forall k | 0 <= k < n ::
              var d := EventsDispatched(body, passes[k]);
              if Deletes(body, passes[k]) then
                k == n - 1 && d == events && AllAnswered(passes[k], events)
              else
                && d != [] && d <= events
                && (forall i | 0 <= i < |d| - 1 :: !OutcomeAt(passes[k], events, i).Retriable?)
                && if OutcomeAt(passes[k], events, |d| - 1).Retriable? then true
                   else d == events && passes[k].deleteFails
  {
    EventsExist(body.records);
    forall k | 0 <= k < Lifetime(body, passes) {
      OnePass(body, passes[k]);
    }
  }

  lemma OnePass(body: Body, p: Pass)
    requires Parses(body) && EventsOf(body.records) != []
    ensures var events, n := EventsOf(body.records), |EventsDispatched(body, p)|;
            && 0 < n <= |events| && EventsDispatched(body, p) == events[..n]
            && (forall i | 0 <= i < n - 1 :: !OutcomeAt(p, events, i).Retriable?)
            && (AllAnswered(p, events) ==> n == |events|)
            && (!AllAnswered(p, events) ==> OutcomeAt(p, events, n - 1).Retriable?)
  {
  }

  /** The events of the records whose key can be decoded and is not empty, in order, whatever the other records are. */
  function SalvageableEvents(records: seq<Record>): seq<Event> {
    if records == [] then []
    else
      var r := records[|records| - 1];
      SalvageableEvents(records[..|records| - 1])
        + if Salvageable(r) then [Event(r.eventName, r.bucket, r.key.text, r.size)] else []
  }

  predicate Salvageable(r: Record) {
    r.key.Unescaped? && r.key.text != ""
  }

  lemma {:induction false} AllSalvageable(records: seq<Record>)
    requires forall r | r in records :: r.key.Unescaped?
    ensures SalvageableEvents(records) == EventsOf(records)
    decreases |records|
  {
    if records != [] {
      assert records[|records| - 1] in records;
      AllSalvageable(records[..|records| - 1]);
    }
  }

  lemma {:induction false} NoneSalvageable(records: seq<Record>)
    ensures SalvageableEvents(records) == [] <==> forall r | r in records :: !Salvageable(r)
    decreases |records|
  {
    if records != [] {
      var n := |records| - 1;
      assert forall r :: r in records <==> r in records[..n] || r == records[n];
      NoneSalvageable(records[..n]);
    }
  }

  /**
   When a message is deleted, exactly the events of its decodable, non-empty keys have been dispatched iff all its keys
   decode, or there is no such event at all.
   */
  lemma NothingDroppedIff(body: Body, p: Pass)
    requires body.Records? && Deletes(body, p)
    ensures EventsDispatched(body, p) == SalvageableEvents(body.records) <==>
              (forall r | r in body.records :: r.key.Unescaped?) || (forall r | r in body.records :: !Salvageable(r))
  {
    NoneSalvageable(body.records);
    if forall r | r in body.records :: r.key.Unescaped? {
      AllSalvageable(body.records);
      EventsExist(body.records);
      if Parses(body) {
        OnePass(body, p);
      }
    }
  }

  /** One record whose key cannot be decoded deletes the whole message, and none of its events is ever dispatched. */
  lemma UndecodableKeyDropsMessage(body: Body, r: Record, p: Pass)
    requires body.Records? && r in body.records && r.key.BadEscape? && !p.deleteFails
    ensures Deletes(body, p) && EventsDispatched(body, p) == []
  {
  }
}

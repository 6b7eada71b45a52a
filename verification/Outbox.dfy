/**
 The outbox table: rows, the queries of its repository, and the envelope the relay builds from a row.

 Only committed (visible) rows are in a Table. JSON itself is abstract: a payload is tagged with whether its bytes
 are JSON, which is all that marshalling an envelope depends on, so well-formedness is fixed when a row is inserted.
 */
module Outbox {
  import opened Wrappers
  import opened Ordering

  type Uuid = nat
  type Time = int

  datatype Payload = Json(text: string) | Garbage(text: string)

  /** One row of outbox_events. The last three fields are its only mutable columns. */
  datatype Event = Event(
    id: nat, messageId: Uuid, subject: string, version: string, payload: Payload, occurredAt: Time,
    publishedAt: Option<Time>, error: Option<string>, failedAt: Option<Time>)
  {
    predicate Pending() {
      publishedAt.None? && failedAt.None?
    }

    predicate WellFormed() {
      payload.Json?
    }

    /** The row without its mutable columns. */
    function Core(): Event {
      this.(publishedAt := None, error := None, failedAt := None)
    }
  }

  type Table = map<nat, Event>

  datatype Config = Config(prefix: string, source: string)

  datatype Envelope = Envelope(id: Uuid, version: string, source: string, timestamp: int, data: string)

  /** A message on the stream: its wire subject, its deduplication id and its body. */
  datatype Msg = Msg(subject: string, msgId: Uuid, envelope: Envelope)

  function MakeEnvelope(cfg: Config, e: Event): Result<Envelope, string> {
    match e.payload
    case Json(text) => Success(Envelope(e.messageId, e.version, cfg.source, e.occurredAt, text))
    case Garbage(_) => Failure("json: error calling MarshalJSON for type json.RawMessage")
  }

  /** What the relay puts on the wire for a row whose envelope can be built. */
  function Wire(cfg: Config, e: Event): Msg
    requires e.WellFormed()
  {
    Msg(cfg.prefix + "." + e.subject, e.messageId, MakeEnvelope(cfg, e).value)
  }

  // ---------------------------------------------------------------------------------------------------------------
  // The statements of the repository
  // ---------------------------------------------------------------------------------------------------------------

  /** UPDATE ... SET published_at WHERE message_id = m */
  function SetPublished(t: Table, m: Uuid, at: Time): Table {
    map i | i in t :: if t[i].messageId == m then t[i].(publishedAt := Some(at)) else t[i]
  }

  /** UPDATE ... SET error, failed_at WHERE message_id = m */
  function SetFailed(t: Table, m: Uuid, reason: string, at: Time): Table {
    map i | i in t :: if t[i].messageId == m then t[i].(error := Some(reason), failedAt := Some(at)) else t[i]
  }

  function RowsAffected(t: Table, m: Uuid): set<nat> {
    set i | i in t && t[i].messageId == m
  }

  function PendingIds(t: Table): set<nat> {
    set i | i in t && t[i].Pending()
  }

  /** The batch limit actually used: a limit that is not positive falls back to 100. */
  function EffectiveLimit(limit: int): nat {
    if limit <= 0 then 100 else limit
  }

  function EventsAt(t: Table, ids: seq<nat>): (es: seq<Event>)
    requires forall i | i in ids :: i in t
    ensures |es| == |ids|
    ensures forall k | 0 <= k < |ids| :: es[k] == t[ids[k]]
  {
    seq(|ids|, k requires 0 <= k < |ids| => t[ids[k]])
  }

  /** SELECT ... WHERE published_at IS NULL AND failed_at IS NULL ORDER BY id ASC LIMIT n */
  function ListUnpublished(t: Table, limit: int): seq<Event> {
    var ids := Ascending(PendingIds(t));
    EventsAt(t, Take(ids, EffectiveLimit(limit)))
  }

  // ---------------------------------------------------------------------------------------------------------------
  // What the queries return
  // ---------------------------------------------------------------------------------------------------------------

  predicate Keyed(t: Table) {
    forall i | i in t :: t[i].id == i
  }

  function Ids(es: seq<Event>): (ids: seq<nat>)
    ensures |ids| == |es| && forall k | 0 <= k < |es| :: ids[k] == es[k].id
  {
    seq(|es|, k requires 0 <= k < |es| => es[k].id)
  }

  /** The query returns the rows at the first ids, in ascending order, of the pending set. */
  lemma ListUnpublishedIds(t: Table, limit: int)
    requires Keyed(t)
    ensures Ids(ListUnpublished(t, limit)) == Take(Ascending(PendingIds(t)), EffectiveLimit(limit))
  {
    var taken := Take(Ascending(PendingIds(t)), EffectiveLimit(limit));
    forall k | 0 <= k < |taken| ensures Ids(ListUnpublished(t, limit))[k] == taken[k] {
      assert taken[k] in PendingIds(t);
    }
  }

  /** The query returns pending rows by ascending id, and no pending row below a returned one is left out. */
  lemma ListUnpublishedSpec(t: Table, limit: int)
    requires Keyed(t)
    ensures var batch := ListUnpublished(t, limit);
            && Increasing(Ids(batch))
            && (forall k | 0 <= k < |batch| :: batch[k].id in t && t[batch[k].id] == batch[k] && batch[k].Pending())
            && forall i, k | i in PendingIds(t) && 0 <= k < |batch| && i < batch[k].id :: i in Ids(batch)[..k]
  {
    ListUnpublishedIds(t, limit);
    var batch := ListUnpublished(t, limit);
    forall k | 0 <= k < |batch|
      ensures batch[k].id in t && t[batch[k].id] == batch[k] && batch[k].Pending()
    {
      assert Ids(batch)[k] in PendingIds(t);
    }
    forall i, k | i in PendingIds(t) && 0 <= k < |batch| && i < batch[k].id ensures i in Ids(batch)[..k] {
      assert Ids(batch)[k] == batch[k].id;
      TakenFirst(Ascending(PendingIds(t)), EffectiveLimit(limit), i, k);
    }
  }

  /** It returns as many rows as are pending and as the limit allows; a limit that is not positive allows 100. */
  lemma ListUnpublishedSize(t: Table, limit: int)
    requires Keyed(t)
    ensures |ListUnpublished(t, limit)| ==
              var most := if limit <= 0 then 100 else limit;
              if |PendingIds(t)| < most then |PendingIds(t)| else most
  {
    ListUnpublishedIds(t, limit);
  }
}

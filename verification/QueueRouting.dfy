/**
 The way of a task from EnqueueOn to its handler: the subject it is stored under, the wire subject the relay publishes
 it on, the consumers whose filter matches that, and the router lookup the subscriber makes.
 */
module QueueRouting {
  import opened Wrappers
  import Outbox
  import RelayProtocol
  import opened Strings
  import opened Subjects
  import opened MessagingRouter
  import opened QueueConsumer

  function QueueSubject(channel: string, name: string): string {
    "queues." + channel + "." + name
  }

  function WireSubject(prefix: string, subject: string): string {
    prefix + "." + subject
  }

  // ---------------------------------------------------------------------------------------------------------------
  // NATS subject filters
  // ---------------------------------------------------------------------------------------------------------------

  /** `*` stands for one token, a final `>` for one or more. */
  predicate MatchTokens(filter: seq<string>, subject: seq<string>) {
    if filter == [] then subject == []
    else if filter == [">"] then subject != []
    else subject != [] && (filter[0] == "*" || filter[0] == subject[0]) && MatchTokens(filter[1..], subject[1..])
  }

  predicate Matches(filter: string, subject: string) {
    MatchTokens(Split(filter, '.'), Split(subject, '.'))
  }

  predicate WildcardFree(subject: string) {
    "*" !in Split(subject, '.') && ">" !in Split(subject, '.')
  }

  lemma {:induction false} PlainTokensMatch(filter: seq<string>, subject: seq<string>)
    requires "*" !in filter && ">" !in filter
    ensures MatchTokens(filter, subject) <==> filter == subject
    decreases |filter|
  {
    if filter != [] {
      assert filter[0] in filter;
      assert filter != [">"];
      if subject != [] {
        PlainTokensMatch(filter[1..], subject[1..]);
        assert filter == [filter[0]] + filter[1..] && subject == [subject[0]] + subject[1..];
      }
    }
  }

  /** A filter without wildcards matches its own subject and nothing else. */
  lemma PlainFilterMatches(filter: string, subject: string)
    requires WildcardFree(filter)
    ensures Matches(filter, subject) <==> filter == subject
  {
    PlainTokensMatch(Split(filter, '.'), Split(subject, '.'));
    assert Join(Split(filter, '.'), '.') == filter && Join(Split(subject, '.'), '.') == subject;
  }

  /**
   What the filter language means: up to a final `>` every token of the filter is `*` or the subject's own token, and
   without a final `>` there are no further tokens.
   */
  predicate Pattern(filter: seq<string>, subject: seq<string>)
    requires filter != []
  {
    var n := |filter| - 1;
    && (if filter[n] == ">" then |subject| > n else |subject| == n + 1)
    && forall k | 0 <= k < (if filter[n] == ">" then n else n + 1) :: filter[k] == "*" || filter[k] == subject[k]
  }

  lemma {:induction false} MatchesIff(filter: seq<string>, subject: seq<string>)
    requires filter != []
    ensures MatchTokens(filter, subject) <==> Pattern(filter, subject)
    decreases |filter|
  {
    if |filter| == 1 {
      assert MatchTokens([], if subject == [] then [] else subject[1..]) <==> |subject| <= 1;
    } else if subject != [] {
      MatchesIff(filter[1..], subject[1..]);
      PatternCons(filter, subject);
    }
  }

  lemma PatternCons(filter: seq<string>, subject: seq<string>)
    requires |filter| > 1 && subject != []
    ensures Pattern(filter, subject) <==>
              (filter[0] == "*" || filter[0] == subject[0]) && Pattern(filter[1..], subject[1..])
  {
    var n := |filter| - 1;
    var m := if filter[n] == ">" then n else n + 1;
    assert filter[1..][n - 1] == filter[n];
    if Pattern(filter, subject) {
      forall k | 0 <= k < m - 1 ensures filter[1..][k] == "*" || filter[1..][k] == subject[1..][k] {
        assert filter[k + 1] == "*" || filter[k + 1] == subject[k + 1];
      }
    }
    if (filter[0] == "*" || filter[0] == subject[0]) && Pattern(filter[1..], subject[1..]) {
      forall k | 0 <= k < m ensures filter[k] == "*" || filter[k] == subject[k] {
        if k > 0 {
          assert filter[1..][k - 1] == "*" || filter[1..][k - 1] == subject[1..][k - 1];
        }
      }
    }
  }

  /** A common prefix makes no difference, whatever it is. */
  lemma {:induction false} HeadMatches(head: seq<string>, filter: seq<string>, subject: seq<string>)
    requires filter != []
    ensures MatchTokens(head + filter, head + subject) <==> MatchTokens(filter, subject)
    decreases |head|
  {
    if head == [] {
      assert head + filter == filter && head + subject == subject;
    } else {
      assert (head + filter)[1..] == head[1..] + filter && (head + subject)[1..] == head[1..] + subject;
      HeadMatches(head[1..], filter, subject);
    }
  }

  lemma PrefixedMatches(prefix: string, filter: string, subject: string)
    ensures Matches(WireSubject(prefix, filter), WireSubject(prefix, subject)) <==> Matches(filter, subject)
  {
    SplitAppend(prefix, filter, '.');
    SplitAppend(prefix, subject, '.');
    HeadMatches(Split(prefix, '.'), Split(filter, '.'), Split(subject, '.'));
  }

  lemma MatchesItself(subject: string)
    ensures Matches(subject, subject)
  {
    var tokens := Split(subject, '.');
    MatchesIff(tokens, tokens);
  }

  // ---------------------------------------------------------------------------------------------------------------
  // From EnqueueOn to the handler
  // ---------------------------------------------------------------------------------------------------------------

  /** The row EnqueueOn stores for a task: its subject carries the channel, its payload is the task's own JSON. */
  function TaskDraft(id: Outbox.Uuid, channel: string, name: string, version: string, json: string, at: Outbox.Time)
    : RelayProtocol.Draft
  {
    RelayProtocol.Draft(id, QueueSubject(channel, name), version, Outbox.Json(json), at)
  }

  /** The delivery of a relayed message, its metadata being readable. */
  function DeliveryOf(m: Outbox.Msg, count: nat): Delivery {
    Delivery(m.subject, Success(count), Decoded(Envelope(Parsed(m.envelope.id), m.envelope.version, m.envelope.data)))
  }

  lemma TrimWire(prefix: string, subject: string)
    ensures TrimPrefix(WireSubject(prefix, subject), prefix + ".") == subject
  {
    TrimWhole(prefix + ".", subject);
    assert WireSubject(prefix, subject) == (prefix + ".") + subject;
  }

  /**
   The round trip of a task: its row can always be sent, and whichever consumer receives the relay's message, the
   handler called is the one registered under the subject that EnqueueOn composed, whose answer decides. If there is
   none, no handler is called and the message is acked.
   */
  lemma SubjectRoundTrip<H>(
      cfg: Outbox.Config, routes: map<string, H>, answer: H -> Outcome, count: nat, id: nat, messageId: Outbox.Uuid,
      channel: string, name: string, version: string, json: string, at: Outbox.Time)
    requires 1 <= count
    ensures var e := RelayProtocol.NewRow(id, TaskDraft(messageId, channel, name, version, json, at));
            var q := QueueSubject(channel, name);
            && e.WellFormed() && IsQueue(q)
            && Outbox.Wire(cfg, e).msgId == messageId
            && Outbox.Wire(cfg, e).envelope == Outbox.Envelope(messageId, version, cfg.source, at, json)
            && Respond(routes, cfg.prefix, DeliveryOf(Outbox.Wire(cfg, e), count), answer) ==
                 if q in routes then Response(Some(routes[q]), Decide(count, answer(routes[q])))
                 else Response(None, Answer(Ack))
  {
    TrimWire(cfg.prefix, QueueSubject(channel, name));
  }

  /** The consumers among those of the registered subjects that a message is delivered to. */
  function Receivers(cs: seq<Consumer>, wire: string): (r: seq<Consumer>)
    ensures forall c :: c in r <==> c in cs && Matches(c.filter, wire)
  {
    if cs == [] then []
    else
      var n := |cs| - 1;
      Receivers(cs[..n], wire) + if Matches(cs[n].filter, wire) then [cs[n]] else []
  }

  /** A message is received by the consumers whose registered subject covers its own. */
  lemma DeliveredToItsConsumers(appSlug: string, prefix: string, subjects: seq<string>, q: string, c: Consumer)
    ensures c in Receivers(QueueConsumers(appSlug, prefix, subjects), WireSubject(prefix, q))
       <==> c in QueueConsumers(appSlug, prefix, subjects) && Matches(c.registered, q)
  {
    ConsumersAreNamed(appSlug, prefix, subjects);
    if c in QueueConsumers(appSlug, prefix, subjects) {
      assert ForQueue(appSlug, prefix, subjects, c);
      PrefixedMatches(prefix, c.registered, q);
    }
  }

  /** The registered queue subjects, plain or with wildcards, that cover a subject. */
  function Covering(registered: set<string>, q: string): set<string> {
    set s | s in registered && IsQueue(s) && Matches(s, q)
  }

  lemma {:induction false} OneReceiverEach(appSlug: string, prefix: string, subjects: seq<string>, q: string)
    requires Distinct(subjects)
    ensures |Receivers(QueueConsumers(appSlug, prefix, subjects), WireSubject(prefix, q))|
         == |Covering(Elements(subjects), q)|
    decreases |subjects|
  {
    if subjects != [] {
      var n := |subjects| - 1;
      var last, before := subjects[n], QueueConsumers(appSlug, prefix, subjects[..n]);
      OneReceiverEach(appSlug, prefix, subjects[..n], q);
      PrefixedMatches(prefix, last, q);
      CoveringLast(subjects, q);
      if IsQueue(last) {
        var c := Consumer(last, prefix + "." + last, DurableNameFor(appSlug, last));
        assert (before + [c])[..|before|] == before;
      } else {
        assert before + [] == before;
      }
    }
  }

  lemma CoveringLast(subjects: seq<string>, q: string)
    requires subjects != [] && Distinct(subjects)
    ensures var n := |subjects| - 1;
            |Covering(Elements(subjects), q)| == |Covering(Elements(subjects[..n]), q)|
              + if IsQueue(subjects[n]) && Matches(subjects[n], q) then 1 else 0
  {
    var n := |subjects| - 1;
    var last, before := subjects[n], Covering(Elements(subjects[..n]), q);
    assert forall s :: s in subjects <==> s in subjects[..n] || s == last;
    assert last !in subjects[..n];
    assert Covering(Elements(subjects), q) == before + if IsQueue(last) && Matches(last, q) then {last} else {};
  }

  /**
   How often a task is handled: every registered queue subject that covers its subject has a consumer that receives
   the message, and each of them calls the handler of the task's own subject. So a registered task is handled at least
   once, exactly once iff no other registered queue subject covers it, and once more for each that does; a task that
   is covered only by wildcards is never handled.
   */
  lemma TimesHandled<H>(appSlug: string, prefix: string, routes: map<string, H>, subjects: seq<string>, q: string)
    requires Distinct(subjects) && forall s :: s in subjects <==> s in routes
    requires IsQueue(q)
    ensures var n := |Receivers(QueueConsumers(appSlug, prefix, subjects), WireSubject(prefix, q))|;
            && n == |Covering(routes.Keys, q)|
            && (q in routes ==> n >= 1 && (n == 1 <==> forall s | s in routes && IsQueue(s) && Matches(s, q) :: s == q))
    ensures forall d: Delivery, answer: H -> Outcome
              | d.wireSubject == WireSubject(prefix, q) && d.body.Decoded? && d.count.Success? && 1 <= d.count.value ::
              Respond(routes, prefix, d, answer).called == Lookup(routes, q)
  {
    TrimWire(prefix, q);
    OneReceiverEach(appSlug, prefix, subjects, q);
    assert Elements(subjects) == routes.Keys;
    if q in routes {
      CoveredOnce(routes.Keys, q);
    }
  }

  lemma CoveredOnce(registered: set<string>, q: string)
    requires q in registered && IsQueue(q)
    ensures var n := |Covering(registered, q)|;
            n >= 1 && (n == 1 <==> forall s | s in registered && IsQueue(s) && Matches(s, q) :: s == q)
  {
    MatchesItself(q);
    var covering := Covering(registered, q);
    assert |covering - {q}| == |covering| - 1;
    if forall s | s in registered && IsQueue(s) && Matches(s, q) :: s == q {
      assert covering - {q} == {};
    } else {
      var s :| s in registered && IsQueue(s) && Matches(s, q) && s != q;
      assert s in covering - {q};
    }
  }

  /**
   Whose handler a consumer calls: its own one iff it was made for the task's very subject. A consumer made for a
   wildcard never calls the wildcard's handler for a task on a plain subject; it calls that of the plain subject, which
   the plain subject's own consumer calls as well, or none and acks.
   */
  lemma OwnHandlerIff<H>(
      appSlug: string, prefix: string, routes: map<string, H>, subjects: seq<string>, c: Consumer, d: Delivery,
      q: string, answer: H -> Outcome)
    requires forall s :: s in subjects <==> s in routes
    requires forall s, t | s in routes && t in routes && routes[s] == routes[t] :: s == t
    requires d.wireSubject == WireSubject(prefix, q) && d.body.Decoded? && d.count.Success? && 1 <= d.count.value
    requires c in Receivers(QueueConsumers(appSlug, prefix, subjects), d.wireSubject)
    ensures c.registered in routes && Matches(c.registered, q)
    ensures Respond(routes, prefix, d, answer).called == Some(routes[c.registered]) <==> c.registered == q
    ensures !WildcardFree(c.registered) && WildcardFree(q) ==>
              var r := Respond(routes, prefix, d, answer);
              && r.called != Some(routes[c.registered])
              && (q !in routes ==> r == Response(None, Answer(Ack)))
  {
    TrimWire(prefix, q);
    DeliveredToItsConsumers(appSlug, prefix, subjects, q, c);
    ConsumersAreNamed(appSlug, prefix, subjects);
    assert ForQueue(appSlug, prefix, subjects, c);
  }
}

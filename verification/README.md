# Asynchronous delivery, key cache and routing: a verified model

This project models the parts of the Go platform library on which its delivery guarantees rest, and proves what they
guarantee. `dafny verify dfyconfig.toml` checks everything.

- **Outbox and relays** (`Outbox`, `RelayProtocol`, `StreamOrder`, `StreamLimits`, `Deployments`, `RelayDrain`). A use
  case inserts rows in a transaction; relays list the lowest pending ids, publish each row with its message id and mark
  it. The database, the broker with its duplicates window, and any number of relays form one transition system: every
  statement is a step, its label says how it ended (took effect or not, reply received or lost), and a crash may fall
  between any two steps. `Relay.Drain` and `Relay.Loop` are the loops themselves, proved to take exactly the steps that
  the answers of the database and the broker call for, while everybody else moves at will in between.
- **Unit of work and event bus** (`UnitOfWork`, `EventBus`). Domain events run their handlers inside the transaction.
  Handlers may store rows, subscribe and publish. The transaction is one of those of the transition system, so relays
  and other transactions move between any two of its statements too.
- **Queue consumer** (`QueueConsumer`, `EndToEnd`). The decision for one delivery, the retry schedule, the dead-letter
  table, and the composition with the relays: every message goes to each consumer whose registered subject covers it,
  redeliveries overlap, replies get lost, consumers die.
- **JWKS cache** (`Jwks`, `JwksConcurrency`). Parsing a key set, and `getKey` as interleaved steps under its two locks.
- **Names, routing and policy** (`Strings`, `Subjects`, `EventConsumer`, `MessagingRouter`, `QueueRouting`,
  `ObjectRouter`, `SqsPoller`, `Authorization`). `Ordering` and `Wrappers` are shared helpers.

## What holds, and under which conditions

- **Order of the stream.** It is meant to be a duplicate-free prefix of the sendable committed rows in id order. Exactly
  two kinds of step break that: a commit that reveals a sendable row below a sent one, and storing a message that is on
  the stream already or lies above a sendable row that is not (`StreamOrder.StepInLine`, and over runs
  `StreamOrder.RunInLine`). Two conditions exclude both for any number of relays: (a) a commit reveals no sendable row
  below one already sent, or listed by a relay that will send it, and (b) a re-publish finds its id still inside the
  duplicates window (`StreamOrder.StreamRefinement`). They are sufficient, and exact for the stream together with the
  batches that relays hold (`StreamOrder.StepOrdered`, `StreamOrder.RunOrdered`): a commit below a listed row need not
  break the order, if that relay crashes, but does so if it just goes on (`StreamOrder.GapBreaksLine`). Neither
  condition follows from the code: a bigserial id is taken before its transaction commits. `StreamLimits` holds a run
  that violates the order, and one that duplicates a message. (a) follows if rows become visible in id order
  (`StreamOrder.VisibleInIdOrder`, and over runs `StreamOrder.VisibleInOrderRefines`).
- **At least once** needs neither condition (`RelayProtocol.AtLeastOnce`).
- **Command atomicity.** A unit of work commits with all handlers of all events run, in order; or nothing at all runs
  after the first handler that fails or panics, and the transaction is rolled back. Its rows become visible all at one
  step, or never (`UnitOfWork.UnitOfWork.Do`, and for good: `RelayProtocol.EndDecides`). `Do` returns nil iff the body
  did and COMMIT was acknowledged; if the acknowledgement is lost it returns an error although the rows are visible.
  Each handler called does exactly what its actions say (`EventBus.EveryHandlerActs`). What a failing or panicking handler
  amounts to depends on the middleware around it: recovery is innermost, so every layer sees a panic as an error, and
  one that swallows errors swallows it (`EventBus.LayersPass`).
- **End to end.** A message is lost for a consumer, that is closed for the broker while it is neither handled nor
  dead-lettered, by exactly three moves: a Term for it arrives, the broker gives up on it, or an ack arrives of a
  consumer that found no handler for it (`EndToEnd.LostIff`, `EndToEnd.RunLostIff`). Four kinds of event lead there, if
  they hit such a message: a dead-letter write that fails (the code logs it and terminates the message anyway), the
  death of the eleventh delivery before it comes to a decision, AckWait running out on it, and the lookup of a message
  that only a wildcard covers. Without them nothing is lost (`EndToEnd.Conservation`), and what is not settled yet can
  still be (`EndToEnd.CanSettle`). Being handled or dead-lettered is no matter of bookkeeping: it means that a move of
  the run was the return of nil by a handler called for the message, or the saving of its row
  (`EndToEnd.HistoryTells`, `EndToEnd.LostInMoves`). One of the four events need not lose the message, if its reply is
  lost or another delivery is still at work, but leaves it where a reply that arrives, or the broker giving up, loses
  it (`EndToEnd.ConservedIffBenign`, `EndToEnd.ConservedIff`). A message can be both handled and dead-lettered; the
  code does not exclude it.
- **Metadata.** A delivery whose metadata cannot be read is terminated; it gets a dead-letter row only if its envelope
  decodes (`QueueSubscriber.HandleMessage`). The relay's envelopes always do.
- **Retry schedule.** The ten delays add up to 592565 seconds, about 6.86 days; the comment in the source says about
  5.5 days. Deliveries are counted from 1; a count of 0 would index the schedule at -1.
- **Key cache.** A fetch that fails leaves the old cache whole, unless it fails only in closing the response body: the
  cache has been replaced by then although `fetchKeys` returns an error (`Jwks.FailedFetchKeepsCache`).
- **Durable names** collide iff two subjects, cut at dots and hyphens, have the same pieces once their wildcards are
  spelled out as "wild" and "all" (`Subjects.CollisionIff`). They are unique on subjects made of `*`, `>` and literals
  without `-`, `.`, `*`, `>` other than "wild" and "all", and on no larger set.
- **Wildcard queue registrations.** The subscriber looks handlers up by the message's own subject, so a handler
  registered under a wildcard is not called for a task on a plain subject (`QueueRouting.OwnHandlerIff`). Its consumer
  receives the task nevertheless, and calls the handler of the plain subject once more, or acks the message unhandled
  if there is none (`QueueRouting.TimesHandled`).
- **SQS.** One record whose key cannot be decoded deletes the message, undispatched records included
  (`SqsPoller.UndecodableKeyDropsMessage`). A deleted message has had all events of its good records dispatched iff all
  its keys decode or it has no good record (`SqsPoller.NothingDroppedIff`).
- **Admin role.** The role lowercases the service name and permissions do not, so an admin passes for a service's
  permissions iff the name is configured in lower case (`Authorization.AdminCoversService`).

Assumptions: message ids minted by the outbox are never reused; updates by message id and commits are atomic; the clock
of the JWKS cache is monotone; the stream keeps its messages (the source relies on a retention by age that outlasts
them); units of work are flat, since `Do` always starts from the root handle.

## Model

| member | source | states |
|---|---|---|
| Outbox.ListUnpublishedIds | concrete/gorm_outbox/repository.go:25-39 | the query returns the first ids, ascending, of the rows with neither flag, up to the limit, which falls back to 100 |
| Outbox.ListUnpublishedSpec | concrete/gorm_outbox/repository.go:25-39 | a returned row is pending, and no pending row below it is left out |
| Outbox.ListUnpublishedSize | concrete/gorm_outbox/repository.go:25-39 | it returns as many rows as are pending and the limit allows, where a limit that is not positive allows 100 |
| RelayProtocol.OneRowAffected | concrete/gorm_outbox/repository.go:41-72 | an UPDATE by message id hits exactly the row being treated |
| RelayProtocol.PendingAfter | concrete/gorm_outbox/relay.go:170-215 | pending rows are gained only by a commit and lost only, one at a time, by an effective mark or quarantine; crashes and failed statements change nothing |
| RelayProtocol.ColumnsAfter | concrete/gorm_outbox/repository.go:41-72 | an update that takes effect writes published_at, or error and failed_at, of the one row being treated, and nothing else |
| RelayProtocol.StepExtends | concrete/gorm_outbox/repository.go:41-72 | no step removes a visible row or changes its content, and the stream only grows |
| RelayProtocol.StepSafe | concrete/gorm_outbox/relay.go:160-222 | every step of every party keeps the protocol invariant |
| RelayProtocol.RunSafe | concrete/gorm_outbox/relay.go:160-222 | so does every run |
| RelayProtocol.AtLeastOnce | concrete/gorm_outbox/relay.go:171-209 | in every reachable state a row is exactly one of pending, published, quarantined; published rows are on the stream; only rows that cannot be marshalled are quarantined; the stream holds committed rows only |
| RelayProtocol.NothingUncommitted | concrete/gorm_outbox/storage.go:25-46 | a row of an open transaction is neither visible nor on the stream |
| RelayProtocol.EndDecides | concrete/persistence/uow/uow.go:35-39 | after COMMIT, a refused COMMIT or ROLLBACK the transaction is closed, and in every state that may follow its rows are visible, with their content, iff it was a COMMIT; otherwise no message of theirs is ever on the stream |
| StreamOrder.StepInLine | concrete/gorm_outbox/relay.go:160-222 | a step keeps the stream an in-order, gap-free, duplicate-free one iff it is not a commit of a sendable row below a sent one, nor the storing of a message already there or above a sendable row that is not |
| StreamOrder.RunInLine | concrete/gorm_outbox/relay.go:160-222 | a run has such a stream all the time iff no step of it is one of these |
| StreamOrder.InLineIffPrefix | concrete/gorm_outbox/relay.go:160-222 | such a stream is exactly a prefix of the ideal one |
| StreamOrder.StepOrdered | concrete/gorm_outbox/relay.go:160-222 | from a state whose stream is in line and whose listed batches have no gaps, a step keeps both iff a commit reveals in order and a re-publish falls inside the window |
| StreamOrder.GapBreaksLine | concrete/gorm_outbox/relay.go:160-222 | from a state with a gap in a listed batch, its relay going on without any fault puts the stream out of line |
| StreamOrder.RunOrdered | concrete/gorm_outbox/relay.go:160-222 | a run keeps stream and batches in order throughout iff each of its steps meets the two conditions |
| StreamOrder.StreamRefinement | concrete/gorm_outbox/relay.go:160-222 | under them the stream is a duplicate-free prefix of the sendable committed rows in id order, for any number of relays and all faults |
| StreamOrder.StreamComplete | concrete/gorm_outbox/relay.go:160-222 | and it is all of them when nothing is pending |
| StreamOrder.VisibleInIdOrder | concrete/gorm_outbox/event.go:16 | rows becoming visible in id order satisfy the commit condition |
| StreamOrder.VisibleInOrderRefines | concrete/gorm_outbox/relay.go:160-222 | in every run in which rows become visible in id order and re-publishes fall inside the window, the stream is the duplicate-free prefix in id order |
| StreamLimits.CommitOrderMatters | concrete/gorm_outbox/event.go:16 | a run in which a later id commits first puts the stream out of order |
| StreamLimits.WindowMatters | concrete/gorm_outbox/relay.go:201-209 | a lost reply followed by a lapsed window puts a message on the stream twice |
| Deployments.Deployment.Interfere | concrete/gorm_outbox/relay.go:160-222 | other parties may take any steps, none of which moves this relay or touches this transaction's rows; without a commit or an effective update the table stays as it is |
| Deployments.Deployment.ListUnpublished | concrete/gorm_outbox/repository.go:25-39 | the query as a step that lists, or one that fails without effect, as the database answers |
| Deployments.Deployment.Publish | concrete/gorm_outbox/relay.go:189-199 | the publish ends as the broker answers, and only an acknowledged one lets the relay go on |
| Deployments.Deployment.MarkPublished | concrete/gorm_outbox/repository.go:41-53 | exactly if the database applies it the row leaves the pending ones; an error may also follow an update that was applied |
| Deployments.Deployment.Quarantine | concrete/gorm_outbox/repository.go:57-72 | likewise for failed_at |
| RelayDrain.Relay.Drain | concrete/gorm_outbox/relay.go:160-222 | for all answers of database and broker, and whatever others do: the pass takes the statements of its script and no others; it fails iff the query fails or some well-formed row of its batch is not acknowledged, and else is busy iff its batch was full; the well-formed rows it is done with are on the stream; without commits and updates of others it lists the lowest pending rows and takes off the pending ones exactly those it is done with whose update took effect |
| RelayDrain.Relay.Treat | concrete/gorm_outbox/relay.go:170-221 | the loop over the batch, up to the first row whose publish is not acknowledged |
| RelayDrain.Relay.TreatRow | concrete/gorm_outbox/relay.go:170-215 | a malformed row is quarantined, a well-formed one published and, if that is acknowledged, marked; the batch stops iff it is not |
| RelayDrain.Relay.MarkRow | concrete/gorm_outbox/relay.go:201-209 | a failed mark is skipped and the pass goes on |
| RelayDrain.Relay.Loop | concrete/gorm_outbox/relay.go:131-158 | each pass fails iff its query or a publish of its batch does, and the loop then waits 5 s; after another it goes on at once if the batch was full and else waits 100 ms; without faults, and without commits and updates of others, N pending rows are gone after N/100 + 1 passes, the last of which is idle and all others busy |
| EventBus.Snapshot | concrete/inmem_event/bus.go:54-78 | a Publish call runs, one after another in subscription order, the handlers subscribed before it began, whatever handlers subscribe or publish meanwhile; all of them if it returns nil, else nothing happens after the first that does not return nil; and what each returned is explained by how its handler ended |
| EventBus.OutermostFirst | concrete/inmem_event/bus.go:44-52 | the middleware is entered outermost first, and then the handler is called |
| EventBus.RefusalStops | concrete/inmem_event/bus.go:44-52 | a layer that does not call its next is the last thing that is entered: nothing further in, and not the handler, runs |
| EventBus.HandlerEnds | concrete/inmem_event/bus.go:68-76 | a handler ends as it is to end, unless a publication of its own that failed stops it, and then not with nil |
| EventBus.HandlerActs | concrete/inmem_event/bus.go:68-76 | read off the log: what a handler does is its actions, one after another, each store and subscription one entry and each publication a Publish call, all of them unless a publication of its own stops it |
| EventBus.EveryHandlerActs | concrete/inmem_event/bus.go:81-88 | whatever is published, each handler called finishes, each that finishes was called, and in between it did just that |
| EventBus.PublishAllStores | concrete/inmem_event/bus.go:81-88 | if no handler called publishes, the rows stored are those that the called handlers are to store, call by call |
| EventBus.PublishOverflow | concrete/inmem_event/bus.go:54-78 | a call overflows only if handlers were nested as deep as the fuel allows, each of which then ended so, or if one was called that does so at will |
| EventBus.LayersPass | concrete/inmem_event/middleware.go:17-29 | if no layer refuses or panics: the layers are entered outermost first and the handler runs; nil stays nil, a panic is an error to every layer, an error is passed on as it is, and a layer that swallows errors swallows both |
| EventBus.PanicsAreRecovered | concrete/inmem_event/middleware.go:17-29 | a handler's panic is never a panic to its caller, whatever the layers do short of panicking themselves |
| EventBus.FailureShows | concrete/inmem_event/bus.go:54-88 | if all layers forward, a body that calls a handler that is to fail or panic does not return nil, and it never panics |
| EventBus.PublishAllInOrder | concrete/inmem_event/bus.go:81-88 | what happens is nothing but the Publish calls of the events in order, each begun where the one before was over; all return nil, or the last one ends with its failing handler and nothing follows |
| UnitOfWork.InMemoryBus.Wrap | concrete/inmem_event/bus.go:46-52 | the loop from the inside out builds the chain read from the outside in |
| UnitOfWork.InMemoryBus.Subscribe | concrete/inmem_event/bus.go:38-42 | appends the wrapped handler to the event's list |
| UnitOfWork.InMemoryBus.Publish | concrete/inmem_event/bus.go:54-78 | the loop with early exit equals the dispatch semantics of which the EventBus rows speak, and stored rows are in the ambient transaction |
| UnitOfWork.InMemoryBus.PublishAll | concrete/inmem_event/bus.go:81-88 | likewise over several events |
| UnitOfWork.Transaction.Insert | concrete/gorm_outbox/storage.go:25-46 | a stored draft becomes the next row of the open transaction, under a fresh message id and a higher row id, whatever others do meanwhile |
| UnitOfWork.UnitOfWork.Do | concrete/persistence/uow/uow.go:35-39 | among relays and other transactions, and for all answers to BEGIN and COMMIT: the body ran the handlers in order, each did what its actions say, and nothing ran after the first failure; the rows stored, if no handler publishes those of the handlers called, become visible by the one last step, all as pending rows, or never; Do returns nil iff the body did and COMMIT was acknowledged, and a body's failure as it is; the transaction is closed; if all layers forward, a handler that fails or panics makes it a rollback and an error |
| QueueConsumer.FirstOrCreate | concrete/nats/failed_message.go:42-48 | a save keeps existing rows and leaves a row with the id |
| QueueConsumer.SaveIsIdempotent | concrete/nats/failed_message.go:42-48 | over any sequence of saves ids stay unique and the first row of an id stays |
| QueueConsumer.ClampIsIdle | concrete/nats/queue_subscriber.go:218 | the schedule is indexed in bounds and its clamp never matters below the eleventh delivery |
| QueueConsumer.SettlesWithinMaxDeliver | concrete/nats/queue_subscriber.go:192-224 | a message is settled by the first delivery that does not ask for a retry, at the latest by the eleventh; earlier ones are Nak'd with the scheduled delays; it is acked iff handled, else it has one row |
| QueueConsumer.AlwaysRetriable | concrete/nats/queue_subscriber.go:24-50 | a task that always fails gets ten Naks with the delays 5 s to 259200 s, spelled out, 592565 s in all, and is terminated and buried at attempt 11 |
| QueueConsumer.FailedMessageRepository.Save | concrete/nats/failed_message.go:42-48 | first-or-create; if the write fails, an error and no effect |
| QueueConsumer.QueueSubscriber.Start | concrete/nats/queue_subscriber.go:96-122 | subscribes the router's subjects under "queues.", each once, up to the first whose subscription fails; an error iff there is one, which is then the queue subject it stopped at |
| QueueConsumer.QueueSubscriber.DeadLetter | concrete/nats/queue_subscriber.go:242-272 | writes the row of the envelope, field by field, with a minted id and JSON null where they are missing, unless the write fails |
| QueueConsumer.QueueSubscriber.HandleMessage | concrete/nats/queue_subscriber.go:153-225 | the handler called, the reply and the row of every kind of delivery, each spelled out: unreadable metadata, an undecodable envelope, no handler, nil, an application error, and a retriable one before and at the eleventh delivery; for every router and handler answer, and with and without a failing write |
| EndToEnd.LostIff | concrete/nats/queue_subscriber.go:153-272 | a move loses a message for a consumer iff, while it is neither handled nor dead-lettered (which the moves tell, see EndToEnd.HistoryTells), a Term for it arrives, the broker gives up, or an ack arrives of a consumer that found no handler |
| EndToEnd.RunLostIff | concrete/nats/queue_subscriber.go:153-272 | over a run nothing is ever lost iff no move of it is one of these three |
| EndToEnd.ConservedIff | concrete/nats/queue_subscriber.go:153-272 | the invariant holds exactly where nothing is lost and no arriving reply, nor giving up after the eleventh delivery is decided or dead, would lose a message |
| EndToEnd.ConservedIffBenign | concrete/nats/queue_subscriber.go:153-272 | a move keeps that invariant iff it is none of the four events on an unsettled message |
| EndToEnd.Conservation | concrete/nats/queue_subscriber.go:153-225 | in every state of a run without the four events: rows are classified, published rows are on the stream, every message is on its way to each consumer that covers it, once, and there can be delivered again, or its eleventh delivery is being worked on, or a call of its handler returned nil in some move, or its row was saved in one; a closed one is settled so, and if it has a handler an acked one was handled by such a call |
| EndToEnd.CanSettle | concrete/nats/queue_subscriber.go:153-225 | what is kept but not settled can still be: moves of its consumer alone lead to it being handled or having its row |
| EndToEnd.TerminatedHasRow | concrete/nats/queue_subscriber.go:242-272 | if all dead-letter writes succeed, every terminated message has its row |
| EndToEnd.HistoryTells | concrete/nats/queue_subscriber.go:153-272 | every reachable state is read off the moves that led to it: a message is handled iff in some move a handler called for it returned nil; deliveries are counted; one is in progress iff it neither was answered nor died, and where it stands, with delay, attempts and error, follows from its handler's outcome; the broker is done iff it gave up or a settling reply arrived; there is a row for an id iff one was saved, and for what reason |
| EndToEnd.LostInMoves | concrete/nats/queue_subscriber.go:153-272 | a message is lost for a consumer iff the broker is done with it and no move of the run handled it or saved its row |
| EndToEnd.DeadLettersAreCommitted | concrete/nats/queue_subscriber.go:242-272 | every dead-letter row carries the message id, the subject, the version and the payload of a committed outbox row |
| EndToEnd.FirstRowStays | concrete/nats/queue_subscriber.go:242-272 | through redeliveries and crashes a dead-letter row stays unchanged and the only one of its id |
| Jwks.ParseKeys | concrete/iam/validator.go:173-190 | each RSA kid maps to its last entry and nothing else is in the result; it fails iff some RSA entry is undecodable, naming the first |
| Jwks.KeySetUnique | concrete/iam/validator.go:173-190 | that determines the key set |
| Jwks.FailedFetchKeepsCache | concrete/iam/validator.go:156-195 | a failed fetch leaves every cache whole iff the response was not completely parsed |
| Jwks.Validator.FetchKeys | concrete/iam/validator.go:156-195 | replaces the cache all or nothing; fails iff the response is unusable or closing it fails |
| Jwks.Validator.GetKey | concrete/iam/validator.go:118-153 | one lookup by itself: a cached key is answered at once; with the last fetch less than a cooldown ago the lookup fails without one; otherwise it fetches, records the time, and answers from what it fetched |
| JwksConcurrency.RunInv | concrete/iam/validator.go:118-153 | lock ownership, fetched key sets and stamps are consistent in every reachable state |
| JwksConcurrency.OneFetch | concrete/iam/validator.go:126-127 | at most one fetch runs at a time |
| JwksConcurrency.OwnFetchAnswers | concrete/iam/validator.go:142-152 | a call that fetched answers from exactly what it fetched |
| JwksConcurrency.AnswersAreCached | concrete/iam/validator.go:118-153 | every answer but a fetch error is what the cache held for the kid at an instant inside the call |
| JwksConcurrency.StampsAreFetches | concrete/iam/validator.go:140-142 | the stamps are the instants at which fetches start |
| JwksConcurrency.RateBound | concrete/iam/validator.go:137-144 | N fetch starts within an interval of length T satisfy (N-1)*cooldown <= T, failed fetches included |
| JwksConcurrency.NotFoundIsCooldown | concrete/iam/validator.go:137-144 | a call that found no key without a fetch of its own had a fetch start less than a cooldown before an instant inside the call |
| JwksConcurrency.FailuresHaveReasons | concrete/iam/validator.go:137-152 | a call reports a failed fetch only after a fetch or a close of its own, inside the call, has failed |
| Subjects.DurableNameInjective | concrete/nats/subjects.go:16-19 | on the grammar distinct subjects have distinct names |
| Subjects.GrammarIsMaximal | concrete/nats/subjects.go:14-19 | a subject outside the grammar shares its name with one inside |
| Subjects.CollisionIff | concrete/nats/subjects.go:14-19 | names collide iff the subjects, cut at dots and hyphens, have the same pieces with their wildcards spelled out |
| Subjects.ExactlyOneConsumer | concrete/nats/event_subscriber.go:61-86 | each registered subject has one consumer across both subscribers and there are no others; its filter has the prefix iff it is a queue, its name is the app slug, a hyphen and the spelled-out pieces; consumers on the grammar have distinct names |
| EventConsumer.EventSubscriber.Start | concrete/nats/event_subscriber.go:61-86 | subscribes all other subjects in list order, up to the first whose subscription fails; an error iff there is one, which is then the subject it stopped at |
| QueueRouting.SubjectRoundTrip | concrete/outbox_queue/queue.go:31-45 | a task's row can be sent, its envelope carries the task's id, version, time and JSON, and a subscriber that receives it calls the handler registered under the composed subject, whose answer decides, or none, and acks |
| QueueRouting.MatchesIff | concrete/nats/queue_subscriber.go:101-110 | matching token by token equals the pointwise meaning of the two wildcards |
| QueueRouting.PlainFilterMatches | concrete/nats/queue_subscriber.go:101-110 | a wildcard-free filter matches its own subject only |
| QueueRouting.DeliveredToItsConsumers | concrete/nats/queue_subscriber.go:96-122 | a message is received by exactly the consumers whose registered subject covers its own, for any prefix and any registrations |
| QueueRouting.TimesHandled | concrete/messaging_router/router.go:42-49 | every covering registration receives the task once, and each receiver calls the handler of the task's own subject: at least one if it is registered, exactly one iff no other registration covers it, none if it is not |
| QueueRouting.OwnHandlerIff | concrete/messaging_router/router.go:42-49 | a receiving consumer calls its own registration's handler iff it was made for the task's very subject; a wildcard's consumer calls another handler, or none and acks |
| MessagingRouter.Router.Handle | concrete/messaging_router/router.go:42-49 | calls the handler of exactly this subject, or returns nil without calling any |
| MessagingRouter.Router.Register | concrete/messaging_router/router.go:27-32 | a duplicate registration panics and changes nothing |
| MessagingRouter.Router.Subjects | concrete/messaging_router/router.go:34-40 | every registered subject once |
| ObjectRouter.Router.Handle | concrete/objectstorage_router/router.go:25-35 | the exact registration wins, else the first match in the order of visits, and there is none iff nothing matches |
| ObjectRouter.MatchesIffCut | concrete/objectstorage_router/router.go:37-43 | a pattern matches an event name iff it is the name cut at one of its colons, with ":*" after it |
| ObjectRouter.AtMostOnePerColon | concrete/objectstorage_router/router.go:37-43 | at most one matching wildcard for each colon |
| ObjectRouter.OrderIrrelevant | concrete/objectstorage_router/router.go:25-35 | the choice is independent of the order iff the name is registered or at most one wildcard matches |
| ObjectRouter.OneColonSuffices | concrete/objectstorage_router/router.go:25-43 | so for every name with at most one colon |
| ObjectRouter.TwoColonsDoNot | concrete/objectstorage_router/router.go:25-43 | with two colons the choice can depend on the order |
| SqsPoller.ParseS3Records | concrete/sqs/poller.go:201-229 | parses iff the body is JSON, every key decodes and one is not empty; an undecodable key is reported as the first such one |
| SqsPoller.EventsAreRecords | concrete/sqs/poller.go:201-229 | the events are, field by field and in order, those of the records whose key is not empty, one each |
| SqsPoller.ProcessMessage | concrete/sqs/poller.go:158-187 | dispatches up to the first retriable error; deletes iff there is none or the body does not parse |
| SqsPoller.NoEventSkipped | concrete/sqs/poller.go:158-187 | over redeliveries a parsed message is deleted only by its last pass, which dispatched all its events in order and had each answered for good; every other pass dispatched them up to the first retriable error, or all with the delete failing |
| SqsPoller.UndecodableKeyDropsMessage | concrete/sqs/poller.go:207-212 | one undecodable key deletes the message without dispatching any event |
| SqsPoller.NothingDroppedIff | concrete/sqs/poller.go:158-229 | a deleted message had the events of all its good records dispatched iff all its keys decode or none of its records is good |
| Authorization.IsForStandardFlow | concrete/token_authorizer/authorizer.go:67-74 | all default scopes are among the scopes |
| Authorization.HasValidScope | concrete/token_authorizer/authorizer.go:77-88 | the loop decides whether some entry of the list is one of the four granting forms, spelled out |
| Authorization.GrantsSpelled | concrete/token_authorizer/authorizer.go:77-88 | an entry grants a permission iff it is the permission, its "admin:" form, or "<service>:*" or "admin:<service>:*" for what comes before its first colon |
| Authorization.Authorize | concrete/token_authorizer/authorizer.go:32-63 | the loops equal the set-based policy, including which denial comes first |
| Authorization.DecisionSpelled | concrete/token_authorizer/authorizer.go:32-63 | services and holders of the three default scopes pass; anybody else passes iff each permission is granted by a scope and by a permission held, and a missing scope is reported first |
| Authorization.Monotone | concrete/token_authorizer/authorizer.go:32-63 | more scopes or permissions never deny |
| Authorization.Splits | concrete/token_authorizer/authorizer.go:48-60 | requirements split over concatenation, a missing scope being reported first |
| Authorization.AdminCoversService | concrete/iam/iam.go:113-115 | for every lowercasing of characters that maps only the colon to the colon and keeps "admin", the admin role covers a service's permissions iff the service name is lower case |
| Authorization.AdminPasses | concrete/token_authorizer/authorizer.go:56-60 | an admin of a lower-case service passes the permission half for all its permissions |
| Authorization.Authenticator.ActorFor | concrete/iam/iam.go:163-198 | built actors are admins iff they hold the admin role; service actors hold nothing |
| Authorization.Authenticator.EnsureRoles | concrete/iam/iam.go:140-159 | completes missing roles and keeps that equivalence; errors leave the actor alone |

## Left out

- JSON, base64, URL and UUID decoding, RSA and SHA-256: values are tagged with whether they decode; signatures and the claim checks of `validate` are not modelled (the code accepts a token whose exp equals now).
- Database, NATS, SQS and HTTP clients: their calls are steps or methods, and how each ends is an input.
- Nested units of work: a nested `Do` is an independent transaction from the root handle.
- Handlers as Go closures: a handler is a script of stores, subscriptions and publications with an end, the same at every call, and cannot subscribe itself; nesting of publications is bounded by fuel, and running out of it stands for the fatal stack overflow. All statements hold for every fuel. A store that fails is a script that ends with its error instead.
- Middleware as Go closures: a layer forwards, swallows errors, refuses to call the next one, or panics after it.
- The stream's retention: messages are never removed from it.
- Concurrent use of the bus: its mutex is not modelled; subscriptions made by handlers during a dispatch are.
- The text of wrapped errors, logging, Sentry, and timestamps of dead-letter rows.
- `Relay.Start` and all `Stop` methods: a compare-and-swap, and shutdowns that may time out by design.
- The event subscriber's handling of one message: a three-way choice without retry limit or dead-letter row.
- RelayDrain.Relay.Loop: stops after a given number of passes, where the source stops when its context is cancelled.
- Configuration, runners, the worker registry, S3 storage, validators and the migrator: wrappers without state of interest.

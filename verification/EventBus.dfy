/**
 The in-memory event bus. A handler is modelled by what it does: it stores outbox rows, subscribes further handlers,
 publishes further events, and ends by returning or panicking. A handler that publishes may reach itself again without
 end; fuel bounds the nesting, and running out of it stands for the fatal stack overflow, which nothing recovers.
 */
module EventBus {
  import Outbox

  /** What a handler gives to the outbox; message id, time and row id are added when it is stored. */
  datatype Draft = Draft(subject: string, version: string, payload: Outbox.Payload)

  datatype Outcome = Nil | Err(cause: string) | Panic(reason: string) | Overflow

  datatype Action =
    | Store(row: Draft)
    | Subscribe(name: string, handler: Handler)
    | Publish(name: string, propagate: bool)

  datatype Handler = Handler(id: nat, actions: seq<Action>, ends: Outcome)

  /** What a middleware does around its next: pass the result on, drop an error, refuse to call next, or panic. */
  datatype Policy = Forward | Swallow | Refuse(cause: string) | Explode(reason: string)

  datatype Middleware = Middleware(id: nat, policy: Policy)

  /** A registered handler: the call goes through the layers from the outside in. */
  datatype Chain = Base(handler: Handler) | Recovered(next: Chain) | Through(layer: Middleware, next: Chain)

  /**
   What happened, in order. A dispatch, and how it ended, name their Publish call by the length that the log had when
   the call began.
   */
  datatype Entry =
    | Subscribed(name: string, handler: Handler)
    | Began(name: string)
    | Dispatched(call: nat, chain: Chain)
    | Returned(call: nat, outcome: Outcome)
    | Entered(layer: Middleware)
    | Called(handler: Handler)
    | Finished(handler: Handler, outcome: Outcome)
    | Stored(row: Draft)

  datatype Bus = Bus(mw: seq<Middleware>, routes: map<string, seq<Chain>>, log: seq<Entry>)
  {
    function Log(e: Entry): Bus {
      this.(log := log + [e])
    }

    function Route(name: string): seq<Chain> {
      if name in routes then routes[name] else []
    }
  }

  /** The chain of a handler, read from the outside: the middleware in order, then recovery, then the handler. */
  function Wrapped(mw: seq<Middleware>, h: Handler): Chain {
    if mw == [] then Recovered(Base(h)) else Through(mw[0], Wrapped(mw[1..], h))
  }

  // ---------------------------------------------------------------------------------------------------------------
  // Execution
  // ---------------------------------------------------------------------------------------------------------------

  function Register(b: Bus, name: string, h: Handler): Bus {
    b.(routes := b.routes[name := b.Route(name) + [Wrapped(b.mw, h)]]).Log(Subscribed(name, h))
  }

  function RunPublish(b: Bus, name: string, fuel: nat): (Bus, Outcome)
    decreases fuel, 3, 0
  {
    RunAll(b.Log(Began(name)), |b.log|, b.Route(name), fuel)
  }

  /** The rest of a snapshot, up to the first handler that does not return nil. */
  function RunAll(b: Bus, call: nat, handlers: seq<Chain>, fuel: nat): (Bus, Outcome)
    decreases fuel, 2, |handlers|
  {
    if handlers == [] then (b, Nil)
    else
      var (b', o) := RunChain(b.Log(Dispatched(call, handlers[0])), handlers[0], fuel);
      var b'' := b'.Log(Returned(call, o));
      if o.Nil? then RunAll(b'', call, handlers[1..], fuel) else (b'', o)
  }

  function RunChain(b: Bus, chain: Chain, fuel: nat): (Bus, Outcome)
    decreases fuel, 1, chain
  {
    match chain
    case Base(h) =>
      var (b', o) := RunHandler(b.Log(Called(h)), h.actions, h.ends, fuel);
      (b'.Log(Finished(h, o)), o)
    case Recovered(next) =>
      var (b', o) := RunChain(b, next, fuel);
      (b', Recover(o))
    case Through(layer, next) =>
      if layer.policy.Refuse? then (b.Log(Entered(layer)), Err(layer.policy.cause))
      else
        var (b', o) := RunChain(b.Log(Entered(layer)), next, fuel);
        (b', AfterLayer(layer.policy, o))
  }

  function Recover(o: Outcome): Outcome {
    if o.Panic? then Err("handler panicked: " + o.reason) else o
  }

  function AfterLayer(p: Policy, o: Outcome): Outcome {
    if o.Overflow? || o.Panic? then o
    else match p
      case Swallow => Nil
      case Explode(reason) => Panic(reason)
      case _ => o
  }

  function RunHandler(b: Bus, actions: seq<Action>, ends: Outcome, fuel: nat): (Bus, Outcome)
    decreases fuel, 0, |actions|
  {
    if actions == [] then (b, ends)
    else match actions[0]
      case Store(row) => RunHandler(b.Log(Stored(row)), actions[1..], ends, fuel)
      case Subscribe(name, h) => RunHandler(Register(b, name, h), actions[1..], ends, fuel)
      case Publish(name, propagate) =>
        if fuel == 0 then (b, Overflow)
        else
          var (b', o) := RunPublish(b, name, fuel - 1);
          if o.Nil? || (o.Err? && !propagate) then RunHandler(b', actions[1..], ends, fuel) else (b', o)
  }

  /** Events in order, up to the first one whose dispatch does not return nil; calls lists the Publish calls made. */
  function RunPublishAll(b: Bus, names: seq<string>, fuel: nat): (r: (Bus, Outcome, seq<nat>))
    decreases names
  {
    if names == [] then (b, Nil, [])
    else
      var (b', o) := RunPublish(b, names[0], fuel);
      if !o.Nil? then (b', o, [|b.log|])
      else
        var (b'', o', calls) := RunPublishAll(b', names[1..], fuel);
        (b'', o', [|b.log|] + calls)
  }

  // ---------------------------------------------------------------------------------------------------------------
  // What the log tells
  // ---------------------------------------------------------------------------------------------------------------

  /** The chains of the handlers subscribed to an event so far, in subscription order. */
  function Registered(mw: seq<Middleware>, log: seq<Entry>, name: string): seq<Chain> {
    if log == [] then []
    else
      var n := |log| - 1;
      Registered(mw, log[..n], name)
        + if log[n].Subscribed? && log[n].name == name then [Wrapped(mw, log[n].handler)] else []
  }

  /** What one Publish call did itself, in order: the dispatches and their ends. */
  function OfCall(log: seq<Entry>, call: nat): seq<Entry> {
    if log == [] then []
    else
      var n := |log| - 1;
      OfCall(log[..n], call) + if Own(log[n], call) then [log[n]] else []
  }

  predicate Own(e: Entry, call: int) {
    (e.Dispatched? || e.Returned?) && e.call == call
  }

  /** These handlers one after another: each returns before the next is called, all but the last return nil. */
  function Script(call: nat, chains: seq<Chain>, last: Outcome): (entries: seq<Entry>)
    ensures |entries| == 2 * |chains|
  {
    if chains == [] then []
    else
      [Dispatched(call, chains[0]), Returned(call, if |chains| == 1 then last else Nil)]
        + Script(call, chains[1..], last)
  }

  /** The rows stored, in order. */
  function Rows(log: seq<Entry>): seq<Draft> {
    if log == [] then []
    else
      var n := |log| - 1;
      Rows(log[..n]) + if log[n].Stored? then [log[n].row] else []
  }

  ghost predicate Consistent(b: Bus) {
    && (forall name :: b.Route(name) == Registered(b.mw, b.log, name))
    && (forall e | e in b.log && (e.Dispatched? || e.Returned?) :: e.call < |b.log|)
  }

  /** From b to b' no Publish call that had already begun went on, apart from `own`. */
  ghost predicate LaterBut(b: Bus, b': Bus, own: int) {
    && b'.mw == b.mw
    && b.log <= b'.log
    && Consistent(b')
    && forall call: nat | call < |b.log| && call != own :: OfCall(b'.log, call) == OfCall(b.log, call)
  }

  ghost predicate Later(b: Bus, b': Bus) {
    LaterBut(b, b', -1)
  }

  lemma Chained(a: Bus, b: Bus, c: Bus, own: int)
    requires LaterBut(a, b, own) && LaterBut(b, c, own)
    ensures LaterBut(a, c, own)
  {
  }

  lemma LogOther(b: Bus, e: Entry)
    requires Consistent(b) && !e.Subscribed? && !e.Dispatched? && !e.Returned?
    ensures Later(b, b.Log(e))
  {
    assert b.Log(e).log[..|b.log|] == b.log;
  }

  lemma LogOwn(b: Bus, e: Entry, call: nat)
    requires Consistent(b) && Own(e, call) && call < |b.log|
    ensures LaterBut(b, b.Log(e), call)
    ensures OfCall(b.Log(e).log, call) == OfCall(b.log, call) + [e]
  {
    assert b.Log(e).log[..|b.log|] == b.log;
  }

  lemma LogSubscription(b: Bus, name: string, h: Handler)
    requires Consistent(b)
    ensures Later(b, Register(b, name, h))
  {
    var b' := Register(b, name, h);
    assert b'.log[..|b.log|] == b.log;
    forall n ensures b'.Route(n) == Registered(b.mw, b'.log, n) {
      Subscription(b, name, h, n);
    }
  }

  lemma Subscription(b: Bus, name: string, h: Handler, n: string)
    requires b.Route(n) == Registered(b.mw, b.log, n)
    ensures Register(b, name, h).Route(n) == Registered(b.mw, Register(b, name, h).log, n)
  {
    assert Register(b, name, h).log[..|b.log|] == b.log;
  }

  /** No Publish call that has begun goes on while a handler runs, whatever that subscribes or publishes. */
  lemma {:induction false} ChainLater(b: Bus, chain: Chain, fuel: nat)
    requires Consistent(b)
    ensures Later(b, RunChain(b, chain, fuel).0)
    decreases fuel, 1, chain
  {
    match chain
    case Base(h) =>
      var b1 := b.Log(Called(h));
      LogOther(b, Called(h));
      HandlerLater(b1, h.actions, h.ends, fuel);
      var (b2, o) := RunHandler(b1, h.actions, h.ends, fuel);
      Chained(b, b1, b2, -1);
      LogOther(b2, Finished(h, o));
      Chained(b, b2, b2.Log(Finished(h, o)), -1);
    case Recovered(next) =>
      ChainLater(b, next, fuel);
    case Through(layer, next) =>
      LogOther(b, Entered(layer));
      if !layer.policy.Refuse? {
        var b1 := b.Log(Entered(layer));
        ChainLater(b1, next, fuel);
        Chained(b, b1, RunChain(b1, next, fuel).0, -1);
      }
  }

  /**
   How a handler ends: it does the same whatever its end is to be, and then either ends so, or was stopped, in both
   cases alike, by a publication of its own that failed and that it passes on.
   */
  lemma {:induction false} HandlerEnds(b: Bus, actions: seq<Action>, ends: Outcome, ends': Outcome, fuel: nat)
    ensures var r, r' := RunHandler(b, actions, ends, fuel), RunHandler(b, actions, ends', fuel);
            && r.0 == r'.0
            && ((r.1 == ends && r'.1 == ends') || (r.1 == r'.1 && !r.1.Nil? && exists a :: a in actions && a.Publish?))
    decreases |actions|
  {
    if actions != [] {
      match actions[0]
      case Store(row) => HandlerEnds(b.Log(Stored(row)), actions[1..], ends, ends', fuel);
      case Subscribe(name, h) => HandlerEnds(Register(b, name, h), actions[1..], ends, ends', fuel);
      case Publish(name, propagate) =>
        assert actions[0] in actions;
        if fuel > 0 {
          HandlerEnds(RunPublish(b, name, fuel - 1).0, actions[1..], ends, ends', fuel);
        }
    }
  }

  lemma {:induction false} HandlerLater(b: Bus, actions: seq<Action>, ends: Outcome, fuel: nat)
    requires Consistent(b)
    ensures Later(b, RunHandler(b, actions, ends, fuel).0)
    decreases fuel, 0, |actions|
  {
    if actions != [] {
      if actions[0].Publish? {
        NestedLater(b, actions, ends, fuel);
      } else {
        var b1 := if actions[0].Store? then b.Log(Stored(actions[0].row))
                  else Register(b, actions[0].name, actions[0].handler);
        if actions[0].Store? {
          LogOther(b, Stored(actions[0].row));
        } else {
          LogSubscription(b, actions[0].name, actions[0].handler);
        }
        HandlerLater(b1, actions[1..], ends, fuel);
        Chained(b, b1, RunHandler(b1, actions[1..], ends, fuel).0, -1);
      }
    }
  }

  lemma {:induction false} NestedLater(b: Bus, actions: seq<Action>, ends: Outcome, fuel: nat)
    requires Consistent(b) && actions != [] && actions[0].Publish?
    ensures Later(b, RunHandler(b, actions, ends, fuel).0)
    decreases fuel, 0, |actions|, 0
  {
    if fuel > 0 {
      PublishLater(b, actions[0].name, fuel - 1);
      var (b1, o) := RunPublish(b, actions[0].name, fuel - 1);
      if o.Nil? || (o.Err? && !actions[0].propagate) {
        HandlerLater(b1, actions[1..], ends, fuel);
        Chained(b, b1, RunHandler(b1, actions[1..], ends, fuel).0, -1);
      }
    }
  }

  lemma {:induction false} PublishLater(b: Bus, name: string, fuel: nat)
    requires Consistent(b)
    ensures Later(b, RunPublish(b, name, fuel).0)
    ensures |b.log| < |RunPublish(b, name, fuel).0.log|
    decreases fuel, 3, 0
  {
    LogOther(b, Began(name));
    AllLater(b.Log(Began(name)), |b.log|, b.Route(name), fuel);
  }

  lemma PublishKeeps(b: Bus, name: string, fuel: nat)
    requires Consistent(b)
    ensures var b1 := RunPublish(b, name, fuel).0; Consistent(b1) && b1.mw == b.mw && b.log <= b1.log
  {
    PublishLater(b, name, fuel);
  }

  /** No layer refuses to call the next one, and none panics. */
  predicate Passive(mw: seq<Middleware>) {
    forall m | m in mw :: !m.policy.Refuse? && !m.policy.Explode?
  }

  predicate Swallows(mw: seq<Middleware>) {
    exists m | m in mw :: m.policy.Swallow?
  }

  /**
   What the caller of a wrapped handler gets for the handler's own end: nil for nil, an error for a panic, because
   recovery comes before every layer, and an error as it is, unless a layer swallows it.
   */
  predicate Passes(mw: seq<Middleware>, own: Outcome, o: Outcome) {
    match own
    case Nil => o.Nil?
    case Overflow => o.Overflow?
    case Err(_) => if Swallows(mw) then o.Nil? else o == own
    case Panic(_) => if Swallows(mw) then o.Nil? else o.Err?
  }

  function Entries(mw: seq<Middleware>): seq<Entry> {
    if mw == [] then [] else [Entered(mw[0])] + Entries(mw[1..])
  }

  /**
   A wrapped handler, if no layer refuses or panics: all layers are entered, outermost first, then the handler runs, and
   what its caller gets is decided by its own end.
   */
  lemma {:induction false} LayersPass(b: Bus, mw: seq<Middleware>, h: Handler, fuel: nat)
    requires Passive(mw)
    ensures var called := b.(log := b.log + Entries(mw) + [Called(h)]);
            var own := RunHandler(called, h.actions, h.ends, fuel);
            var r := RunChain(b, Wrapped(mw, h), fuel);
            && r.0 == own.0.Log(Finished(h, own.1)) && Passes(mw, own.1, r.1)
            && (!h.ends.Nil? ==> !own.1.Nil?)
    decreases mw
  {
    var called := b.(log := b.log + Entries(mw) + [Called(h)]);
    HandlerEnds(called, h.actions, h.ends, Nil, fuel);
    if mw == [] {
      assert b.log + [] + [Called(h)] == b.Log(Called(h)).log;
      assert RunChain(b, Recovered(Base(h)), fuel).0 == RunChain(b, Base(h), fuel).0;
    } else {
      var b1 := b.Log(Entered(mw[0]));
      assert b1.(log := b1.log + Entries(mw[1..]) + [Called(h)]) == called;
      LayersPass(b1, mw[1..], h, fuel);
      SwallowsCons(mw);
    }
  }

  lemma SwallowsCons(mw: seq<Middleware>)
    requires mw != []
    ensures Swallows(mw) <==> mw[0].policy.Swallow? || Swallows(mw[1..])
  {
    assert forall m :: m in mw <==> m == mw[0] || m in mw[1..];
  }

  /**
   Why a dispatch of a call returned at position p what it did: the entry before is how its handler ended, and that
   decides. A handler that is to end with an error or a panic does not end with nil.
   */
  ghost predicate Explained(mw: seq<Middleware>, log: seq<Entry>, call: nat, p: nat)
    requires p < |log|
  {
    log[p].Returned? && log[p].call == call && Passive(mw) ==>
      && 0 < p && log[p - 1].Finished?
      && var h := log[p - 1].handler;
      && Passes(mw, log[p - 1].outcome, log[p].outcome)
      && (!h.ends.Nil? ==> !log[p - 1].outcome.Nil?)
      && var own := OfCall(log[..p], call);
      && own != [] && own[|own| - 1] == Dispatched(call, Wrapped(mw, h))
  }

  ghost predicate AllExplained(mw: seq<Middleware>, log: seq<Entry>, call: nat, from: nat, to: nat)
    requires to <= |log|
  {
    forall p | from <= p < to :: Explained(mw, log, call, p)
  }

  lemma ExplainedStays(mw: seq<Middleware>, log: seq<Entry>, log': seq<Entry>, call: nat, from: nat)
    requires log <= log' && AllExplained(mw, log, call, from, |log|)
    ensures AllExplained(mw, log', call, from, |log|)
  {
    forall p | from <= p < |log| ensures Explained(mw, log', call, p) {
      assert Explained(mw, log, call, p);
      assert log'[..p] == log[..p];
    }
  }

  /** While a call does not go on, nothing of it is logged. */
  lemma {:induction false} NothingOwn(log: seq<Entry>, log': seq<Entry>, call: nat)
    requires log <= log' && |OfCall(log', call)| <= |OfCall(log, call)|
    ensures OfCall(log', call) == OfCall(log, call)
    ensures forall p | |log| <= p < |log'| :: !Own(log'[p], call)
    decreases |log'|
  {
    if |log| < |log'| {
      OwnGrows(log, log'[..|log'| - 1], call);
      NothingOwn(log, log'[..|log'| - 1], call);
    } else {
      assert log == log';
    }
  }

  lemma {:induction false} OwnGrows(log: seq<Entry>, log': seq<Entry>, call: nat)
    requires log <= log'
    ensures |OfCall(log, call)| <= |OfCall(log', call)|
    decreases |log'|
  {
    if |log| < |log'| {
      OwnGrows(log, log'[..|log'| - 1], call);
    } else {
      assert log == log';
    }
  }

  /** The handler that this is the wrapping of. */
  ghost predicate IsWrapped(mw: seq<Middleware>, chain: Chain) {
    exists h :: chain == Wrapped(mw, h)
  }

  /** One handler of a call: dispatched, run, returned. */
  lemma OneRan(b: Bus, call: nat, chain: Chain, fuel: nat)
    requires Consistent(b) && call < |b.log|
    ensures var (b', o) := RunChain(b.Log(Dispatched(call, chain)), chain, fuel);
            var b'' := b'.Log(Returned(call, o));
            && LaterBut(b, b'', call)
            && OfCall(b''.log, call) == OfCall(b.log, call) + [Dispatched(call, chain), Returned(call, o)]
    decreases fuel, 2, 0
  {
    var b1 := b.Log(Dispatched(call, chain));
    LogOwn(b, Dispatched(call, chain), call);
    ChainLater(b1, chain, fuel);
    var (b2, o) := RunChain(b1, chain, fuel);
    Chained(b, b1, b2, call);
    LogOwn(b2, Returned(call, o), call);
    Chained(b, b2, b2.Log(Returned(call, o)), call);
  }

  lemma OneExplained(b: Bus, call: nat, chain: Chain, fuel: nat)
    requires Consistent(b) && call < |b.log| && IsWrapped(b.mw, chain)
    ensures var (b', o) := RunChain(b.Log(Dispatched(call, chain)), chain, fuel);
            var log := b'.Log(Returned(call, o)).log;
            AllExplained(b.mw, log, call, |b.log|, |log|)
    decreases fuel, 2, 0
  {
    var h :| chain == Wrapped(b.mw, h);
    var b1 := b.Log(Dispatched(call, chain));
    LogOwn(b, Dispatched(call, chain), call);
    ChainLater(b1, chain, fuel);
    var (b2, o) := RunChain(b1, chain, fuel);
    var log := b2.Log(Returned(call, o)).log;
    NothingOwn(b1.log, b2.log, call);
    if Passive(b.mw) {
      LayersPass(b1, b.mw, h, fuel);
    }
    forall p | |b.log| <= p < |log| ensures Explained(b.mw, log, call, p) {
      if p == |b.log| {
        assert log[p] == Dispatched(call, chain);
      } else if p < |b2.log| {
        assert log[p] == b2.log[p] && !Own(log[p], call);
      } else {
        assert log[..p] == b2.log;
      }
    }
  }

  lemma {:induction false} AllLater(b: Bus, call: nat, handlers: seq<Chain>, fuel: nat)
    requires Consistent(b) && call < |b.log|
    ensures LaterBut(b, RunAll(b, call, handlers, fuel).0, call)
    decreases fuel, 2, |handlers|
  {
    if handlers != [] {
      OneRan(b, call, handlers[0], fuel);
      var (b1, o) := RunChain(b.Log(Dispatched(call, handlers[0])), handlers[0], fuel);
      var b2 := b1.Log(Returned(call, o));
      if o.Nil? {
        AllLater(b2, call, handlers[1..], fuel);
        Chained(b, b2, RunAll(b2, call, handlers[1..], fuel).0, call);
      }
    }
  }

  /**
   What a call has left of its snapshot is worked off one handler after another: n of them, all if it returns nil, and
   otherwise the last thing that happened is that the n-th returned what the call returns.
   */
  lemma {:induction false} AllWorkedOff(b: Bus, call: nat, handlers: seq<Chain>, fuel: nat) returns (n: nat)
    requires Consistent(b) && call < |b.log|
    ensures WorkedOff(b, RunAll(b, call, handlers, fuel).0, call, handlers, n, RunAll(b, call, handlers, fuel).1)
    decreases |handlers|
  {
    if handlers == [] {
      n := 0;
      assert OfCall(b.log, call) + Script(call, handlers[..0], Nil) == OfCall(b.log, call);
    } else {
      OneRan(b, call, handlers[0], fuel);
      var (b1, o) := RunChain(b.Log(Dispatched(call, handlers[0])), handlers[0], fuel);
      var b2 := b1.Log(Returned(call, o));
      if o.Nil? {
        var m := AllWorkedOff(b2, call, handlers[1..], fuel);
        var (b3, o3) := RunAll(b2, call, handlers[1..], fuel);
        WorkedOffCons(b, b2, b3, call, handlers, m, o3);
        n := m + 1;
      } else {
        n := 1;
        WorkedOffOne(b, b2, call, handlers, o);
      }
    }
  }

  lemma {:induction false} RunAllExplained(b: Bus, call: nat, handlers: seq<Chain>, fuel: nat)
    requires Consistent(b) && call < |b.log| && forall c | c in handlers :: IsWrapped(b.mw, c)
    ensures var log := RunAll(b, call, handlers, fuel).0.log;
            b.log <= log && AllExplained(b.mw, log, call, |b.log|, |log|)
    decreases |handlers|
  {
    if handlers != [] {
      OneRan(b, call, handlers[0], fuel);
      assert handlers[0] in handlers;
      OneExplained(b, call, handlers[0], fuel);
      var (b1, o) := RunChain(b.Log(Dispatched(call, handlers[0])), handlers[0], fuel);
      var b2 := b1.Log(Returned(call, o));
      if o.Nil? {
        assert forall c | c in handlers[1..] :: c in handlers;
        RunAllExplained(b2, call, handlers[1..], fuel);
        ExplainedStays(b.mw, b2.log, RunAll(b2, call, handlers[1..], fuel).0.log, call, |b.log|);
      }
    }
  }

  /** If all layers just forward, a call returns nil only if all its handlers are to end with nil. */
  lemma {:induction false} RunAllNil(b: Bus, call: nat, handlers: seq<Chain>, fuel: nat, h: Handler)
    requires Consistent(b) && call < |b.log|
    requires Passive(b.mw) && !Swallows(b.mw) && RunAll(b, call, handlers, fuel).1.Nil?
    requires Wrapped(b.mw, h) in handlers
    ensures h.ends.Nil?
    decreases |handlers|
  {
    var b0 := b.Log(Dispatched(call, handlers[0]));
    var (b1, o) := RunChain(b0, handlers[0], fuel);
    if handlers[0] == Wrapped(b.mw, h) {
      LayersPass(b0, b.mw, h, fuel);
    } else {
      OneRan(b, call, handlers[0], fuel);
      RunAllNil(b1.Log(Returned(call, o)), call, handlers[1..], fuel, h);
    }
  }

  ghost predicate WorkedOff(b: Bus, b': Bus, call: nat, handlers: seq<Chain>, n: nat, o: Outcome) {
    && n <= |handlers|
    && OfCall(b'.log, call) == OfCall(b.log, call) + Script(call, handlers[..n], o)
    && (if o.Nil? then n == |handlers| else n > 0)
    && (if n == 0 then b' == b else b'.log != [] && b'.log[|b'.log| - 1] == Returned(call, o))
  }

  lemma WorkedOffOne(b: Bus, b1: Bus, call: nat, handlers: seq<Chain>, o: Outcome)
    requires handlers != [] && !o.Nil?
    requires OfCall(b1.log, call) == OfCall(b.log, call) + [Dispatched(call, handlers[0]), Returned(call, o)]
    requires b1.log != [] && b1.log[|b1.log| - 1] == Returned(call, o)
    ensures WorkedOff(b, b1, call, handlers, 1, o)
  {
    assert handlers[..1] == [handlers[0]];
    assert Script(call, handlers[..1][1..], o) == [];
  }

  lemma WorkedOffCons(b: Bus, b1: Bus, b2: Bus, call: nat, handlers: seq<Chain>, n: nat, o: Outcome)
    requires handlers != [] && WorkedOff(b1, b2, call, handlers[1..], n, o)
    requires OfCall(b1.log, call) == OfCall(b.log, call) + [Dispatched(call, handlers[0]), Returned(call, Nil)]
    requires b1.log != [] && b1.log[|b1.log| - 1] == Returned(call, Nil)
    ensures WorkedOff(b, b2, call, handlers, n + 1, o)
  {
    assert handlers[..n + 1][1..] == handlers[1..][..n];
  }

  lemma {:induction false} NothingOwnYet(log: seq<Entry>, call: nat)
    requires forall e | e in log :: !Own(e, call)
    ensures OfCall(log, call) == []
  {
    if log != [] {
      NothingOwnYet(log[..|log| - 1], call);
    }
  }

  /**
   How the Publish call that began at position `call` of the log went, if it was over at position `end`. Its handlers
   are the first n of those subscribed to the event before it began. They ran one after another, in that order, and
   each but the last returned nil. If the call returned nil these are all handlers; otherwise the last of them returned
   the call's own outcome, and nothing at all happened between that and `end`. What each returned is explained by how
   its handler ended; in particular, if all layers just forward and the call returned nil, no handler ends otherwise.
   */
  ghost predicate Ran(mw: seq<Middleware>, log: seq<Entry>, name: string, call: nat, end: nat, o: Outcome) {
    && call < end <= |log| && log[call] == Began(name)
    && var snapshot := Registered(mw, log[..call], name);
       var n := |OfCall(log, call)| / 2;
    && n <= |snapshot|
    && OfCall(log, call) == OfCall(log[..end], call) == Script(call, snapshot[..n], o)
    && (if o.Nil? then n == |snapshot| else n > 0)
    && (if n == 0 then end == call + 1 else log[end - 1] == Returned(call, o))
    && AllExplained(mw, log, call, call, end)
    && (o.Nil? && Passive(mw) && !Swallows(mw) ==> forall h | Wrapped(mw, h) in snapshot :: h.ends.Nil?)
  }

  /**
   Snapshot semantics, with handlers that subscribe and publish as they like: a Publish call runs the handlers that
   were subscribed to its event before it began, in subscription order, each in its wrapping; all of them if it returns
   nil, and otherwise nothing after the first that does not. Calls that had begun before do not go on meanwhile.
   */
  lemma Snapshot(b: Bus, name: string, fuel: nat)
    requires Consistent(b)
    ensures var (b', o) := RunPublish(b, name, fuel);
            Later(b, b') && Ran(b.mw, b'.log, name, |b.log|, |b'.log|, o)
  {
    PublishLater(b, name, fuel);
    LogOther(b, Began(name));
    var b1 := b.Log(Began(name));
    NothingOwnYet(b.log, |b.log|);
    assert b1.log[..|b.log|] == b.log;
    var n := AllWorkedOff(b1, |b.log|, b.Route(name), fuel);
    var (b2, o) := RunPublish(b, name, fuel);
    RegisteredWrapped(b.mw, b.log, name);
    RunAllExplained(b1, |b.log|, b.Route(name), fuel);
    forall h | o.Nil? && Passive(b.mw) && !Swallows(b.mw) && Wrapped(b.mw, h) in b.Route(name) ensures h.ends.Nil? {
      RunAllNil(b1, |b.log|, b.Route(name), fuel, h);
    }
    WorkedOffRan(b, b2, name, n, o);
  }

  lemma {:induction false} RegisteredWrapped(mw: seq<Middleware>, log: seq<Entry>, name: string)
    ensures forall c | c in Registered(mw, log, name) :: IsWrapped(mw, c)
  {
    if log != [] {
      RegisteredWrapped(mw, log[..|log| - 1], name);
    }
  }

  lemma WorkedOffRan(b: Bus, b': Bus, name: string, n: nat, o: Outcome)
    requires b.Log(Began(name)).log <= b'.log && OfCall(b.Log(Began(name)).log, |b.log|) == []
    requires b.Route(name) == Registered(b.mw, b.log, name)
    requires WorkedOff(b.Log(Began(name)), b', |b.log|, b.Route(name), n, o)
    requires AllExplained(b.mw, b'.log, |b.log|, |b.log| + 1, |b'.log|)
    requires o.Nil? && Passive(b.mw) && !Swallows(b.mw) ==> forall h | Wrapped(b.mw, h) in b.Route(name) :: h.ends.Nil?
    ensures Ran(b.mw, b'.log, name, |b.log|, |b'.log|, o)
  {
    assert b'.log[..|b.log|] == b.log && b'.log[..|b'.log|] == b'.log;
    assert OfCall(b'.log, |b.log|) == Script(|b.log|, b.Route(name)[..n], o);
    assert |OfCall(b'.log, |b.log|)| / 2 == n;
  }

  // ---------------------------------------------------------------------------------------------------------------
  // The layers around a handler
  // ---------------------------------------------------------------------------------------------------------------

  /** Unless one refuses, the layers are entered outermost first, and then the handler is called. */
  lemma {:induction false} OutermostFirst(b: Bus, mw: seq<Middleware>, h: Handler, fuel: nat)
    requires Consistent(b) && forall m | m in mw :: !m.policy.Refuse?
    ensures b.log + Entries(mw) + [Called(h)] <= RunChain(b, Wrapped(mw, h), fuel).0.log
    decreases mw
  {
    if mw == [] {
      LogOther(b, Called(h));
      HandlerLater(b.Log(Called(h)), h.actions, h.ends, fuel);
      assert RunChain(b, Recovered(Base(h)), fuel).0 == RunChain(b, Base(h), fuel).0;
      assert b.log + [] + [Called(h)] == b.Log(Called(h)).log;
    } else {
      LogOther(b, Entered(mw[0]));
      var b1 := b.Log(Entered(mw[0]));
      OutermostFirst(b1, mw[1..], h, fuel);
      assert b.log + Entries(mw) + [Called(h)] == b1.log + Entries(mw[1..]) + [Called(h)];
    }
  }

  /** A layer that refuses is the last thing that is entered: nothing further in, and not the handler, is called. */
  lemma {:induction false} RefusalStops(b: Bus, mw: seq<Middleware>, h: Handler, fuel: nat, j: nat)
    requires j < |mw| && mw[j].policy.Refuse? && forall i | 0 <= i < j :: !mw[i].policy.Refuse?
    ensures RunChain(b, Wrapped(mw, h), fuel).0 == b.(log := b.log + Entries(mw[..j + 1]))
    ensures !RunChain(b, Wrapped(mw, h), fuel).1.Overflow?
    decreases mw
  {
    var b1 := b.Log(Entered(mw[0]));
    if j == 0 {
      assert mw[..1] == [mw[0]] && Entries([mw[0]]) == [Entered(mw[0])] + Entries([mw[0]][1..]);
    } else {
      RefusalStops(b1, mw[1..], h, fuel, j - 1);
      assert mw[..j + 1][1..] == mw[1..][..j];
      assert b.log + Entries(mw[..j + 1]) == b1.log + Entries(mw[1..][..j]);
    }
  }

  /** A handler's panic never leaves its recovery: it reaches the caller only as an error, if no middleware panics. */
  lemma {:induction false} PanicsAreRecovered(b: Bus, mw: seq<Middleware>, h: Handler, fuel: nat)
    requires forall m | m in mw :: !m.policy.Explode?
    ensures !RunChain(b, Wrapped(mw, h), fuel).1.Panic?
    decreases mw
  {
    if mw != [] && !mw[0].policy.Refuse? {
      PanicsAreRecovered(b.Log(Entered(mw[0])), mw[1..], h, fuel);
    }
  }

  // ---------------------------------------------------------------------------------------------------------------
  // Several events
  // ---------------------------------------------------------------------------------------------------------------

  lemma {:induction false} InOfCall(log: seq<Entry>, call: nat, e: Entry)
    ensures e in OfCall(log, call) <==> e in log && Own(e, call)
  {
    if log != [] {
      var n := |log| - 1;
      assert e in log <==> e in log[..n] || e == log[n];
      InOfCall(log[..n], call, e);
    }
  }

  lemma {:induction false} InScript(call: nat, chains: seq<Chain>, last: Outcome, chain: Chain)
    ensures Dispatched(call, chain) in Script(call, chains, last) <==> chain in chains
    decreases chains
  {
    if chains != [] {
      InScript(call, chains[1..], last, chain);
      assert chain in chains <==> chain == chains[0] || chain in chains[1..];
    }
  }

  /** A handler that is to end with an error or a panic was dispatched by one of these calls. */
  ghost predicate FailingDispatched(mw: seq<Middleware>, log: seq<Entry>, calls: seq<nat>) {
    exists k, h :: 0 <= k < |calls| && Dispatched(calls[k], Wrapped(mw, h)) in log && !h.ends.Nil?
  }

  ghost predicate FailureShown(mw: seq<Middleware>, log: seq<Entry>, calls: seq<nat>, o: Outcome) {
    Passive(mw) ==>
      && !o.Panic?
      && (!Swallows(mw) && FailingDispatched(mw, log, calls) ==> !o.Nil?)
  }

  /**
   What a failing or panicking handler does to the whole, if all layers just forward: publishing does not return nil.
   And what it returns is never a panic, if no layer panics or refuses.
   */
  lemma FailureShows(mw: seq<Middleware>, log: seq<Entry>, names: seq<string>, from: nat, calls: seq<nat>, o: Outcome)
    requires InOrder(mw, log, names, from, calls, o)
    ensures FailureShown(mw, log, calls, o)
  {
    if !o.Nil? && Passive(mw) {
      var k := |calls| - 1;
      assert RanAt(mw, log, names, calls, o, k);
      assert Explained(mw, log, calls[k], |log| - 1);
    }
    if o.Nil? && Passive(mw) && !Swallows(mw) && FailingDispatched(mw, log, calls) {
      var k, h :| 0 <= k < |calls| && Dispatched(calls[k], Wrapped(mw, h)) in log && !h.ends.Nil?;
      assert RanAt(mw, log, names, calls, o, k);
      var snapshot := Registered(mw, log[..calls[k]], names[k]);
      InOfCall(log, calls[k], Dispatched(calls[k], Wrapped(mw, h)));
      assert snapshot[..|snapshot|] == snapshot;
      InScript(calls[k], snapshot, Nil, Wrapped(mw, h));
    }
  }

  /**
   The log from position `from` on is nothing but the Publish calls of these events, one begun where the one before was
   over. All of them returned nil, except that the last one returned o.
   */
  ghost predicate InOrder(
      mw: seq<Middleware>, log: seq<Entry>, names: seq<string>, from: nat, calls: seq<nat>, o: Outcome)
  {
    && |calls| <= |names| && (if o.Nil? then |calls| == |names| else calls != [])
    && from == (if calls == [] then |log| else calls[0])
    && forall k | 0 <= k < |calls| :: RanAt(mw, log, names, calls, o, k)
  }

  /** A call is over where the next one begins. */
  ghost predicate RanAt(
      mw: seq<Middleware>, log: seq<Entry>, names: seq<string>, calls: seq<nat>, o: Outcome, k: nat)
    requires k < |calls| && k < |names|
  {
    if k + 1 < |calls| then Ran(mw, log, names[k], calls[k], calls[k + 1], Nil)
    else Ran(mw, log, names[k], calls[k], |log|, o)
  }

  /**
   PublishAll runs every handler of every event, events in order, or stops inside the first event whose dispatch does
   not return nil: the calls before that one are complete, and nothing happens after its failing handler.
   */
  lemma {:induction false} PublishAllInOrder(b: Bus, names: seq<string>, fuel: nat)
    requires Consistent(b)
    ensures var (b', o, calls) := RunPublishAll(b, names, fuel);
            Later(b, b') && InOrder(b.mw, b'.log, names, |b.log|, calls, o)
    decreases names
  {
    if names != [] {
      Snapshot(b, names[0], fuel);
      var (b1, o) := RunPublish(b, names[0], fuel);
      if o.Nil? {
        PublishAllInOrder(b1, names[1..], fuel);
        var (b2, o', calls) := RunPublishAll(b1, names[1..], fuel);
        Chained(b, b1, b2, -1);
        RanStays(b.mw, b1.log, b2.log, names[0], |b.log|, Nil);
        InOrderCons(b.mw, b2.log, names, |b.log|, |b1.log|, calls, o');
      }
    }
  }

  /** What a call did is not changed by what comes later. */
  lemma RanStays(mw: seq<Middleware>, log: seq<Entry>, log': seq<Entry>, name: string, call: nat, o: Outcome)
    requires log <= log' && Ran(mw, log, name, call, |log|, o) && OfCall(log', call) == OfCall(log, call)
    ensures Ran(mw, log', name, call, |log|, o)
  {
    assert log'[..call] == log[..call] && log'[..|log|] == log;
    ExplainedStays(mw, log, log', call, call);
  }

  lemma InOrderCons(mw: seq<Middleware>, log: seq<Entry>, names: seq<string>, call: nat, end: nat, calls: seq<nat>,
                    o: Outcome)
    requires names != [] && Ran(mw, log, names[0], call, end, Nil)
    requires InOrder(mw, log, names[1..], end, calls, o)
    ensures InOrder(mw, log, names, call, [call] + calls, o)
  {
    var all := [call] + calls;
    forall k | 0 <= k < |all| ensures RanAt(mw, log, names, all, o, k) {
      if k > 0 {
        assert RanAt(mw, log, names[1..], calls, o, k - 1);
        RanAtCons(mw, log, names, call, calls, o, k - 1);
      }
    }
  }

  lemma RanAtCons(mw: seq<Middleware>, log: seq<Entry>, names: seq<string>, call: nat, calls: seq<nat>, o: Outcome,
                  k: nat)
    requires names != [] && k < |calls| && k < |names| - 1
    requires RanAt(mw, log, names[1..], calls, o, k)
    ensures RanAt(mw, log, names, [call] + calls, o, k + 1)
  {
    var all := [call] + calls;
    assert all[k + 1] == calls[k] && names[k + 1] == names[1..][k];
    if k + 1 < |calls| {
      assert all[k + 2] == calls[k + 1];
    }
  }

  // ---------------------------------------------------------------------------------------------------------------
  // What handlers do
  // ---------------------------------------------------------------------------------------------------------------

  /**
   From position `from` to its end, the log is what these actions do, one after another: a store and a subscription are
   one entry each, and a publication is a Publish call that begins there and is over where the next action begins. The
   actions end with `ends`, unless a publication stops them: it is nested too deep, or it does not return nil and is
   passed on, as everything but an error is.
   */
  ghost predicate Acted(
      mw: seq<Middleware>, log: seq<Entry>, from: nat, actions: seq<Action>, ends: Outcome, o: Outcome)
    decreases actions
  {
    from <= |log| &&
    if actions == [] then from == |log| && o == ends
    else match actions[0]
      case Store(row) =>
        from < |log| && log[from] == Stored(row) && Acted(mw, log, from + 1, actions[1..], ends, o)
      case Subscribe(name, h) =>
        from < |log| && log[from] == Subscribed(name, h) && Acted(mw, log, from + 1, actions[1..], ends, o)
      case Publish(name, propagate) =>
        || (from == |log| && o.Overflow?)
        || exists mid: nat, r ::
             && Ran(mw, log, name, from, mid, r)
             && if r.Nil? || (r.Err? && !propagate) then Acted(mw, log, mid, actions[1..], ends, o)
                else mid == |log| && o == r
  }

  lemma {:induction false} HandlerActs(b: Bus, actions: seq<Action>, ends: Outcome, fuel: nat)
    requires Consistent(b)
    ensures Acted(b.mw, RunHandler(b, actions, ends, fuel).0.log, |b.log|, actions, ends,
                  RunHandler(b, actions, ends, fuel).1)
    decreases |actions|
  {
    if actions != [] {
      match actions[0]
      case Store(row) =>
        LogOther(b, Stored(row));
        HandlerActs(b.Log(Stored(row)), actions[1..], ends, fuel);
        HandlerLater(b.Log(Stored(row)), actions[1..], ends, fuel);
        EntryActed(b, b.Log(Stored(row)), Stored(row), actions, ends, fuel);
      case Subscribe(name, h) =>
        LogSubscription(b, name, h);
        HandlerActs(Register(b, name, h), actions[1..], ends, fuel);
        HandlerLater(Register(b, name, h), actions[1..], ends, fuel);
        EntryActed(b, Register(b, name, h), Subscribed(name, h), actions, ends, fuel);
      case Publish(_, _) =>
        PublicationActs(b, actions, ends, fuel);
    }
  }

  lemma EntryActed(b: Bus, b1: Bus, e: Entry, actions: seq<Action>, ends: Outcome, fuel: nat)
    requires actions != [] && b1.mw == b.mw && b1.log == b.log + [e]
    requires match actions[0]
             case Store(row) => e == Stored(row)
             case Subscribe(name, h) => e == Subscribed(name, h)
             case Publish(_, _) => false
    requires var (b2, o) := RunHandler(b1, actions[1..], ends, fuel);
             && RunHandler(b, actions, ends, fuel) == (b2, o)
             && b1.log <= b2.log && Acted(b.mw, b2.log, |b1.log|, actions[1..], ends, o)
    ensures Acted(b.mw, RunHandler(b, actions, ends, fuel).0.log, |b.log|, actions, ends,
                  RunHandler(b, actions, ends, fuel).1)
  {
    var b2 := RunHandler(b1, actions[1..], ends, fuel).0;
    assert b2.log[|b.log|] == b1.log[|b.log|] == e;
  }

  lemma {:induction false} PublicationActs(b: Bus, actions: seq<Action>, ends: Outcome, fuel: nat)
    requires Consistent(b) && actions != [] && actions[0].Publish?
    ensures Acted(b.mw, RunHandler(b, actions, ends, fuel).0.log, |b.log|, actions, ends,
                  RunHandler(b, actions, ends, fuel).1)
    decreases |actions|, 0
  {
    if fuel > 0 {
      var (b1, r) := RunPublish(b, actions[0].name, fuel - 1);
      PublishKeeps(b, actions[0].name, fuel - 1);
      if r.Nil? || (r.Err? && !actions[0].propagate) {
        HandlerActs(b1, actions[1..], ends, fuel);
        RestRan(b, b1, r, actions[0].name, actions[1..], ends, fuel);
        GoesOn(b, b1, r, actions, ends, fuel);
      } else {
        Stops(b, b1, r, actions, ends, fuel);
      }
    }
  }

  lemma RestRan(b: Bus, b1: Bus, r: Outcome, name: string, rest: seq<Action>, ends: Outcome, fuel: nat)
    requires Consistent(b) && fuel > 0 && RunPublish(b, name, fuel - 1) == (b1, r)
    ensures Ran(b.mw, RunHandler(b1, rest, ends, fuel).0.log, name, |b.log|, |b1.log|, r)
  {
    PublishLater(b, name, fuel - 1);
    HandlerLater(b1, rest, ends, fuel);
    StillRan(b, name, fuel - 1, RunHandler(b1, rest, ends, fuel).0);
  }

  lemma StillRan(b: Bus, name: string, fuel: nat, later: Bus)
    requires Consistent(b) && Later(RunPublish(b, name, fuel).0, later)
    ensures var (b1, r) := RunPublish(b, name, fuel); Ran(b.mw, later.log, name, |b.log|, |b1.log|, r)
  {
    Snapshot(b, name, fuel);
    var (b1, r) := RunPublish(b, name, fuel);
    RanStays(b.mw, b1.log, later.log, name, |b.log|, r);
  }

  lemma GoesOn(b: Bus, b1: Bus, r: Outcome, actions: seq<Action>, ends: Outcome, fuel: nat)
    requires actions != [] && actions[0].Publish? && fuel > 0 && b1.mw == b.mw
    requires RunPublish(b, actions[0].name, fuel - 1) == (b1, r) && (r.Nil? || (r.Err? && !actions[0].propagate))
    requires Ran(b.mw, RunHandler(b1, actions[1..], ends, fuel).0.log, actions[0].name, |b.log|, |b1.log|, r)
    requires Acted(b1.mw, RunHandler(b1, actions[1..], ends, fuel).0.log, |b1.log|, actions[1..], ends,
                   RunHandler(b1, actions[1..], ends, fuel).1)
    ensures Acted(b.mw, RunHandler(b, actions, ends, fuel).0.log, |b.log|, actions, ends,
                  RunHandler(b, actions, ends, fuel).1)
  {
    assert RunHandler(b, actions, ends, fuel) == RunHandler(b1, actions[1..], ends, fuel);
  }

  lemma Stops(b: Bus, b1: Bus, r: Outcome, actions: seq<Action>, ends: Outcome, fuel: nat)
    requires Consistent(b) && actions != [] && actions[0].Publish? && fuel > 0
    requires RunPublish(b, actions[0].name, fuel - 1) == (b1, r) && !(r.Nil? || (r.Err? && !actions[0].propagate))
    ensures Acted(b.mw, RunHandler(b, actions, ends, fuel).0.log, |b.log|, actions, ends,
                  RunHandler(b, actions, ends, fuel).1)
  {
    Snapshot(b, actions[0].name, fuel - 1);
  }

  /** The handler called at position p finished at position q, and in between did what its actions say. */
  ghost predicate ActedBetween(mw: seq<Middleware>, log: seq<Entry>, p: nat, q: nat) {
    && p < q < |log| && log[p].Called? && log[q].Finished? && log[q].handler == log[p].handler
    && Acted(mw, log[..q], p + 1, log[p].handler.actions, log[p].handler.ends, log[q].outcome)
  }

  ghost predicate Finishes(mw: seq<Middleware>, log: seq<Entry>, p: nat) {
    exists q :: ActedBetween(mw, log, p, q)
  }

  ghost predicate WasCalled(mw: seq<Middleware>, log: seq<Entry>, from: nat, q: nat) {
    exists p :: from <= p && ActedBetween(mw, log, p, q)
  }

  /** Every handler called since position `from` did what its actions say, and finished. */
  ghost predicate AllActed(mw: seq<Middleware>, log: seq<Entry>, from: nat) {
    && (forall p | from <= p < |log| && log[p].Called? :: Finishes(mw, log, p))
    && (forall q | from <= q < |log| && log[q].Finished? :: WasCalled(mw, log, from, q))
  }

  lemma ActedStays(mw: seq<Middleware>, log: seq<Entry>, log': seq<Entry>, p: nat, q: nat)
    requires log <= log' && ActedBetween(mw, log, p, q)
    ensures ActedBetween(mw, log', p, q)
  {
    assert log'[..q] == log[..q];
  }

  lemma AllActedStays(mw: seq<Middleware>, log: seq<Entry>, log': seq<Entry>, from: nat)
    requires log <= log' && AllActed(mw, log, from)
    ensures forall p | from <= p < |log| && log'[p].Called? :: Finishes(mw, log', p)
    ensures forall q | from <= q < |log| && log'[q].Finished? :: WasCalled(mw, log', from, q)
  {
    forall p | from <= p < |log| && log'[p].Called? ensures Finishes(mw, log', p) {
      var q :| ActedBetween(mw, log, p, q);
      ActedStays(mw, log, log', p, q);
    }
    forall q | from <= q < |log| && log'[q].Finished? ensures WasCalled(mw, log', from, q) {
      var p :| from <= p && ActedBetween(mw, log, p, q);
      ActedStays(mw, log, log', p, q);
    }
  }

  lemma AllActedJoin(mw: seq<Middleware>, log: seq<Entry>, log': seq<Entry>, from: nat)
    requires from <= |log| && log <= log' && AllActed(mw, log, from) && AllActed(mw, log', |log|)
    ensures AllActed(mw, log', from)
  {
    AllActedStays(mw, log, log', from);
    forall q | from <= q < |log'| && log'[q].Finished? ensures WasCalled(mw, log', from, q) {
      if q >= |log| {
        var p :| |log| <= p && ActedBetween(mw, log', p, q);
      }
    }
  }

  lemma LogActed(b: Bus, e: Entry)
    requires !e.Called? && !e.Finished?
    ensures AllActed(b.mw, b.Log(e).log, |b.log|)
  {
  }

  lemma {:induction false} ChainActs(b: Bus, chain: Chain, fuel: nat)
    requires Consistent(b)
    ensures AllActed(b.mw, RunChain(b, chain, fuel).0.log, |b.log|)
    decreases fuel, 1, chain
  {
    match chain
    case Base(h) => BaseActs(b, h, fuel);
    case Recovered(next) => ChainActs(b, next, fuel);
    case Through(layer, next) =>
      LogOther(b, Entered(layer));
      LogActed(b, Entered(layer));
      if !layer.policy.Refuse? {
        var b1 := b.Log(Entered(layer));
        ChainLater(b1, next, fuel);
        ChainActs(b1, next, fuel);
        AllActedJoin(b.mw, b1.log, RunChain(b1, next, fuel).0.log, |b.log|);
      }
  }

  lemma {:induction false} BaseActs(b: Bus, h: Handler, fuel: nat)
    requires Consistent(b)
    ensures AllActed(b.mw, RunChain(b, Base(h), fuel).0.log, |b.log|)
    decreases fuel, 0, |h.actions| + 1
  {
    var b1 := b.Log(Called(h));
    LogOther(b, Called(h));
    HandlerLater(b1, h.actions, h.ends, fuel);
    HandlerActs(b1, h.actions, h.ends, fuel);
    HandlerCallsAct(b1, h.actions, h.ends, fuel);
    var (b2, o) := RunHandler(b1, h.actions, h.ends, fuel);
    var log, p, q := b2.Log(Finished(h, o)).log, |b.log|, |b2.log|;
    assert log[..q] == b2.log && ActedBetween(b.mw, log, p, q);
    AllActedStays(b.mw, b2.log, log, |b1.log|);
    AllActedAround(b.mw, log, p, q);
  }

  lemma AllActedAround(mw: seq<Middleware>, log: seq<Entry>, p: nat, q: nat)
    requires q == |log| - 1 && ActedBetween(mw, log, p, q)
    requires forall x | p < x < q && log[x].Called? :: Finishes(mw, log, x)
    requires forall y | p < y < q && log[y].Finished? :: WasCalled(mw, log, p + 1, y)
    ensures AllActed(mw, log, p)
  {
    forall y | p <= y < |log| && log[y].Finished? ensures WasCalled(mw, log, p, y) {
      if y < q {
        var x :| p < x && ActedBetween(mw, log, x, y);
      }
    }
  }

  /** The handlers that a handler's own publications call act as well. */
  lemma {:induction false} HandlerCallsAct(b: Bus, actions: seq<Action>, ends: Outcome, fuel: nat)
    requires Consistent(b)
    ensures AllActed(b.mw, RunHandler(b, actions, ends, fuel).0.log, |b.log|)
    decreases fuel, 0, |actions|
  {
    if actions != [] {
      match actions[0]
      case Store(row) =>
        LogOther(b, Stored(row));
        LogActed(b, Stored(row));
        HandlerCallsAct(b.Log(Stored(row)), actions[1..], ends, fuel);
        RestActs(b, b.Log(Stored(row)), actions[1..], ends, fuel);
      case Subscribe(name, h) =>
        LogSubscription(b, name, h);
        LogActed(b, Subscribed(name, h));
        HandlerCallsAct(Register(b, name, h), actions[1..], ends, fuel);
        RestActs(b, Register(b, name, h), actions[1..], ends, fuel);
      case Publish(name, propagate) =>
        if fuel > 0 {
          NestedCallsAct(b, name, propagate, actions, ends, fuel);
        }
    }
  }

  lemma {:induction false} NestedCallsAct(
      b: Bus, name: string, propagate: bool, actions: seq<Action>, ends: Outcome, fuel: nat)
    requires Consistent(b) && actions != [] && actions[0] == Publish(name, propagate) && fuel > 0
    ensures AllActed(b.mw, RunHandler(b, actions, ends, fuel).0.log, |b.log|)
    decreases fuel, 0, |actions|, 0
  {
    var (b1, r) := RunPublish(b, name, fuel - 1);
    PublishKeeps(b, name, fuel - 1);
    PublishActs(b, name, fuel - 1);
    if r.Nil? || (r.Err? && !propagate) {
      HandlerCallsAct(b1, actions[1..], ends, fuel);
      RestActs(b, b1, actions[1..], ends, fuel);
    }
  }

  lemma RestActs(b: Bus, b1: Bus, actions: seq<Action>, ends: Outcome, fuel: nat)
    requires Consistent(b1) && b1.mw == b.mw && b.log <= b1.log && AllActed(b.mw, b1.log, |b.log|)
    requires AllActed(b1.mw, RunHandler(b1, actions, ends, fuel).0.log, |b1.log|)
    ensures AllActed(b.mw, RunHandler(b1, actions, ends, fuel).0.log, |b.log|)
  {
    HandlerLater(b1, actions, ends, fuel);
    AllActedJoin(b.mw, b1.log, RunHandler(b1, actions, ends, fuel).0.log, |b.log|);
  }

  lemma {:induction false} PublishActs(b: Bus, name: string, fuel: nat)
    requires Consistent(b)
    ensures AllActed(b.mw, RunPublish(b, name, fuel).0.log, |b.log|)
    decreases fuel, 3, 0
  {
    var b1 := b.Log(Began(name));
    LogOther(b, Began(name));
    LogActed(b, Began(name));
    AllLater(b1, |b.log|, b.Route(name), fuel);
    AllHandlersAct(b1, |b.log|, b.Route(name), fuel);
    AllActedJoin(b.mw, b1.log, RunAll(b1, |b.log|, b.Route(name), fuel).0.log, |b.log|);
  }

  lemma {:induction false} AllHandlersAct(b: Bus, call: nat, handlers: seq<Chain>, fuel: nat)
    requires Consistent(b) && call < |b.log|
    ensures AllActed(b.mw, RunAll(b, call, handlers, fuel).0.log, |b.log|)
    decreases fuel, 2, |handlers|
  {
    if handlers != [] {
      OneHandlerActs(b, call, handlers[0], fuel);
      OneRan(b, call, handlers[0], fuel);
      var (b1, o) := RunChain(b.Log(Dispatched(call, handlers[0])), handlers[0], fuel);
      var b2 := b1.Log(Returned(call, o));
      if o.Nil? {
        AllLater(b2, call, handlers[1..], fuel);
        AllHandlersAct(b2, call, handlers[1..], fuel);
        AllActedJoin(b.mw, b2.log, RunAll(b2, call, handlers[1..], fuel).0.log, |b.log|);
      }
    }
  }

  lemma {:induction false} OneHandlerActs(b: Bus, call: nat, chain: Chain, fuel: nat)
    requires Consistent(b) && call < |b.log|
    ensures var (b', o) := RunChain(b.Log(Dispatched(call, chain)), chain, fuel);
            AllActed(b.mw, b'.Log(Returned(call, o)).log, |b.log|)
    decreases fuel, 2, 0, 0
  {
    var b1 := b.Log(Dispatched(call, chain));
    LogOwn(b, Dispatched(call, chain), call);
    LogActed(b, Dispatched(call, chain));
    ChainLater(b1, chain, fuel);
    ChainActs(b1, chain, fuel);
    var (b2, o) := RunChain(b1, chain, fuel);
    AllActedJoin(b.mw, b1.log, b2.log, |b.log|);
    LogActed(b2, Returned(call, o));
    AllActedJoin(b.mw, b2.log, b2.Log(Returned(call, o)).log, |b.log|);
  }

  /** Whatever is published, every handler that is called does what its actions say. */
  lemma {:induction false} EveryHandlerActs(b: Bus, names: seq<string>, fuel: nat)
    requires Consistent(b)
    ensures AllActed(b.mw, RunPublishAll(b, names, fuel).0.log, |b.log|)
    decreases names
  {
    if names != [] {
      PublishLater(b, names[0], fuel);
      PublishActs(b, names[0], fuel);
      var (b1, o) := RunPublish(b, names[0], fuel);
      if o.Nil? {
        PublishAllInOrder(b1, names[1..], fuel);
        EveryHandlerActs(b1, names[1..], fuel);
        AllActedJoin(b.mw, b1.log, RunPublishAll(b1, names[1..], fuel).0.log, |b.log|);
      }
    }
  }

  /** The rows that the actions store. */
  function RowsOf(actions: seq<Action>): seq<Draft> {
    if actions == [] then []
    else (if actions[0].Store? then [actions[0].row] else []) + RowsOf(actions[1..])
  }

  /** The rows that the handlers called in this stretch of the log are to store, call by call. */
  function RowsOfCalled(entries: seq<Entry>): seq<Draft> {
    Gathered(RowsOfCall, entries)
  }

  function RowsOfCall(e: Entry): seq<Draft> {
    if e.Called? then RowsOf(e.handler.actions) else []
  }

  function Gathered(of: Entry -> seq<Draft>, entries: seq<Entry>): seq<Draft> {
    if entries == [] then []
    else
      var n := |entries| - 1;
      Gathered(of, entries[..n]) + of(entries[n])
  }

  predicate Publishes(h: Handler) {
    exists a | a in h.actions :: a.Publish?
  }

  lemma {:induction false} StoredJoin(a: seq<Entry>, b: seq<Entry>)
    ensures Rows(a + b) == Rows(a) + Rows(b)
    decreases |b|
  {
    if b == [] {
      assert a + b == a;
    } else {
      var n := |b| - 1;
      StoredJoin(a, b[..n]);
      assert (a + b)[..|a + b| - 1] == a + b[..n] && (a + b)[|a + b| - 1] == b[n];
    }
  }

  lemma {:induction false} GatheredJoin(of: Entry -> seq<Draft>, a: seq<Entry>, b: seq<Entry>)
    ensures Gathered(of, a + b) == Gathered(of, a) + Gathered(of, b)
    decreases |b|
  {
    if b == [] {
      assert a + b == a;
    } else {
      var n := |b| - 1;
      GatheredJoin(of, a, b[..n]);
      assert (a + b)[..|a + b| - 1] == a + b[..n];
    }
  }

  lemma RowsJoin(a: seq<Entry>, b: seq<Entry>)
    ensures Rows(a + b) == Rows(a) + Rows(b)
    ensures RowsOfCalled(a + b) == RowsOfCalled(a) + RowsOfCalled(b)
  {
    StoredJoin(a, b);
    GatheredJoin(RowsOfCall, a, b);
  }

  /** If no handler called since position `from` publishes, exactly the rows that the called ones store were stored. */
  ghost predicate StoresAsCalled(log: seq<Entry>, from: nat)
    requires from <= |log|
  {
    NoneCalledPublishes(log, from) ==> Rows(log[from..]) == RowsOfCalled(log[from..])
  }

  predicate NoneCalledPublishes(log: seq<Entry>, from: nat)
    requires from <= |log|
  {
    forall e | e in log[from..] && e.Called? :: !Publishes(e.handler)
  }

  lemma StoresJoin(log: seq<Entry>, log': seq<Entry>, from: nat)
    requires from <= |log| && log <= log' && StoresAsCalled(log, from) && StoresAsCalled(log', |log|)
    ensures StoresAsCalled(log', from)
  {
    assert log'[from..] == log[from..] + log'[|log|..];
    RowsJoin(log[from..], log'[|log|..]);
  }

  lemma LogStores(b: Bus, e: Entry)
    requires !e.Called? && !e.Stored?
    ensures StoresAsCalled(b.Log(e).log, |b.log|)
  {
    assert b.Log(e).log[|b.log|..] == [e];
    assert Rows([e]) == Rows([e][..0]) && RowsOfCalled([e]) == RowsOfCalled([e][..0]);
  }

  /** What actions without publications log. */
  function ActEntries(actions: seq<Action>): seq<Entry>
    requires forall a | a in actions :: !a.Publish?
  {
    if actions == [] then []
    else
      [if actions[0].Store? then Stored(actions[0].row) else Subscribed(actions[0].name, actions[0].handler)]
        + ActEntries(actions[1..])
  }

  lemma {:induction false} HandlerLog(b: Bus, actions: seq<Action>, ends: Outcome, fuel: nat)
    requires forall a | a in actions :: !a.Publish?
    ensures RunHandler(b, actions, ends, fuel).0.log == b.log + ActEntries(actions)
    decreases |actions|
  {
    if actions != [] {
      var b1 := if actions[0].Store? then b.Log(Stored(actions[0].row))
                else Register(b, actions[0].name, actions[0].handler);
      HandlerLog(b1, actions[1..], ends, fuel);
      Regroup(b.log, ActEntries(actions)[0], ActEntries(actions[1..]));
    }
  }

  lemma Regroup(log: seq<Entry>, e: Entry, rest: seq<Entry>)
    ensures (log + [e]) + rest == log + ([e] + rest)
  {
  }

  lemma {:induction false} ActEntriesStore(actions: seq<Action>)
    requires forall a | a in actions :: !a.Publish?
    ensures Rows(ActEntries(actions)) == RowsOf(actions) && RowsOfCalled(ActEntries(actions)) == []
    decreases |actions|
  {
    if actions != [] {
      var e := ActEntries(actions)[0];
      RowsJoin([e], ActEntries(actions[1..]));
      ActEntriesStore(actions[1..]);
      OneEntry(e);
    }
  }

  lemma BaseStores(b: Bus, h: Handler, fuel: nat)
    requires Consistent(b)
    ensures var log := RunChain(b, Base(h), fuel).0.log; b.log <= log && StoresAsCalled(log, |b.log|)
  {
    var b1 := b.Log(Called(h));
    LogOther(b, Called(h));
    HandlerLater(b1, h.actions, h.ends, fuel);
    var (b2, o) := RunHandler(b1, h.actions, h.ends, fuel);
    var log := b2.Log(Finished(h, o)).log;
    var own := b2.log[|b1.log|..];
    assert log[|b.log|..] == [Called(h)] + own + [Finished(h, o)];
    if Publishes(h) {
      assert Called(h) in log[|b.log|..];
    } else {
      HandlerLog(b1, h.actions, h.ends, fuel);
      assert own == ActEntries(h.actions);
      CallStores(h, o);
    }
  }

  lemma CallStores(h: Handler, o: Outcome)
    requires forall a | a in h.actions :: !a.Publish?
    ensures var entries := [Called(h)] + ActEntries(h.actions) + [Finished(h, o)];
            Rows(entries) == RowsOf(h.actions) == RowsOfCalled(entries)
  {
    var own := ActEntries(h.actions);
    ActEntriesStore(h.actions);
    RowsJoin([Called(h)] + own, [Finished(h, o)]);
    RowsJoin([Called(h)], own);
    OneEntry(Called(h));
    OneEntry(Finished(h, o));
  }

  lemma OneEntry(e: Entry)
    ensures Rows([e]) == if e.Stored? then [e.row] else []
    ensures RowsOfCalled([e]) == RowsOfCall(e)
  {
    assert [e][..0] == [];
    assert Gathered(RowsOfCall, [e]) == Gathered(RowsOfCall, []) + RowsOfCall(e);
  }

  lemma {:induction false} ChainStores(b: Bus, chain: Chain, fuel: nat)
    requires Consistent(b)
    ensures var log := RunChain(b, chain, fuel).0.log; b.log <= log && StoresAsCalled(log, |b.log|)
    decreases chain
  {
    match chain
    case Base(h) => BaseStores(b, h, fuel);
    case Recovered(next) => ChainStores(b, next, fuel);
    case Through(layer, next) =>
      LogOther(b, Entered(layer));
      LogStores(b, Entered(layer));
      if !layer.policy.Refuse? {
        var b1 := b.Log(Entered(layer));
        ChainStores(b1, next, fuel);
        StoresJoin(b1.log, RunChain(b1, next, fuel).0.log, |b.log|);
      }
  }

  lemma {:induction false} AllHandlersStore(b: Bus, call: nat, handlers: seq<Chain>, fuel: nat)
    requires Consistent(b) && call < |b.log|
    ensures var log := RunAll(b, call, handlers, fuel).0.log; b.log <= log && StoresAsCalled(log, |b.log|)
    decreases |handlers|
  {
    if handlers == [] {
      assert b.log[|b.log|..] == [];
    } else {
      OneHandlerStores(b, call, handlers[0], fuel);
      OneRan(b, call, handlers[0], fuel);
      var (b1, o) := RunChain(b.Log(Dispatched(call, handlers[0])), handlers[0], fuel);
      var b2 := b1.Log(Returned(call, o));
      if o.Nil? {
        AllHandlersStore(b2, call, handlers[1..], fuel);
        StoresJoin(b2.log, RunAll(b2, call, handlers[1..], fuel).0.log, |b.log|);
      }
    }
  }

  lemma OneHandlerStores(b: Bus, call: nat, chain: Chain, fuel: nat)
    requires Consistent(b) && call < |b.log|
    ensures var (b', o) := RunChain(b.Log(Dispatched(call, chain)), chain, fuel);
            var log := b'.Log(Returned(call, o)).log;
            b.log <= log && StoresAsCalled(log, |b.log|)
  {
    var b0 := b.Log(Dispatched(call, chain));
    LogOwn(b, Dispatched(call, chain), call);
    LogStores(b, Dispatched(call, chain));
    ChainStores(b0, chain, fuel);
    var (b1, o) := RunChain(b0, chain, fuel);
    StoresJoin(b0.log, b1.log, |b.log|);
    LogStores(b1, Returned(call, o));
    StoresJoin(b1.log, b1.Log(Returned(call, o)).log, |b.log|);
  }

  /** Publishing to handlers that do not publish stores the rows of the handlers called, in the order of the calls. */
  lemma {:induction false} PublishAllStores(b: Bus, names: seq<string>, fuel: nat)
    requires Consistent(b)
    ensures var log := RunPublishAll(b, names, fuel).0.log; b.log <= log && StoresAsCalled(log, |b.log|)
    decreases names
  {
    if names == [] {
      assert b.log[|b.log|..] == [];
    } else {
      var b0 := b.Log(Began(names[0]));
      LogOther(b, Began(names[0]));
      LogStores(b, Began(names[0]));
      AllHandlersStore(b0, |b.log|, b.Route(names[0]), fuel);
      PublishLater(b, names[0], fuel);
      var (b1, o) := RunPublish(b, names[0], fuel);
      StoresJoin(b0.log, b1.log, |b.log|);
      if o.Nil? {
        PublishAllStores(b1, names[1..], fuel);
        StoresJoin(b1.log, RunPublishAll(b1, names[1..], fuel).0.log, |b.log|);
      }
    }
  }

  // ---------------------------------------------------------------------------------------------------------------
  // Nesting
  // ---------------------------------------------------------------------------------------------------------------

  /** The number of handlers that ended by overflow. */
  function Overflows(log: seq<Entry>): nat {
    if log == [] then 0
    else
      var n := |log| - 1;
      Overflows(log[..n]) + if log[n].Finished? && log[n].outcome.Overflow? then 1 else 0
  }

  /** An overflow ended so many handlers, one inside the other, unless it came at will; without one none was ended. */
  ghost predicate OverflowTold(log: seq<Entry>, log': seq<Entry>, depth: nat, o: Outcome) {
    if o.Overflow? then Overflows(log') == Overflows(log) + depth || AtWill(log') else Overflows(log') == Overflows(log)
  }

  /** A handler was called that is to end by overflow. */
  ghost predicate AtWill(log: seq<Entry>) {
    exists h: Handler :: h.ends.Overflow? && Called(h) in log
  }

  lemma OverflowsLog(b: Bus, e: Entry)
    ensures Overflows(b.Log(e).log) == Overflows(b.log) + if e.Finished? && e.outcome.Overflow? then 1 else 0
    ensures AtWill(b.log) ==> AtWill(b.Log(e).log)
  {
    assert b.Log(e).log[..|b.log|] == b.log;
  }

  lemma {:induction false} HandlerOverflow(b: Bus, actions: seq<Action>, ends: Outcome, fuel: nat)
    requires Consistent(b) && (ends.Overflow? ==> AtWill(b.log))
    ensures var (b', o) := RunHandler(b, actions, ends, fuel); OverflowTold(b.log, b'.log, fuel, o)
    decreases fuel, 0, |actions|
  {
    if actions != [] {
      match actions[0]
      case Store(row) =>
        LogOther(b, Stored(row));
        OverflowsLog(b, Stored(row));
        HandlerOverflow(b.Log(Stored(row)), actions[1..], ends, fuel);
      case Subscribe(name, h) =>
        LogSubscription(b, name, h);
        OverflowsLog(b, Subscribed(name, h));
        HandlerOverflow(Register(b, name, h), actions[1..], ends, fuel);
      case Publish(name, propagate) =>
        if fuel > 0 {
          NestedOverflow(b, name, propagate, actions, ends, fuel);
        }
    }
  }

  lemma {:induction false} NestedOverflow(
      b: Bus, name: string, propagate: bool, actions: seq<Action>, ends: Outcome, fuel: nat)
    requires Consistent(b) && actions != [] && actions[0] == Publish(name, propagate) && fuel > 0
    requires ends.Overflow? ==> AtWill(b.log)
    ensures var (b', o) := RunHandler(b, actions, ends, fuel); OverflowTold(b.log, b'.log, fuel, o)
    decreases fuel, 0, |actions|, 1
  {
    var (b1, o) := RunPublish(b, name, fuel - 1);
    PublishKeeps(b, name, fuel - 1);
    PublishOverflow(b, name, fuel - 1);
    if o.Nil? || (o.Err? && !propagate) {
      RestOverflow(b, b1, actions[1..], ends, fuel, o);
    }
  }

  lemma {:induction false} RestOverflow(b: Bus, b1: Bus, rest: seq<Action>, ends: Outcome, fuel: nat, o: Outcome)
    requires Consistent(b1) && b.log <= b1.log && !o.Overflow? && OverflowTold(b.log, b1.log, fuel, o)
    requires ends.Overflow? ==> AtWill(b.log)
    ensures var (b', o') := RunHandler(b1, rest, ends, fuel); OverflowTold(b.log, b'.log, fuel, o')
    decreases fuel, 0, |rest| + 1, 0
  {
    AtWillStays(b.log, b1.log);
    HandlerOverflow(b1, rest, ends, fuel);
    var (b2, o2) := RunHandler(b1, rest, ends, fuel);
    OverflowLater(b.log, b1.log, b2.log, fuel, o, o2);
  }

  lemma OverflowLater(a: seq<Entry>, b: seq<Entry>, c: seq<Entry>, depth: nat, o: Outcome, o': Outcome)
    requires !o.Overflow? && OverflowTold(a, b, depth, o) && OverflowTold(b, c, depth, o')
    ensures OverflowTold(a, c, depth, o')
  {
  }

  lemma AtWillStays(log: seq<Entry>, log': seq<Entry>)
    requires log <= log'
    ensures AtWill(log) ==> AtWill(log')
  {
  }

  lemma {:induction false} ChainOverflow(b: Bus, chain: Chain, fuel: nat)
    requires Consistent(b)
    ensures var (b', o) := RunChain(b, chain, fuel); OverflowTold(b.log, b'.log, fuel + 1, o)
    decreases fuel, 1, chain
  {
    match chain
    case Base(h) =>
      var b1 := b.Log(Called(h));
      LogOther(b, Called(h));
      OverflowsLog(b, Called(h));
      HandlerOverflow(b1, h.actions, h.ends, fuel);
      var (b2, o) := RunHandler(b1, h.actions, h.ends, fuel);
      OverflowsLog(b2, Finished(h, o));
    case Recovered(next) =>
      ChainOverflow(b, next, fuel);
    case Through(layer, next) =>
      LogOther(b, Entered(layer));
      OverflowsLog(b, Entered(layer));
      if !layer.policy.Refuse? {
        ChainOverflow(b.Log(Entered(layer)), next, fuel);
      }
  }

  lemma {:induction false} AllOverflow(b: Bus, call: nat, handlers: seq<Chain>, fuel: nat)
    requires Consistent(b) && call < |b.log|
    ensures var (b', o) := RunAll(b, call, handlers, fuel); OverflowTold(b.log, b'.log, fuel + 1, o)
    decreases fuel, 2, |handlers|
  {
    if handlers != [] {
      var b0 := b.Log(Dispatched(call, handlers[0]));
      LogOwn(b, Dispatched(call, handlers[0]), call);
      OverflowsLog(b, Dispatched(call, handlers[0]));
      ChainOverflow(b0, handlers[0], fuel);
      var (b1, o) := RunChain(b0, handlers[0], fuel);
      OverflowsLog(b1, Returned(call, o));
      if o.Nil? {
        OneRan(b, call, handlers[0], fuel);
        AllOverflow(b1.Log(Returned(call, o)), call, handlers[1..], fuel);
      }
    }
  }

  /**
   A Publish call overflows only if handlers really were nested as deep as the fuel allows, each of which then ended by
   overflow, or if a handler was called that does so at will.
   */
  lemma {:induction false} PublishOverflow(b: Bus, name: string, fuel: nat)
    requires Consistent(b)
    ensures var (b', o) := RunPublish(b, name, fuel); OverflowTold(b.log, b'.log, fuel + 1, o)
    decreases fuel, 3, 0
  {
    LogOther(b, Began(name));
    OverflowsLog(b, Began(name));
    AllOverflow(b.Log(Began(name)), |b.log|, b.Route(name), fuel);
  }
}

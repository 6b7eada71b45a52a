/**
 getKey under concurrency: any number of goroutines interleave at every lock, read of the cache, read of the clock and
 network call. fetchMu is held from its acquisition to the return; the cache itself is read and replaced atomically
 under mu. The clock is monotone.
 */
module JwksConcurrency {
  import opened Wrappers
  import opened Ordering
  import opened Jwks

  datatype Answer = Found(key: PublicKey) | NotFound | Failed

  /** Where a goroutine stands in getKey. fetched is the key set this call itself put into the cache. */
  datatype Pc =
    | First(kid: string)
    | Waiting(kid: string)
    | Second(kid: string)
    | Checking(kid: string)
    | Stamping(kid: string)
    | Fetching(kid: string)
    | Swapping(kid: string, parsed: Keys)
    | Closing(kid: string, fetched: Option<Keys>)
    | Third(kid: string, fetched: Option<Keys>)
    | Unlocking(kid: string, answer: Answer, fetched: Option<Keys>)
    | Done(kid: string, answer: Answer, fetched: Option<Keys>)
  {
    predicate Holding() {
      !First? && !Waiting? && !Done?
    }

    /** Between the stamp and the end of fetchKeys. */
    predicate InFetch() {
      Fetching? || Swapping? || Closing?
    }

    /** The answer is settled. */
    predicate Answering() {
      Unlocking? || Done?
    }
  }

  /** threads holds the calls in progress; stamps is the history of lastFetch. */
  datatype State = State(
    keys: Keys, holder: Option<nat>, lastFetch: Option<int>, now: int, threads: map<nat, Pc>, stamps: seq<int>)

  datatype Label =
    | Call(t: nat, kid: string)
    | Advance(t: nat)
    | FetchFails(t: nat)
    | FetchParses(t: nat, parsed: Keys)
    | CloseFails(t: nat)
    | Return(t: nat)
    | Tick(d: nat)

  function Lookup(keys: Keys, kid: string): Answer {
    if kid in keys then Found(keys[kid]) else NotFound
  }

  predicate Enabled(s: State, l: Label) {
    match l
    case Call(t, _) => t !in s.threads
    case Advance(t) =>
      && t in s.threads && !s.threads[t].Done? && !s.threads[t].Fetching?
      && (s.threads[t].Waiting? ==> s.holder.None?)
    case FetchFails(t) => t in s.threads && s.threads[t].Fetching?
    case FetchParses(t, _) => t in s.threads && s.threads[t].Fetching?
    case CloseFails(t) => t in s.threads && s.threads[t].Closing?
    case Return(t) => t in s.threads && s.threads[t].Done?
    case Tick(_) => true
  }

  function Move(s: State, t: nat, pc: Pc): State {
    s.(threads := s.threads[t := pc])
  }

  function Apply(cooldown: int, s: State, l: Label): State
    requires Enabled(s, l)
  {
    match l
    case Call(t, kid) => Move(s, t, First(kid))
    case Advance(t) => ApplyAdvance(cooldown, s, t)
    case FetchFails(t) => Move(s, t, Unlocking(s.threads[t].kid, Failed, None))
    case FetchParses(t, parsed) => Move(s, t, Swapping(s.threads[t].kid, parsed))
    case CloseFails(t) => Move(s, t, Unlocking(s.threads[t].kid, Failed, s.threads[t].fetched))
    case Return(t) => s.(threads := s.threads - {t})
    case Tick(d) => s.(now := s.now + d)
  }

  function ApplyAdvance(cooldown: int, s: State, t: nat): State
    requires Enabled(s, Advance(t))
  {
    match s.threads[t]
    case First(kid) =>
      Move(s, t, if kid in s.keys then Done(kid, Found(s.keys[kid]), None) else Waiting(kid))
    case Waiting(kid) => Move(s.(holder := Some(t)), t, Second(kid))
    case Second(kid) =>
      Move(s, t, if kid in s.keys then Unlocking(kid, Found(s.keys[kid]), None) else Checking(kid))
    case Checking(kid) =>
      Move(s, t, if TooSoon(s.lastFetch, s.now, cooldown) then Unlocking(kid, NotFound, None) else Stamping(kid))
    case Stamping(kid) => Move(s.(lastFetch := Some(s.now), stamps := s.stamps + [s.now]), t, Fetching(kid))
    case Swapping(kid, parsed) => Move(s.(keys := parsed), t, Closing(kid, Some(parsed)))
    case Closing(kid, fetched) => Move(s, t, Third(kid, fetched))
    case Third(kid, fetched) => Move(s, t, Unlocking(kid, Lookup(s.keys, kid), fetched))
    case Unlocking(kid, answer, fetched) => Move(s.(holder := None), t, Done(kid, answer, fetched))
    case _ => s
  }

  function Initial(now: int): State {
    State(map[], None, None, now, map[], [])
  }

  /** run[i] is the state after the first i labels. */
  ghost predicate IsRun(cooldown: int, run: seq<State>, ls: seq<Label>) {
    && |run| == |ls| + 1
    && run[0] == Initial(run[0].now)
    && forall i | 0 <= i < |ls| :: Enabled(run[i], ls[i]) && run[i + 1] == Apply(cooldown, run[i], ls[i])
  }

  // ---------------------------------------------------------------------------------------------------------------
  // The invariant
  // ---------------------------------------------------------------------------------------------------------------

  predicate LockOk(s: State) {
    && (forall t | t in s.threads && s.threads[t].Holding() :: s.holder == Some(t))
    && (s.holder.Some? ==> s.holder.value in s.threads && s.threads[s.holder.value].Holding())
  }

  /** While a call is between its own swap and its final read, the cache is what it swapped in. */
  predicate FetchedOk(s: State) {
    forall t | t in s.threads :: match s.threads[t]
      case Closing(_, fetched) => fetched == Some(s.keys)
      case Third(_, fetched) => fetched == Some(s.keys)
      case Unlocking(kid, answer, Some(fetched)) => answer.Failed? || answer == Lookup(fetched, kid)
      case Done(kid, answer, Some(fetched)) => answer.Failed? || answer == Lookup(fetched, kid)
      case _ => true
  }

  /** Consecutive stamps are a cooldown apart, and the last one is lastFetch. */
  predicate Spaced(cooldown: int, s: State) {
    && (s.lastFetch.None? <==> s.stamps == [])
    && (s.stamps != [] ==> s.lastFetch == Some(s.stamps[|s.stamps| - 1]) && s.stamps[|s.stamps| - 1] <= s.now)
    && (forall i | 0 <= i < |s.stamps| - 1 ::
          s.stamps[i] <= s.stamps[i + 1] && s.stamps[i + 1] - s.stamps[i] >= cooldown)
  }

  /** A call about to stamp has seen the cooldown pass, and it stays passed. */
  predicate MayStamp(cooldown: int, s: State) {
    forall t | t in s.threads && s.threads[t].Stamping? :: !TooSoon(s.lastFetch, s.now, cooldown)
  }

  predicate StampsOk(cooldown: int, s: State) {
    Spaced(cooldown, s) && MayStamp(cooldown, s)
  }

  predicate Inv(cooldown: int, s: State) {
    LockOk(s) && FetchedOk(s) && StampsOk(cooldown, s)
  }

  lemma StepLock(cooldown: int, s: State, l: Label)
    requires LockOk(s) && Enabled(s, l)
    ensures LockOk(Apply(cooldown, s, l))
  {
  }

  lemma StepFetched(cooldown: int, s: State, l: Label)
    requires LockOk(s) && FetchedOk(s) && Enabled(s, l)
    ensures FetchedOk(Apply(cooldown, s, l))
  {
    var s' := Apply(cooldown, s, l);
    if s'.keys != s.keys {
      // Only the holder of fetchMu swaps, and nobody else is past the lock.
      assert s.holder == Some(l.t);
      forall t | t in s.threads && t != l.t ensures !s.threads[t].Holding() {}
    }
  }

  lemma StepSpaced(cooldown: int, s: State, l: Label)
    requires StampsOk(cooldown, s) && Enabled(s, l)
    ensures Spaced(cooldown, Apply(cooldown, s, l))
  {
    if l.Advance? && s.threads[l.t].Stamping? {
      assert Apply(cooldown, s, l).stamps == s.stamps + [s.now];
    }
  }

  lemma StepMayStamp(cooldown: int, s: State, l: Label)
    requires LockOk(s) && MayStamp(cooldown, s) && Enabled(s, l)
    ensures MayStamp(cooldown, Apply(cooldown, s, l))
  {
    if l.Advance? && s.threads[l.t].Stamping? {
      assert s.holder == Some(l.t);
      forall t | t in s.threads && t != l.t ensures !s.threads[t].Stamping? {}
    }
  }

  lemma {:induction false} RunInv(cooldown: int, run: seq<State>, ls: seq<Label>, n: nat)
    requires IsRun(cooldown, run, ls) && n <= |ls|
    ensures Inv(cooldown, run[n])
    decreases n
  {
    if n > 0 {
      RunInv(cooldown, run, ls, n - 1);
      StepLock(cooldown, run[n - 1], ls[n - 1]);
      StepFetched(cooldown, run[n - 1], ls[n - 1]);
      StepSpaced(cooldown, run[n - 1], ls[n - 1]);
      StepMayStamp(cooldown, run[n - 1], ls[n - 1]);
    }
  }

  // ---------------------------------------------------------------------------------------------------------------
  // The theorems
  // ---------------------------------------------------------------------------------------------------------------

  /** At most one fetch runs at a time. */
  lemma OneFetch(cooldown: int, run: seq<State>, ls: seq<Label>, n: nat, t: nat, u: nat)
    requires IsRun(cooldown, run, ls) && n <= |ls|
    requires t in run[n].threads && run[n].threads[t].InFetch()
    requires u in run[n].threads && run[n].threads[u].InFetch()
    ensures t == u
  {
    RunInv(cooldown, run, ls, n);
  }

  /** A call that fetched and did not fail answers from exactly the key set it fetched. */
  lemma OwnFetchAnswers(cooldown: int, run: seq<State>, ls: seq<Label>, n: nat, t: nat)
    requires IsRun(cooldown, run, ls) && n <= |ls|
    requires t in run[n].threads && run[n].threads[t].Done? && run[n].threads[t].fetched.Some?
    ensures var pc := run[n].threads[t]; pc.answer.Failed? || pc.answer == Lookup(pc.fetched.value, pc.kid)
  {
    RunInv(cooldown, run, ls, n);
  }

  predicate InCall(s: State, t: nat, kid: string) {
    t in s.threads && s.threads[t].kid == kid
  }

  /** At instant j, inside the call that t is still in at instant n, the cache gave this answer for kid. */
  ghost predicate AnsweredAt(run: seq<State>, j: nat, n: nat, t: nat, kid: string, answer: Answer)
    requires n < |run|
  {
    && j <= n
    && Lookup(run[j].keys, kid) == answer
    && forall m | j <= m <= n :: InCall(run[m], t, kid)
  }

  /**
   Every answer of getKey but a fetch error, a key as well as "not found", is what the cache held for the kid at some
   instant inside the call.
   */
  lemma {:induction false} AnswersAreCached(cooldown: int, run: seq<State>, ls: seq<Label>, n: nat, t: nat)
      returns (j: nat)
    requires IsRun(cooldown, run, ls) && n <= |ls| && t in run[n].threads
    requires run[n].threads[t].Answering() && !run[n].threads[t].answer.Failed?
    ensures AnsweredAt(run, j, n, t, run[n].threads[t].kid, run[n].threads[t].answer)
    decreases n
  {
    assert n > 0;
    assert run[n] == Apply(cooldown, run[n - 1], ls[n - 1]);
    AnswerStep(cooldown, run[n - 1], ls[n - 1], t);
    assert InCall(run[n - 1], t, run[n].threads[t].kid);
    if run[n - 1].threads[t].Answering() {
      j := AnswersAreCached(cooldown, run, ls, n - 1, t);
    } else if run[n - 1].threads[t].Checking? {
      j := CheckedAt(cooldown, run, ls, n - 1, t);
    } else {
      j := n - 1;
    }
  }

  /** An answer was there before the step, or is what the cache holds, or is the "not found" of the cooldown check. */
  lemma AnswerStep(cooldown: int, s: State, l: Label, t: nat)
    requires Enabled(s, l)
    requires var after := Apply(cooldown, s, l).threads;
             t in after && after[t].Answering() && !after[t].answer.Failed?
    ensures var pc := Apply(cooldown, s, l).threads[t];
            && InCall(s, t, pc.kid)
            && match s.threads[t]
               case Unlocking(_, answer, _) => answer == pc.answer
               case Done(_, answer, _) => answer == pc.answer
               case Checking(_) => pc.answer == NotFound
               case _ => pc.answer == Lookup(s.keys, pc.kid)
  {
  }

  /** A call that is about to look at the clock read the cache under the lock and found nothing. */
  lemma {:induction false} CheckedAt(cooldown: int, run: seq<State>, ls: seq<Label>, n: nat, t: nat) returns (j: nat)
    requires IsRun(cooldown, run, ls) && n <= |ls| && t in run[n].threads && run[n].threads[t].Checking?
    ensures AnsweredAt(run, j, n, t, run[n].threads[t].kid, NotFound)
    decreases n
  {
    assert n > 0;
    var before, l := run[n - 1], ls[n - 1];
    assert run[n] == Apply(cooldown, before, l);
    assert InCall(before, t, run[n].threads[t].kid);
    if before.threads[t].Checking? {
      j := CheckedAt(cooldown, run, ls, n - 1, t);
    } else {
      j := n - 1;
    }
  }

  /**
   Why a key is not found without a fetch: the call looked at the clock when the last fetch, of whichever call, had
   started less than a cooldown before.
   */
  lemma {:induction false} NotFoundIsCooldown(cooldown: int, run: seq<State>, ls: seq<Label>, n: nat, t: nat)
      returns (j: nat)
    requires IsRun(cooldown, run, ls) && n <= |ls| && t in run[n].threads
    requires run[n].threads[t].Answering() && run[n].threads[t].answer.NotFound? && run[n].threads[t].fetched.None?
    ensures j <= n && forall m | j <= m <= n :: InCall(run[m], t, run[n].threads[t].kid)
    ensures var starts := FetchStarts(run, ls, j);
            starts != [] && run[j].now - starts[|starts| - 1] < cooldown
    decreases n
  {
    assert n > 0;
    assert run[n] == Apply(cooldown, run[n - 1], ls[n - 1]);
    assert FetchedOk(run[n - 1]) by {
      RunInv(cooldown, run, ls, n - 1);
    }
    NotFoundStep(cooldown, run[n - 1], ls[n - 1], t);
    assert InCall(run[n - 1], t, run[n].threads[t].kid);
    if run[n - 1].threads[t].Answering() {
      j := NotFoundIsCooldown(cooldown, run, ls, n - 1, t);
    } else {
      j := n - 1;
      LastStart(cooldown, run, ls, j);
    }
  }

  lemma LastStart(cooldown: int, run: seq<State>, ls: seq<Label>, j: nat)
    requires IsRun(cooldown, run, ls) && j <= |ls| && run[j].lastFetch.Some?
    ensures var starts := FetchStarts(run, ls, j);
            starts != [] && starts[|starts| - 1] == run[j].lastFetch.value
  {
    RunInv(cooldown, run, ls, j);
    StampsAreFetches(cooldown, run, ls, j);
  }

  lemma NotFoundStep(cooldown: int, s: State, l: Label, t: nat)
    requires Enabled(s, l) && FetchedOk(s)
    requires var after := Apply(cooldown, s, l).threads;
             t in after && after[t].Answering() && after[t].answer.NotFound? && after[t].fetched.None?
    ensures InCall(s, t, Apply(cooldown, s, l).threads[t].kid)
    ensures if s.threads[t].Answering() then s.threads[t].answer.NotFound? && s.threads[t].fetched.None?
            else s.lastFetch.Some? && s.now - s.lastFetch.value < cooldown
  {
  }

  /** Why a call reports a failed fetch: one of its own steps inside the call was a failing fetch or a failing close. */
  lemma {:induction false} FailuresHaveReasons(cooldown: int, run: seq<State>, ls: seq<Label>, n: nat, t: nat)
      returns (j: nat)
    requires IsRun(cooldown, run, ls) && n <= |ls| && t in run[n].threads
    requires run[n].threads[t].Answering() && run[n].threads[t].answer.Failed?
    ensures j < n && (ls[j] == FetchFails(t) || ls[j] == CloseFails(t))
    ensures forall m | j <= m <= n :: InCall(run[m], t, run[n].threads[t].kid)
    decreases n
  {
    assert n > 0;
    assert run[n] == Apply(cooldown, run[n - 1], ls[n - 1]);
    assert InCall(run[n - 1], t, run[n].threads[t].kid);
    if run[n - 1].threads[t].Answering() {
      j := FailuresHaveReasons(cooldown, run, ls, n - 1, t);
    } else {
      j := n - 1;
    }
  }

  lemma {:induction false} StampsApart(cooldown: int, s: State, i: nat, j: nat)
    requires StampsOk(cooldown, s) && i <= j < |s.stamps|
    ensures s.stamps[i] <= s.stamps[j] && s.stamps[j] - s.stamps[i] >= (j - i) * cooldown
    decreases j - i
  {
    if i < j {
      StampsApart(cooldown, s, i, j - 1);
      assert (j - i) * cooldown == (j - 1 - i) * cooldown + cooldown;
      assert s.stamps[j - 1] <= s.stamps[j - 1 + 1];
    }
  }

  /** The instants at which a call went on to fetch, as the run itself shows them. */
  ghost function FetchStarts(run: seq<State>, ls: seq<Label>, n: nat): seq<int>
    requires n <= |ls| && |run| == |ls| + 1
  {
    if n == 0 then []
    else
      FetchStarts(run, ls, n - 1) +
      if ls[n - 1].Advance? && ls[n - 1].t in run[n].threads && run[n].threads[ls[n - 1].t].Fetching?
      then [run[n - 1].now] else []
  }

  /** Every fetch is preceded by its stamp, and every stamp is followed by its fetch. */
  lemma {:induction false} StampsAreFetches(cooldown: int, run: seq<State>, ls: seq<Label>, n: nat)
    requires IsRun(cooldown, run, ls) && n <= |ls|
    ensures run[n].stamps == FetchStarts(run, ls, n)
    decreases n
  {
    if n > 0 {
      StampsAreFetches(cooldown, run, ls, n - 1);
      assert run[n] == Apply(cooldown, run[n - 1], ls[n - 1]);
    }
  }

  /** The positions of the instants that fall into [a, a + length]. */
  function Within(instants: seq<int>, a: int, length: int): set<nat> {
    set i: nat | i < |instants| && a <= instants[i] <= a + length
  }

  /** Any interval of length T holds at most T / cooldown + 1 fetch starts, failed fetches included. */
  lemma RateBound(cooldown: int, run: seq<State>, ls: seq<Label>, n: nat, a: int, length: nat)
    requires IsRun(cooldown, run, ls) && n <= |ls|
    ensures var count := |Within(FetchStarts(run, ls, n), a, length)|; count > 0 ==> (count - 1) * cooldown <= length
  {
    RunInv(cooldown, run, ls, n);
    StampsAreFetches(cooldown, run, ls, n);
    StampsWithin(cooldown, run[n], a, length);
  }

  lemma StampsWithin(cooldown: int, s: State, a: int, length: nat)
    requires StampsOk(cooldown, s)
    ensures var count := |Within(s.stamps, a, length)|; count > 0 ==> (count - 1) * cooldown <= length
  {
    if Within(s.stamps, a, length) != {} {
      var lo, hi := EndsWithin(s.stamps, a, length);
      StampsApart(cooldown, s, lo, hi);
      Scale(|Within(s.stamps, a, length)| - 1, hi - lo, cooldown, s.stamps[hi] - s.stamps[lo]);
    }
  }

  /** The first and the last of the instants in the interval. */
  lemma EndsWithin(instants: seq<int>, a: int, length: nat) returns (lo: nat, hi: nat)
    requires Within(instants, a, length) != {}
    ensures lo <= hi < |instants| && |Within(instants, a, length)| - 1 <= hi - lo
    ensures a <= instants[lo] && instants[hi] <= a + length
  {
    var ids := Ascending(Within(instants, a, length));
    lo, hi := ids[0], ids[|ids| - 1];
    assert lo in ids && hi in ids;
    IncreasingSpan(ids);
  }

  lemma Scale(a: nat, b: nat, c: int, d: nat)
    requires a <= b && b * c <= d
    ensures a * c <= d
  {
    if 0 <= c {
      assert (b - a) * c >= 0;
    } else {
      assert a * -c >= 0;
    }
  }
}

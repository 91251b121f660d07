/** The timed read cache: a source read at most once per TTL, however many requests there are, with
    the clock reading supplied by each caller. */
module ReadCache {
  import opened Prelude
  import opened SingleFlight

  /** The mutex-guarded fields other than the flight. */
  datatype Cell<T, E> = Cell(value: T, ready: bool, lastAt: int, lastErr: Option<E>)

  /** What the first lock region decides. */
  datatype Choice<+T, +E> = Serve(value: T) | Refuse(error: E) | Wait | Read

  datatype Ask = Ask(now: int, okTTL: int, errTTL: int)

  predicate Within(at: int, now: int, ttl: int) {
    at != ZERO_TIME && 0 <= now - at < ttl
  }

  function Choose<T, E>(c: Cell<T, E>, refreshing: bool, ask: Ask): Choice<T, E>
  {
    if c.ready && Within(c.lastAt, ask.now, ask.okTTL) then Serve(c.value)
    else if c.lastErr.Some? && Within(c.lastAt, ask.now, ask.errTTL) then Refuse(c.lastErr.value)
    else if refreshing then Wait
    else Read
  }

  function Store<T, E>(c: Cell<T, E>, now: int, outcome: Outcome<T, E>): Cell<T, E> {
    match outcome
    case Ok(v) => Cell(v, true, now, None)
    case Err(e) => Cell(c.value, false, now, Some(e))
  }

  function Unused<T, E>(zero: T): Cell<T, E> { Cell(zero, false, ZERO_TIME, None) }

  // ---- the object ---------------------------------------------------------------------------------

  class TimedReadCache<T, E> {
    var value: T
    var ready: bool
    var lastAt: int
    var lastErr: Option<E>
    var refreshing: bool
    var done: nat

    function Fields(): Cell<T, E>
      reads this
    {
      Cell(value, ready, lastAt, lastErr)
    }

    /** `zero` is the element type's zero value, which an unused cache holds. */
    constructor (zero: T)
      ensures Fields() == Unused(zero) && !refreshing && done == 0
      ensures value == zero && !ready && lastAt == ZERO_TIME && lastErr.None?
    {
      value, ready, lastAt, lastErr := zero, false, ZERO_TIME, None;
      refreshing, done := false, 0;
    }

    /** The lock region at the head of the loop. `next` is the channel a reader makes. */
    method Enter(ask: Ask, next: nat) returns (choice: Choice<T, E>)
      modifies this
      ensures choice == Choose(old(Fields()), old(refreshing), ask)
      ensures Fields() == old(Fields())
      ensures choice.Read? ==> refreshing && done == next
      ensures !choice.Read? ==> refreshing == old(refreshing) && done == old(done)
      ensures choice.Serve? <==> ready && lastAt != ZERO_TIME && 0 <= ask.now - lastAt < ask.okTTL
      ensures choice.Serve? ==> choice.value == value
      ensures choice.Refuse? <==>
                !choice.Serve? && lastErr.Some? && lastAt != ZERO_TIME && 0 <= ask.now - lastAt < ask.errTTL
      ensures choice.Refuse? ==> lastErr == Some(choice.error)
      ensures choice.Wait? <==> !choice.Serve? && !choice.Refuse? && old(refreshing)
    {
      var age := ask.now - lastAt;
      if ready && lastAt != ZERO_TIME && age >= 0 && age < ask.okTTL {
        return Serve(value);
      }
      if lastErr.Some? && lastAt != ZERO_TIME && age >= 0 && age < ask.errTTL {
        return Refuse(lastErr.value);
      }
      if refreshing {
        return Wait;
      }
      refreshing, done := true, next;
      choice := Read;
    }

    /** The lock region after the read; the caller's channel is closed in it. */
    method Commit(now: int, outcome: Outcome<T, E>)
      modifies this
      ensures Fields() == Store(old(Fields()), now, outcome)
      ensures !refreshing && done == old(done) && lastAt == now
      ensures outcome.Ok? ==> ready && value == outcome.value && lastErr.None?
      ensures outcome.Err? ==> !ready && value == old(value) && lastErr == Some(outcome.error)
    {
      if outcome.Ok? {
        value, ready := outcome.value, true;
      } else {
        ready := false;
      }
      lastAt := now;
      lastErr := if outcome.Ok? then None else Some(outcome.error);
      refreshing := false;
    }
  }

  // ---- every interleaving ---------------------------------------------------------------------------

  /** How a call ended. */
  datatype Reply<+T, +E> = Cached(value: T) | CachedError(error: E) | Own(outcome: Outcome<T, E>) | Cancelled

  datatype Finished<+T, +E> = Finished(at: int, outcome: Outcome<T, E>)

  /** `asking` are goroutines about to take the lock at the head of the loop. `asks` remembers what each
      goroutine in the cache was called with, `answered` how its call ended. `begun` and `finished` are the
      source reads, in order. */
  datatype World<T, E> = World(
    cell: Cell<T, E>,
    flight: Flight,
    asking: set<nat>,
    asks: map<nat, Ask>,
    callers: nat,
    answered: map<nat, Reply<T, E>>,
    begun: seq<Ask>,
    finished: seq<Finished<T, E>>)

  datatype Event<+T, +E> =
    | Call(ask: Ask)
    | Enter(who: nat)
    | Wake(who: nat)                              // its channel is closed: back to the head of the loop
    | GiveUp(who: nat)                            // its own context ends while it waits
    | Land(who: nat, outcome: Outcome<T, E>)

  /** Who is where, and what everybody asked for. */
  ghost predicate Placed<T, E>(w: World<T, E>) {
    && Split(w.asking, w.flight, w.answered.Keys, w.callers)
    && (forall who: nat :: who < w.callers ==> who in w.asks)
  }

  /** The guarded fields are the outcome of the most recent completed read. */
  ghost predicate Remembers<T, E>(w: World<T, E>) {
    if w.finished == [] then !w.cell.ready && w.cell.lastErr.None? && w.cell.lastAt == ZERO_TIME
    else
      var last := w.finished[|w.finished| - 1];
      && w.cell.lastAt == last.at
      && w.cell.ready == last.outcome.Ok?
      && (last.outcome.Ok? ==> w.cell.value == last.outcome.value && w.cell.lastErr == None)
      && (last.outcome.Err? ==> w.cell.lastErr == Some(last.outcome.error))
  }

  /** The source reads begun, finished and in progress belong together. */
  ghost predicate Reads<T, E>(w: World<T, E>) {
    && Remembers(w) && Spaced(w)
    && |w.begun| == |w.finished| + (if w.flight.refreshing then 1 else 0)
    && (forall who :: who in w.flight.reading ==>
          who in w.asks && w.begun != [] && w.begun[|w.begun| - 1] == w.asks[who])
    && (forall k :: 0 <= k < |w.finished| ==> w.finished[k].at == w.begun[k].now)
  }

  ghost predicate Inv<T, E>(w: World<T, E>) { Placed(w) && Reads(w) }

  /** Each source read after the first is stamped before its predecessor, or a whole TTL after it: the
      success TTL after a success, the error TTL after a failure. The predecessor's stamp must be a real
      instant. */
  predicate Spaced<T, E>(w: World<T, E>) {
    forall k :: 0 <= k && k + 1 < |w.begun| && k < |w.finished| ==>
      var s := w.finished[k].at;
      var ask := w.begun[k + 1];
      s == ZERO_TIME || ask.now < s ||
      ask.now - s >= if w.finished[k].outcome.Ok? then ask.okTTL else ask.errTTL
  }

  function Step<T, E>(w: World<T, E>, e: Event<T, E>): World<T, E>
  {
    match e
    case Call(ask) =>
      w.(asking := w.asking + {w.callers}, asks := w.asks[w.callers := ask], callers := w.callers + 1)
    case Enter(who) =>
      if who !in w.asking || who !in w.asks then w
      else
        var w1 := w.(asking := w.asking - {who});
        match Choose(w.cell, w.flight.refreshing, w.asks[who]) {
          case Serve(v) => w1.(answered := w.answered[who := Cached(v)])
          case Refuse(e) => w1.(answered := w.answered[who := CachedError(e)])
          case Wait => w1.(flight := Join(w.flight, who))
          case Read => w1.(flight := Lead(w.flight, who), begun := w.begun + [w.asks[who]])
        }
    case Wake(who) =>
      if !CanLeave(w.flight, who) then w
      else w.(flight := Leave(w.flight, who), asking := w.asking + {who})
    case GiveUp(who) =>
      if who !in w.flight.waiting then w
      else w.(flight := Leave(w.flight, who), answered := w.answered[who := Cancelled])
    case Land(who, outcome) =>
      if who !in w.flight.reading || who !in w.asks then w
      else w.(cell := Store(w.cell, w.asks[who].now, outcome),
              flight := SingleFlight.Land(w.flight, who),
              answered := w.answered[who := Own(outcome)],
              finished := w.finished + [Finished(w.asks[who].now, outcome)])
  }

  lemma StepKeepsPlaces<T, E>(w: World<T, E>, e: Event<T, E>)
    requires Placed(w)
    ensures Placed(Step(w, e))
  {
    var (asking, f, over, callers) := (w.asking, w.flight, w.answered.Keys, w.callers);
    match e
    case Call(_) => CallSplits(asking, f, over, callers);
    case Enter(who) =>
      if who in asking { EnterKeepsPlaces(w, who); }
    case Wake(who) =>
      if CanLeave(f, who) { WakeSplits(asking, f, over, callers, who); }
    case GiveUp(who) =>
      if who in f.waiting {
        GiveUpSplits(asking, f, over, callers, who);
        assert Step(w, e).answered.Keys == over + {who};
      }
    case Land(who, outcome) =>
      if who in f.reading {
        LandSplits(asking, f, over, callers, who);
        assert Step(w, e).answered.Keys == over + {who};
      }
  }

  lemma EnterKeepsPlaces<T, E>(w: World<T, E>, who: nat)
    requires Placed(w) && who in w.asking
    ensures Placed(Step(w, Enter(who)))
  {
    var (asking, f, over, callers) := (w.asking, w.flight, w.answered.Keys, w.callers);
    match Choose(w.cell, f.refreshing, w.asks[who])
    case Wait => JoinSplits(asking, f, over, callers, who);
    case Read => LeadSplits(asking, f, over, callers, who);
    case _ =>
      AnswerSplits(asking, f, over, callers, who);
      assert Step(w, Enter(who)).answered.Keys == over + {who};
  }

  lemma StepKeepsInv<T, E>(w: World<T, E>, e: Event<T, E>)
    requires Inv(w)
    ensures Inv(Step(w, e))
  {
    StepKeepsPlaces(w, e);
    match e
    case Call(ask) =>
    case Enter(who) =>
      if who in w.asking { EnterKeepsReads(w, who); }
    case Wake(who) =>
    case GiveUp(who) =>
    case Land(who, outcome) =>
      if who in w.flight.reading { LandKeepsReads(w, who, outcome); }
  }

  lemma EnterKeepsReads<T, E>(w: World<T, E>, who: nat)
    requires Inv(w) && who in w.asking
    ensures Reads(Step(w, Enter(who)))
  {
    if Choose(w.cell, w.flight.refreshing, w.asks[who]).Read? {
      BeginIsSpaced(w, w.asks[who]);
      LeadStarts(w.flight, who);
      BeginKeepsReads(w, who);
    } else {
      LookKeepsReads(w, who);
    }
  }

  lemma LookKeepsReads<T, E>(w: World<T, E>, who: nat)
    requires Inv(w) && who in w.asking && !Choose(w.cell, w.flight.refreshing, w.asks[who]).Read?
    ensures Reads(Step(w, Enter(who)))
  {
    var w' := Step(w, Enter(who));
    assert w'.begun == w.begun && w'.finished == w.finished && w'.cell == w.cell && w'.asks == w.asks;
    assert w'.flight.reading == w.flight.reading && w'.flight.refreshing == w.flight.refreshing;
  }

  /** A read that the fields do not answer is a TTL away from the last one, or stamped before it. */
  lemma BeginIsSpaced<T, E>(w: World<T, E>, ask: Ask)
    requires Reads(w) && !w.flight.refreshing && Choose(w.cell, false, ask).Read?
    ensures Spaced(w.(begun := w.begun + [ask]))
  {
  }

  lemma BeginKeepsReads<T, E>(w: World<T, E>, who: nat)
    requires Inv(w) && who in w.asking && Choose(w.cell, w.flight.refreshing, w.asks[who]).Read?
    requires Spaced(w.(begun := w.begun + [w.asks[who]]))
    requires forall reader :: reader in Lead(w.flight, who).reading ==> reader == who
    ensures Reads(Step(w, Enter(who)))
  {
    var w' := Step(w, Enter(who));
    assert w'.begun == w.begun + [w.asks[who]] && w'.finished == w.finished && w'.cell == w.cell;
    assert w'.flight == Lead(w.flight, who);
  }

  lemma LandKeepsReads<T, E>(w: World<T, E>, who: nat, outcome: Outcome<T, E>)
    requires Inv(w) && who in w.flight.reading
    ensures Reads(Step(w, Land(who, outcome)))
  {
    LandKeeps(w.flight, who);
  }

  lemma LeadStarts(f: Flight, who: nat)
    requires SingleFlight.Inv(f) && !f.refreshing
    ensures forall w :: w in Lead(f, who).reading ==> w == who
  {
  }

  function Run<T, E>(w: World<T, E>, es: seq<Event<T, E>>): World<T, E>
    decreases |es|
  {
    if es == [] then w else Run(Step(w, es[0]), es[1..])
  }

  function Empty<T, E>(zero: T): World<T, E> {
    World(Unused(zero), Idle, {}, map[], 0, map[], [], [])
  }

  lemma {:induction false} InvAlways<T, E>(w: World<T, E>, es: seq<Event<T, E>>)
    requires Inv(w)
    ensures Inv(Run(w, es))
    decreases |es|
  {
    if es != [] {
      StepKeepsInv(w, es[0]);
      InvAlways(Step(w, es[0]), es[1..]);
    }
  }

  lemma {:induction false} Reachable<T, E>(zero: T, es: seq<Event<T, E>>)
    ensures Inv(Run(Empty<T, E>(zero), es))
  {
    NobodyYet();
    assert Empty<T, E>(zero).answered.Keys == {};
    InvAlways(Empty<T, E>(zero), es);
  }

  /** Nobody is lost and nobody is answered twice: in every reachable state each call so far is in exactly one
      place. */
  lemma {:induction false} NobodyIsLost<T, E>(zero: T, es: seq<Event<T, E>>, who: nat)
    ensures
      var w := Run(Empty<T, E>(zero), es);
      Places(w.asking, w.flight, w.answered.Keys, who) == if who < w.callers then 1 else 0
  {
    Reachable(zero, es);
  }

  /** A call that looks is answered from the cache, joins the waiters while a read is in progress, or else
      begins the read its arguments are for. */
  lemma {:induction false} LookingMovesOn<T, E>(zero: T, es: seq<Event<T, E>>, who: nat)
    requires who in Run(Empty<T, E>(zero), es).asking
    ensures
      var w := Run(Empty<T, E>(zero), es);
      var w' := Step(w, Enter(who));
      && who !in w'.asking && w'.cell == w.cell && w'.finished == w.finished
      && (who !in w'.answered && w.flight.refreshing ==> who in w'.flight.waiting && w'.begun == w.begun)
      && (who !in w'.answered && !w.flight.refreshing ==>
            who in w'.flight.reading && who in w.asks && w'.begun == w.begun + [w.asks[who]])
  {
    Reachable(zero, es);
    WhereEverybodyIs(Run(Empty<T, E>(zero), es).flight, who);
  }

  /** A call that looks at a world within its TTL is answered what the fields hold: the value of the last
      success, or the error of the last failure. */
  lemma {:induction false} LookingAnswers<T, E>(zero: T, es: seq<Event<T, E>>, who: nat)
    requires who in Run(Empty<T, E>(zero), es).asking
    ensures
      var w := Run(Empty<T, E>(zero), es);
      var w' := Step(w, Enter(who));
      && who in w.asks
      && var ask, age := w.asks[who], w.asks[who].now - w.cell.lastAt;
         && (w.cell.ready && w.cell.lastAt != ZERO_TIME && 0 <= age < ask.okTTL ==>
               w'.answered == w.answered[who := Cached(w.cell.value)] && w'.flight == w.flight)
         && (!w.cell.ready && w.cell.lastErr.Some? && w.cell.lastAt != ZERO_TIME && 0 <= age < ask.errTTL ==>
               w'.answered == w.answered[who := CachedError(w.cell.lastErr.value)] && w'.flight == w.flight)
  {
    Reachable(zero, es);
  }

  /** A new call is about to look with the arguments it came with. */
  lemma CallsAreRemembered<T, E>(w: World<T, E>, ask: Ask)
    ensures
      var w' := Step(w, Call(ask));
      && w'.asking == w.asking + {w.callers} && w'.callers == w.callers + 1
      && w'.asks == w.asks[w.callers := ask] && w'.cell == w.cell && w'.flight == w.flight
  {
  }

  /** The call that reads is answered with its own outcome, which is the newest finished read; a waiter looks
      again when its channel is closed, and is answered nothing when its own context ends. */
  lemma {:induction false} LandingAndLeaving<T, E>(zero: T, es: seq<Event<T, E>>, who: nat, outcome: Outcome<T, E>)
    ensures
      var w := Run(Empty<T, E>(zero), es);
      && (who in w.flight.reading ==>
            var w' := Step(w, Land(who, outcome));
            && w'.answered == w.answered[who := Own(outcome)] && w'.flight.reading.Keys == {}
            && who in w.asks && w'.finished == w.finished + [Finished(w.asks[who].now, outcome)])
      && (who in w.flight.waiting ==>
            && (w.flight.waiting[who] in w.flight.closed ==> who in Step(w, Wake(who)).asking)
            && Step(w, GiveUp(who)).answered == w.answered[who := Cancelled])
  {
    Reachable(zero, es);
    var w := Run(Empty<T, E>(zero), es);
    if who in w.flight.reading { LandKeeps(w.flight, who); }
  }

  /** No lost wake-ups and at most one source read, in every reachable state. */
  lemma {:induction false} OneReadAndNoLostWakeUp<T, E>(zero: T, es: seq<Event<T, E>>)
    ensures Promises(Run(Empty<T, E>(zero), es).flight)
  {
    Reachable(zero, es);
    KeepsPromises(Run(Empty<T, E>(zero), es).flight);
  }

  /** Consecutive source reads are spaced by the TTL their predecessor earned, for any order of caller
      clocks. */
  lemma {:induction false} ReadsAreSpaced<T, E>(zero: T, es: seq<Event<T, E>>, k: nat)
    requires k + 1 < |Run(Empty<T, E>(zero), es).begun|
    ensures
      var w := Run(Empty<T, E>(zero), es);
      && k < |w.finished| && w.finished[k].at == w.begun[k].now
      && var s := w.begun[k].now;
         var ask := w.begun[k + 1];
         s == ZERO_TIME || ask.now < s ||
         ask.now - s >= if w.finished[k].outcome.Ok? then ask.okTTL else ask.errTTL
  {
    Reachable(zero, es);
  }

  /** Any number of requests carrying one real instant cost one source read between them. */
  lemma {:induction false} OneInstantOneRead<T, E>(zero: T, es: seq<Event<T, E>>, now: int)
    requires now != ZERO_TIME
    requires forall k :: 0 <= k < |es| && es[k].Call? ==>
               es[k].ask.now == now && es[k].ask.okTTL > 0 && es[k].ask.errTTL > 0
    ensures |Run(Empty<T, E>(zero), es).begun| <= 1
  {
    var w := Run(Empty<T, E>(zero), es);
    AsksComeFromCalls(Empty<T, E>(zero), es, now);
    if |w.begun| > 1 {
      ReadsAreSpaced(zero, es, 0);
      assert false;
    }
  }

  ghost predicate AskedAt<T, E>(w: World<T, E>, now: int) {
    && (forall who :: who in w.asks ==> w.asks[who].now == now && w.asks[who].okTTL > 0 && w.asks[who].errTTL > 0)
    && (forall k :: 0 <= k < |w.begun| ==>
          w.begun[k].now == now && w.begun[k].okTTL > 0 && w.begun[k].errTTL > 0)
  }

  lemma StepKeepsAskedAt<T, E>(w: World<T, E>, e: Event<T, E>, now: int)
    requires AskedAt(w, now)
    requires e.Call? ==> e.ask.now == now && e.ask.okTTL > 0 && e.ask.errTTL > 0
    ensures AskedAt(Step(w, e), now)
  {
  }

  lemma {:induction false} AsksComeFromCalls<T, E>(w: World<T, E>, es: seq<Event<T, E>>, now: int)
    requires AskedAt(w, now)
    requires forall k :: 0 <= k < |es| && es[k].Call? ==>
               es[k].ask.now == now && es[k].ask.okTTL > 0 && es[k].ask.errTTL > 0
    ensures AskedAt(Run(w, es), now)
    decreases |es|
  {
    if es != [] {
      StepKeepsAskedAt(w, es[0], now);
      AsksComeFromCalls(Step(w, es[0]), es[1..], now);
    }
  }

  /** A value comes out of the cache exactly when the most recent completed read succeeded at a real
      instant less than a success TTL ago, and it is that read's value. So after a failed read the old
      value is never served. */
  lemma {:induction false} ServedIsTheLastRead<T, E>(zero: T, es: seq<Event<T, E>>, ask: Ask, value: T)
    ensures
      var w := Run(Empty<T, E>(zero), es);
      Choose(w.cell, w.flight.refreshing, ask) == Serve(value) <==>
        && w.finished != []
        && var last := w.finished[|w.finished| - 1];
           last.outcome == Ok(value) && Within(last.at, ask.now, ask.okTTL)
  {
    Reachable(zero, es);
  }

  /** Likewise a cached error is the most recent completed read's, less than an error TTL old. */
  lemma {:induction false} RefusedIsTheLastRead<T, E>(zero: T, es: seq<Event<T, E>>, ask: Ask, error: E)
    ensures
      var w := Run(Empty<T, E>(zero), es);
      Choose(w.cell, w.flight.refreshing, ask) == Refuse(error) <==>
        && w.finished != []
        && var last := w.finished[|w.finished| - 1];
           last.outcome == Err(error) && Within(last.at, ask.now, ask.errTTL)
  {
    Reachable(zero, es);
  }

  /** The cache rests on `IsZero`: repeating the call that has just read, with the same clock reading,
      is answered from the cache exactly when that reading is a real instant. */
  lemma {:induction false} CachesOnlyRealInstants<T, E>(zero: T, es: seq<Event<T, E>>, who: nat, outcome: Outcome<T, E>)
    requires who in Run(Empty<T, E>(zero), es).flight.reading
    ensures
      var w := Run(Empty<T, E>(zero), es);
      && who in w.asks
      && var ask := w.asks[who];
         ask.okTTL > 0 && ask.errTTL > 0 ==>
           var w' := Step(w, Land(who, outcome));
           var again := Choose(w'.cell, w'.flight.refreshing, ask);
           && (ask.now != ZERO_TIME <==> !again.Read?)
           && (ask.now != ZERO_TIME ==> again == if outcome.Ok? then Serve(outcome.value) else Refuse(outcome.error))
  {
    Reachable(zero, es);
  }
}

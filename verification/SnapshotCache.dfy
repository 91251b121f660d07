/** The snapshot cache: one refresh at a time, one buffer reused in place, and a private copy for
    everybody who is answered. */
module SnapshotCache {
  import opened Prelude
  import opened SingleFlight

  /** The guarded fields as values; `snapshot` is what the buffer holds. */
  datatype Cell<T, E> = Cell(snapshot: T, ready: bool, lastErr: Option<E>)

  /** What the first lock region of `load` decides. */
  datatype Choice<+T> = Served(data: T) | Wait | Refresh

  function Choose<T, E>(c: Cell<T, E>, refreshing: bool, force: bool): Choice<T> {
    if !force && c.ready then Served(c.snapshot) else if refreshing then Wait else Refresh
  }

  /** What a caller that has waited is answered. */
  function AfterWait<T, E>(c: Cell<T, E>): Outcome<T, Option<E>> {
    if c.ready then Ok(c.snapshot) else Err(c.lastErr)
  }

  /** The fields after a refresh. */
  function Store<T, E>(c: Cell<T, E>, outcome: Outcome<T, E>): Cell<T, E> {
    match outcome
    case Ok(v) => Cell(v, true, None)
    case Err(e) => c.(lastErr := Some(e))
  }

  // ---- the object: buffers and their holders ------------------------------------------------------

  class HttpApiSnapshotCache<E> {
    var buffer: array<bv8>  // the backing array of `data`
    var size: nat           // len(data); the capacity is buffer.Length
    var ready: bool
    var refreshing: bool
    var done: nat
    var lastErr: Option<E>

    /** Every array handed out so far, with the bytes its holder was given. */
    ghost var given: map<array<bv8>, seq<bv8>>

    /** No array handed out aliases the buffer, and none has changed since. */
    ghost predicate Valid()
      reads this, buffer, given.Keys
    {
      && size <= buffer.Length
      && buffer !in given
      && forall a :: a in given ==> a[..] == given[a]
    }

    function Data(): seq<bv8>
      requires size <= buffer.Length
      reads this, buffer
    {
      buffer[..size]
    }

    function Fields(): Cell<seq<bv8>, E>
      requires size <= buffer.Length
      reads this, buffer
    {
      Cell(Data(), ready, lastErr)
    }

    constructor ()
      ensures Valid() && Fields() == Cell([], false, None) && !refreshing && given == map[] && fresh(buffer)
      ensures Data() == [] && !ready && lastErr.None?
    {
      buffer := new bv8[0];
      size, ready, refreshing, done, lastErr := 0, false, false, 0, None;
      given := map[];
    }

    /** append([]byte(nil), data...): a new array for the caller. */
    method HandOut(bytes: seq<bv8>) returns (copy: array<bv8>)
      requires Valid()
      modifies this`given
      ensures Valid() && fresh(copy) && copy[..] == bytes
      ensures given == old(given)[copy := bytes]
    {
      copy := new bv8[|bytes|](i requires 0 <= i < |bytes| => bytes[i]);
      given := given[copy := bytes];
    }

    /** The first lock region. A refresher makes channel `next`. */
    method Enter(force: bool, next: nat) returns (choice: Choice<array<bv8>>)
      requires Valid()
      modifies this
      ensures Valid() && buffer == old(buffer) && Fields() == old(Fields())
      ensures match Choose(old(Fields()), old(refreshing), force)
              case Served(bytes) =>
                && choice.Served? && fresh(choice.data)
                && choice.data[..] == bytes && given == old(given)[choice.data := bytes]
              case Wait => choice.Wait? && given == old(given)
              case Refresh => choice.Refresh? && given == old(given)
      ensures refreshing == (old(refreshing) || choice.Refresh?)
      ensures done == if choice.Refresh? then next else old(done)
      // A forced call skips the cached bytes.
      ensures choice.Served? <==> !force && old(ready)
      ensures choice.Served? ==> choice.data[..] == old(Data())
      ensures choice.Refresh? <==> (force || !old(ready)) && !old(refreshing)
    {
      if !force && ready {
        var copy := HandOut(buffer[..size]);
        return Served(copy);
      }
      if refreshing {
        return Wait;
      }
      refreshing, done := true, next;
      choice := Refresh;
    }

    /** The second lock region of a caller that waited. */
    method Resume() returns (answer: Outcome<array<bv8>, Option<E>>)
      requires Valid()
      modifies this`given
      ensures Valid() && Fields() == old(Fields())
      ensures match AfterWait(Fields())
              case Ok(bytes) =>
                && answer.Ok? && fresh(answer.value)
                && answer.value[..] == bytes && given == old(given)[answer.value := bytes]
              case Err(error) => answer == Err(error) && given == old(given)
      ensures answer.Ok? <==> ready
      ensures if answer.Ok? then answer.value[..] == Data() else answer.error == lastErr
    {
      if ready {
        var copy := HandOut(buffer[..size]);
        return Ok(copy);
      }
      answer := Err(lastErr);
    }

    /** append(c.data[:0], bytes...): in place when the buffer has room, `spare` extra room when not. */
    method Overwrite(bytes: seq<bv8>, spare: nat)
      requires Valid()
      modifies this`buffer, this`size, buffer
      ensures Valid() && Data() == bytes
      ensures buffer == old(buffer) || fresh(buffer)
      ensures |bytes| <= old(buffer).Length ==> buffer == old(buffer)
    {
      if |bytes| > buffer.Length {
        buffer := new bv8[|bytes| + spare](_ => 0);
      }
      size := |bytes|;
      for i := 0 to |bytes|
        invariant size == |bytes| <= buffer.Length && buffer !in given
        invariant buffer == old(buffer) || fresh(buffer)
        invariant buffer[..i] == bytes[..i]
        invariant forall a :: a in given ==> a[..] == given[a]
        modifies buffer
      {
        buffer[i] := bytes[i];
      }
    }

    /** The lock region that ends a refresh, and the refresher's own answer. A failure leaves the last
        complete snapshot where it is. */
    method Commit(outcome: Outcome<array<bv8>, E>, spare: nat) returns (answer: Outcome<array<bv8>, E>)
      requires Valid()
      requires outcome.Ok? ==> outcome.value != buffer
      modifies this, buffer
      ensures Valid() && !refreshing && done == old(done)
      ensures Fields() == Store(old(Fields()), if outcome.Ok? then Ok(old(outcome.value[..])) else Err(outcome.error))
      ensures outcome.Ok? ==>
                && answer.Ok? && fresh(answer.value) && answer.value[..] == old(outcome.value[..])
                && given == old(given)[answer.value := answer.value[..]]
      ensures outcome.Err? ==> answer == Err(outcome.error) && given == old(given)
      ensures buffer == old(buffer) || fresh(buffer)
      ensures outcome.Ok? ==> Data() == old(outcome.value[..]) && ready && lastErr.None?
      ensures outcome.Err? ==> Data() == old(Data()) && ready == old(ready) && lastErr == Some(outcome.error)
    {
      if outcome.Ok? {
        Overwrite(outcome.value[..], spare);
        ready := true;
      }
      lastErr := if outcome.Ok? then None else Some(outcome.error);
      refreshing := false;
      if outcome.Err? {
        return Err(outcome.error);
      }
      var copy := HandOut(outcome.value[..]);
      answer := Ok(copy);
    }
  }

  // ---- what holders see --------------------------------------------------------------------------------

  /** One lock region, with its data as bytes or as the array the source returned. */
  datatype Region<+D, +E> = Entering(force: bool) | Resuming | Ending(outcome: Outcome<D, E>)

  /** The fields and `refreshing` after one lock region. */
  function After<T, E>(c: Cell<T, E>, refreshing: bool, r: Region<T, E>): (Cell<T, E>, bool) {
    match r
    case Entering(force) => (c, refreshing || Choose(c, refreshing, force).Refresh?)
    case Resuming => (c, refreshing)
    case Ending(outcome) => (Store(c, outcome), false)
  }

  /** What one lock region hands to its caller. */
  function Handed<T, E>(c: Cell<T, E>, refreshing: bool, r: Region<T, E>): Option<T> {
    match r
    case Entering(force) =>
      var choice := Choose(c, refreshing, force);
      if choice.Served? then Some(choice.data) else None
    case Resuming => if c.ready then Some(c.snapshot) else None
    case Ending(outcome) => if outcome.Ok? then Some(outcome.value) else None
  }

  function AfterAll<T, E>(c: Cell<T, E>, refreshing: bool, rs: seq<Region<T, E>>): (Cell<T, E>, bool)
    decreases |rs|
  {
    if rs == [] then (c, refreshing)
    else
      var (c', refreshing') := AfterAll(c, refreshing, rs[..|rs| - 1]);
      After(c', refreshing', rs[|rs| - 1])
  }

  /** What the k-th lock region of a sequence hands out. */
  function HandedAt<T, E>(c: Cell<T, E>, refreshing: bool, rs: seq<Region<T, E>>, k: nat): Option<T>
    requires k < |rs|
  {
    var (c', refreshing') := AfterAll(c, refreshing, rs[..k]);
    Handed(c', refreshing', rs[k])
  }

  /** `bytes` is the region `r` with the source's array read. */
  ghost predicate Reads<E>(r: Region<array<bv8>, E>, bytes: Region<seq<bv8>, E>)
    reads if r.Ending? && r.outcome.Ok? then {r.outcome.value} else {}
  {
    match r
    case Entering(force) => bytes == Entering(force)
    case Resuming => bytes == Resuming
    case Ending(Ok(source)) => bytes == Ending(Ok(source[..]))
    case Ending(Err(error)) => bytes == Ending(Err(error))
  }

  method OneRegion<E>(c: HttpApiSnapshotCache<E>, r: Region<array<bv8>, E>,
                      ghost bytes: Region<seq<bv8>, E>, spare: nat)
    returns (handed: Option<array<bv8>>)
    requires c.Valid() && Reads(r, bytes)
    requires r.Ending? && r.outcome.Ok? ==> r.outcome.value != c.buffer
    modifies c, c.buffer
    ensures c.Valid() && (c.buffer == old(c.buffer) || fresh(c.buffer))
    ensures (c.Fields(), c.refreshing) == After(old(c.Fields()), old(c.refreshing), bytes)
    ensures match Handed(old(c.Fields()), old(c.refreshing), bytes)
            case Some(data) => handed.Some? && fresh(handed.value) && c.given == old(c.given)[handed.value := data]
            case None => handed.None? && c.given == old(c.given)
  {
    handed := None;
    match r {
      case Entering(force) =>
        var choice := c.Enter(force, c.done + 1);
        if choice.Served? { handed := Some(choice.data); }
      case Resuming =>
        var answer := c.Resume();
        if answer.Ok? { handed := Some(answer.value); }
      case Ending(outcome) =>
        var answer := c.Commit(outcome, spare);
        if answer.Ok? { handed := Some(answer.value); }
    }
  }

  /** Over any sequence of lock regions, every array handed out, to those who were served, those who waited
      and those who refreshed, still holds at the end the bytes its holder was given, and is not the
      buffer; so do the arrays handed out before. The refreshes may fit the buffer and overwrite it. */
  method HoldersAreUndisturbed<E>(c: HttpApiSnapshotCache<E>, rs: seq<Region<array<bv8>, E>>,
                                  ghost bytes: seq<Region<seq<bv8>, E>>, spare: seq<nat>)
    returns (handed: seq<Option<array<bv8>>>)
    requires c.Valid() && |bytes| == |spare| == |rs|
    requires forall k :: 0 <= k < |rs| ==> Reads(rs[k], bytes[k])
    requires forall k :: 0 <= k < |rs| && rs[k].Ending? && rs[k].outcome.Ok? ==> rs[k].outcome.value != c.buffer
    modifies c, c.buffer
    ensures c.Valid()
    ensures (c.Fields(), c.refreshing) == AfterAll(old(c.Fields()), old(c.refreshing), bytes)
    ensures |handed| == |rs|
    ensures forall k :: 0 <= k < |rs| ==>
              match HandedAt(old(c.Fields()), old(c.refreshing), bytes, k)
              case Some(data) => handed[k].Some? && handed[k].value != c.buffer && handed[k].value[..] == data
              case None => handed[k].None?
    ensures forall a :: a in old(c.given) ==> a != c.buffer && a[..] == old(a[..])
  {
    ghost var cell, refreshing := c.Fields(), c.refreshing;
    handed := [];
    for k := 0 to |rs|
      invariant c.Valid() && (c.buffer == old(c.buffer) || fresh(c.buffer))
      invariant (c.Fields(), c.refreshing) == AfterAll(cell, refreshing, bytes[..k])
      invariant forall j :: k <= j < |rs| ==> Reads(rs[j], bytes[j])
      invariant forall a :: a in old(c.given) ==> a in c.given && c.given[a] == old(c.given)[a]
      invariant |handed| == k
      invariant forall j :: 0 <= j < k ==> Keeps(c.given, handed[j], HandedAt(cell, refreshing, bytes, j))
    {
      assert bytes[..k + 1][..k] == bytes[..k];
      var one := OneRegion(c, rs[k], bytes[k], spare[k]);
      handed := handed + [one];
    }
    assert bytes[..|rs|] == bytes;
  }

  /** `handed` is on record with the bytes it was handed out with. */
  ghost predicate Keeps(given: map<array<bv8>, seq<bv8>>, handed: Option<array<bv8>>, data: Option<seq<bv8>>) {
    match data
    case Some(bytes) => handed.Some? && handed.value in given && given[handed.value] == bytes
    case None => handed.None?
  }

  // ---- every interleaving ---------------------------------------------------------------------------

  datatype Answer<+T, +E> = Answer(who: nat, force: bool, result: Outcome<T, Option<E>>)

  datatype World<T, E> = World(
    cell: Cell<T, E>,
    flight: Flight,
    asking: set<nat>,
    force: map<nat, bool>,
    callers: nat,
    over: set<nat>,                  // the calls that have been answered or have given up
    finished: seq<Outcome<T, E>>,    // the refreshes, in order
    answers: seq<Answer<T, E>>)      // what callers were answered; a cancelled wait is not one

  datatype Event<+T, +E> =
    | Call(force: bool)
    | Enter(who: nat)
    | Resume(who: nat)
    | GiveUp(who: nat)
    | Land(who: nat, outcome: Outcome<T, E>)

  function Step<T, E>(w: World<T, E>, e: Event<T, E>): World<T, E> {
    match e
    case Call(force) =>
      w.(asking := w.asking + {w.callers}, force := w.force[w.callers := force], callers := w.callers + 1)
    case Enter(who) =>
      if who !in w.asking || who !in w.force then w
      else
        var w1 := w.(asking := w.asking - {who});
        match Choose(w.cell, w.flight.refreshing, w.force[who]) {
          case Served(data) =>
            w1.(over := w.over + {who}, answers := w.answers + [Answer(who, w.force[who], Ok(data))])
          case Wait => w1.(flight := Join(w.flight, who))
          case Refresh => w1.(flight := Lead(w.flight, who))
        }
    case Resume(who) =>
      if !CanLeave(w.flight, who) || who !in w.force then w
      else w.(flight := Leave(w.flight, who), over := w.over + {who},
              answers := w.answers + [Answer(who, w.force[who], AfterWait(w.cell))])
    case GiveUp(who) =>
      if who !in w.flight.waiting then w else w.(flight := Leave(w.flight, who), over := w.over + {who})
    case Land(who, outcome) =>
      if who !in w.flight.reading || who !in w.force then w
      else
        var result := match outcome case Ok(v) => Ok(v) case Err(e) => Err(Some(e));
        w.(cell := Store(w.cell, outcome), flight := SingleFlight.Land(w.flight, who),
           over := w.over + {who}, finished := w.finished + [outcome],
           answers := w.answers + [Answer(who, w.force[who], result)])
  }

  function Run<T, E>(w: World<T, E>, es: seq<Event<T, E>>): World<T, E>
    decreases |es|
  {
    if es == [] then w else Run(Step(w, es[0]), es[1..])
  }

  function Empty<T, E>(zero: T): World<T, E> {
    World(Cell(zero, false, None), Idle, {}, map[], 0, {}, [], [])
  }

  /** The most recent refresh that succeeded. */
  function LastSuccess<T, E>(finished: seq<Outcome<T, E>>): Option<T>
    decreases |finished|
  {
    if finished == [] then None
    else
      var last := finished[|finished| - 1];
      if last.Ok? then Some(last.value) else LastSuccess(finished[..|finished| - 1])
  }

  ghost predicate Placed<T, E>(w: World<T, E>) {
    && Split(w.asking, w.flight, w.over, w.callers)
    && (forall who: nat :: who < w.callers ==> who in w.force)
  }

  ghost predicate Remembers<T, E>(w: World<T, E>) {
    && w.cell.ready == LastSuccess(w.finished).Some?
    && (w.cell.ready ==> LastSuccess(w.finished) == Some(w.cell.snapshot))
    && (w.finished == [] ==> w.cell.lastErr.None?)
    && (w.finished != [] ==>
          var last := w.finished[|w.finished| - 1];
          w.cell.lastErr == if last.Ok? then None else Some(last.error))
  }

  /** A caller that is not forcing refreshes only while nothing has ever succeeded. */
  ghost predicate PatientReaders<T, E>(w: World<T, E>) {
    forall who :: who in w.flight.reading && who in w.force && !w.force[who] ==> !w.cell.ready
  }

  lemma StepKeepsPlaces<T, E>(w: World<T, E>, e: Event<T, E>)
    requires Placed(w)
    ensures Placed(Step(w, e))
  {
    match e
    case Call(_) => CallSplits(w.asking, w.flight, w.over, w.callers);
    case Enter(who) =>
      if who in w.asking {
        match Choose(w.cell, w.flight.refreshing, w.force[who])
        case Served(_) => AnswerSplits(w.asking, w.flight, w.over, w.callers, who);
        case Wait => JoinSplits(w.asking, w.flight, w.over, w.callers, who);
        case Refresh => LeadSplits(w.asking, w.flight, w.over, w.callers, who);
      }
    case Resume(who) =>
      if who in w.flight.waiting { GiveUpSplits(w.asking, w.flight, w.over, w.callers, who); }
    case GiveUp(who) =>
      if who in w.flight.waiting { GiveUpSplits(w.asking, w.flight, w.over, w.callers, who); }
    case Land(who, outcome) =>
      if who in w.flight.reading { LandSplits(w.asking, w.flight, w.over, w.callers, who); }
  }

  lemma StepKeepsMemory<T, E>(w: World<T, E>, e: Event<T, E>)
    requires Placed(w) && Remembers(w) && PatientReaders(w)
    ensures Remembers(Step(w, e)) && PatientReaders(Step(w, e))
  {
    match e
    case Land(who, outcome) =>
      if who in w.flight.reading {
        LandKeeps(w.flight, who);
        assert (w.finished + [outcome])[..|w.finished|] == w.finished;
      }
    case _ =>
  }

  lemma {:induction false} Holds<T, E>(w: World<T, E>, es: seq<Event<T, E>>)
    requires Placed(w) && Remembers(w) && PatientReaders(w)
    ensures Placed(Run(w, es)) && Remembers(Run(w, es)) && PatientReaders(Run(w, es))
    decreases |es|
  {
    if es != [] {
      StepKeepsPlaces(w, es[0]);
      StepKeepsMemory(w, es[0]);
      Holds(Step(w, es[0]), es[1..]);
    }
  }

  lemma {:induction false} Reachable<T, E>(zero: T, es: seq<Event<T, E>>)
    ensures
      var w := Run(Empty<T, E>(zero), es);
      Placed(w) && Remembers(w) && PatientReaders(w)
  {
    NobodyYet();
    Holds(Empty<T, E>(zero), es);
  }

  /** Nobody is lost and nobody is answered twice: in every reachable state each call so far is in exactly one
      place. */
  lemma {:induction false} NobodyIsLost<T, E>(zero: T, es: seq<Event<T, E>>, who: nat)
    ensures
      var w := Run(Empty<T, E>(zero), es);
      Places(w.asking, w.flight, w.over, who) == if who < w.callers then 1 else 0
  {
    Reachable(zero, es);
  }

  /** A forced call never gets the cached snapshot when it looks: nobody is answered, and it waits for the
      refresh in progress or begins one. */
  lemma {:induction false} ForcedCallsSkipTheCache<T, E>(zero: T, es: seq<Event<T, E>>, who: nat)
    requires
      var w := Run(Empty<T, E>(zero), es);
      who in w.asking && who in w.force && w.force[who]
    ensures
      var w := Run(Empty<T, E>(zero), es);
      var w' := Step(w, Enter(who));
      && w'.answers == w.answers && who !in w'.asking
      && (if w.flight.refreshing then who in w'.flight.waiting else who in w'.flight.reading)
  {
    Reachable(zero, es);
    WhereEverybodyIs(Run(Empty<T, E>(zero), es).flight, who);
  }

  /** Where answers come from: a look answers only a patient call; a resumed call has waited; and any other
      answer, so every forced one that did not wait, is the outcome of the refresh that its caller lands. */
  lemma {:induction false} AnswersHaveASource<T, E>(zero: T, es: seq<Event<T, E>>, e: Event<T, E>)
    ensures
      var w := Run(Empty<T, E>(zero), es);
      var w' := Step(w, e);
      w'.answers != w.answers ==>
        && |w'.answers| == |w.answers| + 1 && w'.answers[..|w.answers|] == w.answers
        && var a := w'.answers[|w.answers|];
           && a.who in w.force && a.force == w.force[a.who] && a.who in w'.over
           && match e
              case Enter(who) => a.who == who && !a.force && who in w.asking
              case Resume(who) => a.who == who && who in w.flight.waiting && w.flight.waiting[who] in w.flight.closed
              case Land(who, Ok(v)) =>
                a.who == who && who in w.flight.reading && a.result == Ok(v) && w'.finished == w.finished + [Ok(v)]
              case Land(who, Err(error)) =>
                && a.who == who && who in w.flight.reading && a.result == Err(Some(error))
                && w'.finished == w.finished + [Err(error)]
              case _ => false
  {
    Reachable(zero, es);
  }

  /** A new call is about to look, forced or not as it came. */
  lemma CallsAreRemembered<T, E>(w: World<T, E>, force: bool)
    ensures
      var w' := Step(w, Call(force));
      && w'.asking == w.asking + {w.callers} && w'.callers == w.callers + 1
      && w'.force == w.force[w.callers := force] && w'.cell == w.cell && w'.flight == w.flight
  {
  }

  /** A waiter whose own context ends is over, and is answered nothing. */
  lemma GivingUpAnswersNothing<T, E>(w: World<T, E>, who: nat)
    requires who in w.flight.waiting
    ensures
      var w' := Step(w, GiveUp(who));
      && who in w'.over && who !in w'.flight.waiting && w'.answers == w.answers
      && w'.flight.reading == w.flight.reading && w'.cell == w.cell
  {
  }

  /** A patient call that looks once something has succeeded is answered at once; the one that lands a refresh
      and the waiter whose channel is closed always are. */
  lemma {:induction false} AnswersCome<T, E>(zero: T, es: seq<Event<T, E>>, who: nat, outcome: Outcome<T, E>)
    ensures
      var w := Run(Empty<T, E>(zero), es);
      && (who in w.asking && who in w.force && !w.force[who] && LastSuccess(w.finished).Some? ==>
            |Step(w, Enter(who)).answers| == |w.answers| + 1)
      && (who in w.flight.reading ==> |Step(w, Land(who, outcome)).answers| == |w.answers| + 1)
      && (who in w.flight.waiting && w.flight.waiting[who] in w.flight.closed ==>
            |Step(w, Resume(who)).answers| == |w.answers| + 1)
  {
    Reachable(zero, es);
  }

  /** No lost wake-ups and at most one refresh, in every reachable state. */
  lemma {:induction false} OneRefreshAndNoLostWakeUp<T, E>(zero: T, es: seq<Event<T, E>>)
    ensures Promises(Run(Empty<T, E>(zero), es).flight)
  {
    Reachable(zero, es);
    KeepsPromises(Run(Empty<T, E>(zero), es).flight);
  }

  /** Once one refresh has succeeded, every answer to a call that does not force a refresh is the last
      success at that moment, whatever has failed since; so is every answer after a wait. */
  lemma {:induction false} LastSuccessIsServed<T, E>(zero: T, es: seq<Event<T, E>>, e: Event<T, E>)
    requires LastSuccess(Run(Empty<T, E>(zero), es).finished).Some?
    ensures
      var w := Run(Empty<T, E>(zero), es);
      var w' := Step(w, e);
      w'.answers != w.answers ==>
        && |w'.answers| == |w.answers| + 1
        && var a := w'.answers[|w.answers|];
           !a.force || e.Resume? ==> a.result == Ok(LastSuccess(w.finished).value)
  {
    Reachable(zero, es);
  }

  /** Before any success a call that waited is told why the most recent refresh failed, never nothing. */
  lemma {:induction false} WaitersLearnTheFailure<T, E>(zero: T, es: seq<Event<T, E>>, who: nat)
    requires CanLeave(Run(Empty<T, E>(zero), es).flight, who)
    ensures
      var w := Run(Empty<T, E>(zero), es);
      var w' := Step(w, Resume(who));
      && |w'.answers| == |w.answers| + 1
      && var a := w'.answers[|w.answers|];
         && a.who == who
         && (a.result.Err? ==>
               && a.result.error.Some? && w.finished != []
               && w.finished[|w.finished| - 1] == Err(a.result.error.value))
  {
    var w := Run(Empty<T, E>(zero), es);
    Reachable(zero, es);
    FinishedMeansClosed(Empty<T, E>(zero), es);
  }

  /** A closed channel belongs to a finished refresh. */
  lemma {:induction false} FinishedMeansClosed<T, E>(w: World<T, E>, es: seq<Event<T, E>>)
    requires w.finished == [] ==> w.flight.closed == multiset{}
    ensures Run(w, es).finished == [] ==> Run(w, es).flight.closed == multiset{}
    decreases |es|
  {
    if es != [] {
      FinishedMeansClosed(Step(w, es[0]), es[1..]);
    }
  }
}

/** The lifecycle seat's own pump: at every tick it looks whether the seat is wanted, and only then wakes.
    The look and the wake are two lock regions, and anything may happen between them. */
module LifecyclePump {
  import opened Prelude
  import opened Attachment
  import opened LifecycleAttach
  import A = AttachRuns

  /** One tick: what happens before its look, what happens between its look and its wake, and the clock the
      wake reads. */
  datatype Tick = Tick(before: seq<Event>, inside: seq<Event>, now: int)

  /** The pump is one goroutine: nobody else takes its steps. */
  predicate OthersOnly(es: seq<Event>) {
    forall k :: 0 <= k < |es| ==> !es[k].PumpTick? && !es[k].PumpWake?
  }

  predicate AreOthers(ticks: seq<Tick>) {
    forall k :: 0 <= k < |ticks| ==> OthersOnly(ticks[k].before) && OthersOnly(ticks[k].inside)
  }

  /** The console just before the wake of a tick. */
  function Looked(c: Console, t: Tick): Console { Run(Step(Run(c, t.before), PumpTick), t.inside) }

  function OneTick(c: Console, t: Tick): Console { Step(Looked(c, t), PumpWake(t.now)) }

  function PumpRun(c: Console, ticks: seq<Tick>): Console
    decreases |ticks|
  {
    if ticks == [] then c else OneTick(PumpRun(c, ticks[..|ticks| - 1]), ticks[|ticks| - 1])
  }

  /** Whatever the others do between look and wake, the pump owes its wake if and only if its look found
      the seat wanted. */
  lemma {:induction false} LookOwesAWake(c: Console, t: Tick)
    requires OthersOnly(t.inside)
    ensures Looked(c, t).pumpOwes <==> Run(c, t.before).world.seat.failed
  {
    OthersPayNothing(Step(Run(c, t.before), PumpTick), t.inside);
  }

  lemma {:induction false} OthersPayNothing(c: Console, es: seq<Event>)
    requires OthersOnly(es)
    ensures Run(c, es).pumpOwes == c.pumpOwes
    decreases |es|
  {
    if es != [] {
      assert !es[0].PumpTick? && !es[0].PumpWake?;
      OthersPayNothing(Step(c, es[0]), es[1..]);
    }
  }

  predicate TickedBeforeTheEnd(c: Console, ticks: seq<Tick>, k: nat)
    requires k < |ticks|
  {
    !Run(PumpRun(c, ticks[..k]), ticks[k].before).world.ended
  }

  /** The ticker loop: it never starts when the interval is not positive, and returns at the first tick
      that finds the console's context over. */
  method Pump(c: Console, ticks: seq<Tick>) returns (c': Console, done: nat)
    requires AreOthers(ticks)
    ensures done <= |ticks| && c' == PumpRun(c, ticks[..done])
    ensures c.world.interval <= 0 ==> done == 0
    ensures c.world.interval > 0 && done < |ticks| ==> Run(c', ticks[done].before).world.ended
    ensures forall k | 0 <= k < done :: TickedBeforeTheEnd(c, ticks, k)
  {
    c', done := c, 0;
    if c.world.interval <= 0 {
      return;
    }
    while done < |ticks|
      invariant done <= |ticks| && c' == PumpRun(c, ticks[..done])
      invariant forall k | 0 <= k < done :: TickedBeforeTheEnd(c, ticks, k)
    {
      var t := ticks[done];
      if Run(c', t.before).world.ended {
        return;
      }
      assert TickedBeforeTheEnd(c, ticks, done);
      assert ticks[..done + 1][..done] == ticks[..done];
      c' := TakeTick(c', t);
      done := done + 1;
    }
  }

  /** The look, and the wake that follows if the look found the seat wanted. */
  method TakeTick(c: Console, t: Tick) returns (c': Console)
    requires OthersOnly(t.inside)
    ensures c' == OneTick(c, t)
  {
    LookOwesAWake(c, t);
    var looked := Run(c, t.before);
    var wanted := looked.world.seat.failed;
    c' := Run(Step(looked, PumpTick), t.inside);
    if wanted {
      c' := Step(c', PumpWake(t.now));
    }
  }

  // ---- the next attempt comes in time ---------------------------------------------------------------

  /** The context does not end, and no other wake reads a clock later than `hi`. */
  predicate Until(es: seq<Event>, hi: int) {
    OthersOnly(es) && forall k :: 0 <= k < |es| ==> es[k] != End && (es[k].WakeUp? ==> es[k].now <= hi)
  }

  function Previous(ticks: seq<Tick>, last: int, k: nat): int
    requires k <= |ticks|
  {
    if k == 0 then last else ticks[k - 1].now
  }

  /** Ticks come at most `gap` apart, starting from `last`. */
  predicate Steady(ticks: seq<Tick>, last: int, gap: int) {
    forall k :: 0 <= k < |ticks| ==>
      && ticks[k].now <= Previous(ticks, last, k) + gap
      && Until(ticks[k].before, ticks[k].now) && Until(ticks[k].inside, ticks[k].now)
  }

  /** Unless an attempt has started by then, the tick finds the seat wanted; `count` attempts have started so
      far. */
  predicate Wanted(c: Console, count: nat, t: Tick) {
    |Run(c, t.before).world.starts| == count ==> Run(c, t.before).world.seat.failed
  }

  /** The previous attempt is over and was stamped with a real instant. */
  ghost predicate Idle(w: A.World) {
    A.AttemptsBounded(w) && !w.seat.trying && !w.ended && w.seat.lastTry != ZERO_TIME
  }

  /** The first attempt of `w'` that `w` had not started is stamped between `lo` and `hi`. */
  ghost predicate Redialled(w: A.World, w': A.World, lo: int, hi: int) {
    w.starts < w'.starts && lo <= w'.starts[|w.starts|] <= hi
  }

  /** No attempt since `w`. */
  ghost predicate Still(w: A.World, w': A.World) {
    Idle(w') && w'.starts == w.starts && w'.seat.lastTry == w.seat.lastTry && w'.interval == w.interval
  }

  function Due(w: A.World): int { w.seat.lastTry + w.interval }

  lemma StepInIdle(w: A.World, e: A.Event, hi: int)
    requires Idle(w) && e != A.End
    requires e.WakeUp? ==> e.now <= hi
    ensures Still(w, A.Step(w, e)) || Redialled(w, A.Step(w, e), Due(w), hi)
    ensures e.WakeUp? ==> (e.now >= Due(w) <==> !Still(w, A.Step(w, e)))
  {
    A.StepKeepsAttempts(w, e);
    if e.WakeUp? && WakeStarts(w.seat, e.now, w.interval, w.ended) {
      assert A.Step(w, e).starts == w.starts + [e.now];
    }
  }

  lemma ConsoleStepInIdle(c: Console, e: Event, hi: int)
    requires Idle(c.world) && e != End && !e.PumpWake?
    requires e.WakeUp? ==> e.now <= hi
    ensures Still(c.world, Step(c, e).world) || Redialled(c.world, Step(c, e).world, Due(c.world), hi)
  {
    match e
    case Ask(_, _) => StepInIdle(c.world, A.Begin, hi);
    case Answer(request, outcome, caller) => StepInIdle(c.world, A.Report(request, VerdictOf(outcome, caller)), hi);
    case WakeUp(now) => StepInIdle(c.world, A.WakeUp(now), hi);
    case Resolved(found) => StepInIdle(c.world, A.Resolved(if found then A.Dialled else A.Nothing), hi);
    case Close(client) => StepInIdle(c.world, A.Close(client), hi);
    case _ =>
  }

  lemma {:induction false} StartsStay(c: Console, es: seq<Event>)
    ensures c.world.starts <= Run(c, es).world.starts
  {
    ConsoleIsAWorld(c, es);
    var shared :| Run(c, es).world == A.Run(c.world, shared);
    A.HistoryGrows(c.world, shared);
  }

  lemma {:induction false} BetweenTicks(c: Console, es: seq<Event>, hi: int)
    requires Idle(c.world) && Until(es, hi)
    ensures Still(c.world, Run(c, es).world) || Redialled(c.world, Run(c, es).world, Due(c.world), hi)
    decreases |es|
  {
    if es != [] {
      assert es[0] != End && !es[0].PumpWake? && (es[0].WakeUp? ==> es[0].now <= hi);
      ConsoleStepInIdle(c, es[0], hi);
      var c' := Step(c, es[0]);
      if Still(c.world, c'.world) {
        BetweenTicks(c', es[1..], hi);
      } else {
        StartsStay(c', es[1..]);
      }
    }
  }

  /** The wake the pump owes starts an attempt exactly when the interval is over. */
  lemma OwedWakeStartsIff(c: Console, now: int)
    requires Idle(c.world) && c.pumpOwes
    ensures
      var w' := Step(c, PumpWake(now)).world;
      if now >= Due(c.world) then Redialled(c.world, w', Due(c.world), now) else Still(c.world, w')
  {
    StepInIdle(c.world, A.WakeUp(now), now);
  }

  /** A tick that is wanted leaves everything still only before the interval is over. */
  lemma TickWakes(c: Console, t: Tick)
    requires Idle(c.world) && Wanted(c, |c.world.starts|, t) && Until(t.before, t.now) && Until(t.inside, t.now)
    ensures
      var w' := OneTick(c, t).world;
      (Still(c.world, w') && t.now < Due(c.world)) || Redialled(c.world, w', Due(c.world), t.now)
  {
    var look := Run(c, t.before);
    var asked := Step(look, PumpTick);
    var wake := Run(asked, t.inside);
    BetweenTicks(c, t.before, t.now);
    LookOwesAWake(c, t);
    StartsStay(asked, t.inside);
    StartsStay(wake, [PumpWake(t.now)]);
    assert Run(wake, [PumpWake(t.now)]) == Step(wake, PumpWake(t.now)) by { assert [PumpWake(t.now)][1..] == []; }
    if Still(c.world, look.world) {
      BetweenTicks(asked, t.inside, t.now);
      if Still(asked.world, wake.world) { OwedWakeStartsIff(wake, t.now); }
    }
  }

  lemma {:induction false} StartsStayInPump(c: Console, t: Tick)
    ensures c.world.starts <= OneTick(c, t).world.starts
  {
    var look := Run(c, t.before);
    StartsStay(c, t.before);
    StartsStay(Step(look, PumpTick), t.inside);
    StartsStay(Looked(c, t), [PumpWake(t.now)]);
    assert [PumpWake(t.now)][1..] == [];
  }

  /** No attempt yet and the interval not over at the last tick, or an attempt in time. */
  ghost predicate OnTime(w: A.World, w': A.World, latest: int, gap: int) {
    (Still(w, w') && latest < Due(w)) || Redialled(w, w', Due(w), Due(w) + gap - 1)
  }

  lemma TickIsOnTime(c: Console, c': Console, t: Tick, latest: int, gap: nat)
    requires Idle(c.world) && OnTime(c.world, c'.world, latest, gap)
    requires t.now <= latest + gap && Until(t.before, t.now) && Until(t.inside, t.now)
    requires Wanted(c', |c.world.starts|, t)
    ensures OnTime(c.world, OneTick(c', t).world, t.now, gap)
  {
    StartsStayInPump(c', t);
    if Still(c.world, c'.world) {
      TickWakes(c', t);
    }
  }

  /** Every tick of the run finds the seat wanted, unless an attempt has started by then. */
  predicate AllWanted(c: Console, ticks: seq<Tick>) {
    forall k :: 0 <= k < |ticks| ==> Wanted(PumpRun(c, ticks[..k]), |c.world.starts|, ticks[k])
  }

  lemma PrefixIsSteady(c: Console, ticks: seq<Tick>, last: int, gap: int, n: nat)
    requires n <= |ticks| && Steady(ticks, last, gap) && AllWanted(c, ticks)
    ensures Steady(ticks[..n], last, gap) && AllWanted(c, ticks[..n])
    ensures Previous(ticks[..n], last, n) == Previous(ticks, last, n)
  {
    var prefix := ticks[..n];
    forall k | 0 <= k < n
      ensures prefix[..k] == ticks[..k] && prefix[k] == ticks[k]
      ensures Previous(prefix, last, k) == Previous(ticks, last, k)
    {
    }
  }

  lemma {:induction false} Progress(c: Console, ticks: seq<Tick>, last: int, gap: nat)
    requires Idle(c.world) && Steady(ticks, last, gap) && last < Due(c.world) && AllWanted(c, ticks)
    ensures OnTime(c.world, PumpRun(c, ticks).world, Previous(ticks, last, |ticks|), gap)
    decreases |ticks|
  {
    if ticks != [] {
      var n := |ticks| - 1;
      PrefixIsSteady(c, ticks, last, gap, n);
      Progress(c, ticks[..n], last, gap);
      TickIsOnTime(c, PumpRun(c, ticks[..n]), ticks[n], Previous(ticks, last, n), gap);
    }
  }

  /** With ticks at most `gap` apart, the previous attempt over and the seat wanted at each tick, the next
      attempt starts before lastTry + interval + gap, without any request. */
  lemma {:induction false} PumpRedials(c: Console, ticks: seq<Tick>, last: int, gap: nat)
    requires Idle(c.world) && Steady(ticks, last, gap)
    requires |ticks| > 0 && last < Due(c.world) <= ticks[|ticks| - 1].now
    requires AllWanted(c, ticks)
    ensures
      var starts := PumpRun(c, ticks).world.starts;
      && c.world.starts < starts
      && c.world.seat.lastTry + c.world.interval <= starts[|c.world.starts|]
           < c.world.seat.lastTry + c.world.interval + gap
  {
    Progress(c, ticks, last, gap);
  }
}

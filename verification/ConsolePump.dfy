/** The console has no publisher of its own, so a ticker keeps waking the strategy seat. */
module ConsolePump {
  import opened Prelude
  import opened Attachment
  import opened AttachRuns

  /** Everything that happens while the pump runs: before its k-th tick, the events `between[k]`. */
  function Schedule(ticks: seq<int>, between: seq<seq<Event>>): seq<Event>
    requires |between| == |ticks|
    decreases |ticks|
  {
    if ticks == [] then [] else (between[0] + [WakeUp(ticks[0])]) + Schedule(ticks[1..], between[1..])
  }

  lemma {:induction false} ScheduleExtends(ticks: seq<int>, between: seq<seq<Event>>, k: nat)
    requires |between| == |ticks| && k < |ticks|
    ensures Schedule(ticks[..k + 1], between[..k + 1])
         == Schedule(ticks[..k], between[..k]) + (between[k] + [WakeUp(ticks[k])])
    decreases |ticks|
  {
    assert ticks[..k + 1][1..] == ticks[1..][..k] && between[..k + 1][1..] == between[1..][..k];
    if k > 0 {
      assert ticks[..k][1..] == ticks[1..][..k - 1] && between[..k][1..] == between[1..][..k - 1];
      ScheduleExtends(ticks[1..], between[1..], k - 1);
    } else {
      assert Schedule(ticks[1..][..0], between[1..][..0]) == [];
    }
  }

  /** The ticker loop. It returns at the first tick that finds the context over, or never starts
      when the interval is not positive; `done` ticks woke the seat. */
  method Pump(w: World, ticks: seq<int>, between: seq<seq<Event>>) returns (w': World, done: nat)
    requires |between| == |ticks|
    ensures done <= |ticks|
    ensures w' == Run(w, Schedule(ticks[..done], between[..done]))
    ensures w.interval <= 0 ==> done == 0
    ensures w.interval > 0 && done < |ticks| ==> Run(w', between[done]).ended
    ensures forall k :: 0 <= k < done ==> !Run(Run(w, Schedule(ticks[..k], between[..k])), between[k]).ended
  {
    w', done := w, 0;
    if w.interval <= 0 {
      return;
    }
    while done < |ticks|
      invariant done <= |ticks|
      invariant w' == Run(w, Schedule(ticks[..done], between[..done]))
      invariant forall k :: 0 <= k < done ==> !Run(Run(w, Schedule(ticks[..k], between[..k])), between[k]).ended
    {
      var now := Run(w', between[done]);
      if now.ended {
        return;
      }
      ScheduleExtends(ticks, between, done);
      RunAppend(w, Schedule(ticks[..done], between[..done]), between[done] + [WakeUp(ticks[done])]);
      RunAppend(w', between[done], [WakeUp(ticks[done])]);
      w' := Step(now, WakeUp(ticks[done]));
      done := done + 1;
    }
  }

  /** Other wakes read the same clock, between `lo` and `hi`, and the context does not end. */
  predicate Clocked(es: seq<Event>, lo: int, hi: int)
    decreases |es|
  {
    lo <= hi &&
    (es == [] ||
     match es[0]
     case WakeUp(now) => lo <= now && Clocked(es[1..], now, hi)
     case End => false
     case _ => Clocked(es[1..], lo, hi))
  }

  /** Ticks come at most `gap` apart, starting from `last`. */
  predicate Steady(ticks: seq<int>, between: seq<seq<Event>>, last: int, gap: int)
    requires |between| == |ticks|
    decreases |ticks|
  {
    ticks == [] ||
    (ticks[0] <= last + gap && Clocked(between[0], last, ticks[0]) && Steady(ticks[1..], between[1..], ticks[0], gap))
  }

  lemma {:induction false} PrefixTicks(es: seq<Event>, tick: int, rest: seq<Event>, last: int, gap: int)
    requires Clocked(es, last, tick) && tick <= last + gap
    requires Ticking(rest, tick, gap)
    ensures Ticking((es + [WakeUp(tick)]) + rest, last, gap)
    ensures LastTick((es + [WakeUp(tick)]) + rest, last) == LastTick(rest, tick)
    decreases |es|
  {
    var all := (es + [WakeUp(tick)]) + rest;
    if es == [] {
      assert all[1..] == rest;
    } else {
      assert all[1..] == (es[1..] + [WakeUp(tick)]) + rest;
      PrefixTicks(es[1..], tick, rest, if es[0].WakeUp? then es[0].now else last, gap);
    }
  }

  lemma {:induction false} SteadyPumpTicks(ticks: seq<int>, between: seq<seq<Event>>, last: int, gap: int)
    requires |between| == |ticks| && Steady(ticks, between, last, gap)
    ensures Ticking(Schedule(ticks, between), last, gap)
    ensures LastTick(Schedule(ticks, between), last) == if ticks == [] then last else ticks[|ticks| - 1]
    decreases |ticks|
  {
    if ticks != [] {
      SteadyPumpTicks(ticks[1..], between[1..], ticks[0], gap);
      PrefixTicks(between[0], ticks[0], Schedule(ticks[1..], between[1..]), last, gap);
    }
  }

  /** A pump whose ticks are at most `gap` apart redials in time without any request: whatever else
      interleaves, the next attempt starts within interval + gap of the previous one. With the ticker
      at half the interval that is one and a half intervals, not two. */
  lemma {:induction false} PumpRedials(w: World, ticks: seq<int>, between: seq<seq<Event>>, last: int, gap: nat)
    requires AttemptsBounded(w) && !w.seat.trying && !w.ended && w.seat.lastTry != ZERO_TIME
    requires |between| == |ticks| > 0 && Steady(ticks, between, last, gap)
    requires last < w.seat.lastTry + w.interval <= ticks[|ticks| - 1]
    ensures w.starts < Run(w, Schedule(ticks, between)).starts
    ensures
      var next := Run(w, Schedule(ticks, between)).starts[|w.starts|];
      w.seat.lastTry + w.interval <= next < w.seat.lastTry + w.interval + gap
  {
    SteadyPumpTicks(ticks, between, last, gap);
    NextAttemptComesInTime(w, Schedule(ticks, between), last, gap);
  }
}

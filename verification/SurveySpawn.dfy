/** One survey per record: the boot path and the restart button share one gate, and each looks before it
    spawns. Surveys may end at any moment; nobody else starts one. */
module SurveySpawn {
  import opened Prelude

  /** How far a thread that holds the gate has got. `boot` threads run `bootSurvey`, the others
      `restartSoak` alone. */
  datatype Pc =
    | Queued(boot: bool)
    | BootLook
    | RestartLook(boot: bool)
    | Signalling(boot: bool, todo: seq<nat>, stopped: seq<nat>)
    | Awaiting(boot: bool, todo: seq<nat>)
    | Preparing(boot: bool)
    | Spawning(boot: bool)

  /** `live` are the surveys appending to the record. `signals` records who was interrupted by whom, and
      `overlaps` how many spawns found a survey still there. */
  datatype World = World(
    console: nat,
    live: set<nat>,
    gate: Option<nat>,
    threads: map<nat, Pc>,
    signals: set<(bool, nat)>,  // (by a boot thread, pid)
    spawned: nat,
    overlaps: nat)

  datatype Event =
    | Ask(thread: nat, boot: bool)
    | Acquire(thread: nat)
    | Look(thread: nat, pids: Option<seq<nat>>)  // None: the enumeration failed
    | Signal(thread: nat, delivered: bool)
    | Gone(thread: nat)                          // a probe finds the awaited pid gone
    | TimeOut(thread: nat)
    | Prepare(thread: nat, works: bool)
    | Spawn(thread: nat, pid: nat, works: bool)
    | Exit(pid: nat)

  function Members(pids: seq<nat>): set<nat> { set p | p in pids }

  /** The enumeration's contract: exactly the live surveys on the record. */
  predicate Enumerates(w: World, pids: seq<nat>) { Members(pids) == w.live }

  /** The function returns: the gate is released with it. */
  function Return(w: World, thread: nat): World {
    w.(gate := None, threads := w.threads - {thread})
  }

  function At(w: World, thread: nat, pc: Pc): World { w.(threads := w.threads[thread := pc]) }

  function Step(w: World, e: Event): World {
    match e
    case Ask(thread, boot) => if thread in w.threads then w else At(w, thread, Queued(boot))
    case Acquire(thread) =>
      if thread !in w.threads || !w.threads[thread].Queued? || w.gate.Some? then w
      else At(w, thread, if w.threads[thread].boot then BootLook else RestartLook(false)).(gate := Some(thread))
    case Look(thread, pids) =>
      if thread !in w.threads || (pids.Some? && !Enumerates(w, pids.value)) then w
      else
        (match w.threads[thread]
         case BootLook =>
           if pids.None? || pids.value != [] then Return(w, thread) else At(w, thread, RestartLook(true))
         case RestartLook(boot) =>
           if pids.None? then Return(w, thread) else At(w, thread, Signalling(boot, pids.value, []))
         case _ => w)
    case Signal(thread, delivered) =>
      if thread !in w.threads || !w.threads[thread].Signalling? then w
      else
        var Signalling(boot, todo, stopped) := w.threads[thread];
        if todo == [] then At(w, thread, Awaiting(boot, stopped))
        else if todo[0] == w.console then At(w, thread, Signalling(boot, todo[1..], stopped))
        else if !delivered then Return(w, thread)
        else At(w, thread, Signalling(boot, todo[1..], stopped + [todo[0]])).(signals := w.signals + {(boot, todo[0])})
    case Gone(thread) =>
      if thread !in w.threads || !w.threads[thread].Awaiting? then w
      else
        var Awaiting(boot, todo) := w.threads[thread];
        if todo == [] then At(w, thread, if boot then Spawning(true) else Preparing(false))
        else if todo[0] in w.live then w
        else At(w, thread, Awaiting(boot, todo[1..]))
    case TimeOut(thread) =>
      if thread !in w.threads || !w.threads[thread].Awaiting? || w.threads[thread].todo == [] then w
      else Return(w, thread)
    case Prepare(thread, works) =>
      if thread !in w.threads || !w.threads[thread].Preparing? then w
      else if works then At(w, thread, Spawning(w.threads[thread].boot))
      else Return(w, thread)
    case Spawn(thread, pid, works) =>
      if thread !in w.threads || !w.threads[thread].Spawning? || pid in w.live || pid == w.console then w
      else
        var w1 := Return(w, thread);
        if works then w1.(live := w.live + {pid}, spawned := w.spawned + 1,
                          overlaps := if w.live == {} then w.overlaps else w.overlaps + 1)
        else w1
    case Exit(pid) => w.(live := w.live - {pid})
  }

  function Run(w: World, es: seq<Event>): World
    decreases |es|
  {
    if es == [] then w else Run(Step(w, es[0]), es[1..])
  }

  function Start(console: nat, live: set<nat>): World {
    World(console, live, None, map[], {}, 0, 0)
  }

  /** What a thread inside the gate knows of the record. */
  predicate Knows(w: World, pc: Pc) {
    match pc
    case Queued(_) => true
    case BootLook => true
    case RestartLook(boot) => boot ==> w.live == {}
    case Signalling(boot, todo, stopped) =>
      && w.live <= Members(todo) + Members(stopped)
      && (boot ==> todo == [] && stopped == [])
    case Awaiting(boot, todo) => w.live <= Members(todo) && (boot ==> todo == [])
    case Preparing(_) => w.live == {}
    case Spawning(_) => w.live == {}
  }

  ghost predicate Inv(w: World, bound: nat) {
    && w.console !in w.live
    && bound >= 1 && |w.live| <= bound
    && w.overlaps == 0
    && (forall t :: t in w.threads ==> Knows(w, w.threads[t]) && (w.gate == Some(t) <==> !w.threads[t].Queued?))
    && (w.gate.Some? ==> w.gate.value in w.threads)
    && (forall s :: s in w.signals ==> !s.0)
  }

  lemma FewerMembers(live: set<nat>, pid: nat)
    ensures |live - {pid}| <= |live|
  {
    if pid in live {
      assert live == (live - {pid}) + {pid};
    } else {
      assert live - {pid} == live;
    }
  }

  lemma Shift(todo: seq<nat>)
    requires todo != []
    ensures Members(todo) == Members(todo[1..]) + {todo[0]}
  {
    assert todo == [todo[0]] + todo[1..];
  }

  lemma MembersAppend(stopped: seq<nat>, pid: nat)
    ensures Members(stopped + [pid]) == Members(stopped) + {pid}
  {
  }

  /** A thread inside the gate moves on, knowing what its next place requires. */
  lemma MovesOn(w: World, thread: nat, pc: Pc, signals: set<(bool, nat)>, bound: nat)
    requires Inv(w, bound) && thread in w.threads && !w.threads[thread].Queued?
    requires !pc.Queued? && Knows(w, pc)
    requires forall s :: s in signals ==> !s.0
    ensures Inv(At(w, thread, pc).(signals := signals), bound)
  {
  }

  lemma Leaves(w: World, thread: nat, bound: nat)
    requires Inv(w, bound) && thread in w.threads && !w.threads[thread].Queued?
    ensures Inv(Return(w, thread), bound)
  {
  }

  lemma LookKeeps(w: World, thread: nat, pids: Option<seq<nat>>, bound: nat)
    requires Inv(w, bound)
    ensures Inv(Step(w, Look(thread, pids)), bound)
  {
    if thread in w.threads && (pids.Some? ==> Enumerates(w, pids.value)) {
      var pc := w.threads[thread];
      if pids.None? {
        if pc.BootLook? || pc.RestartLook? { Leaves(w, thread, bound); }
      } else if pc.BootLook? {
        if pids.value == [] {
          MovesOn(w, thread, RestartLook(true), w.signals, bound);
        } else {
          Leaves(w, thread, bound);
        }
      } else if pc.RestartLook? {
        assert pids.value != [] ==> pids.value[0] in Members(pids.value);
        MovesOn(w, thread, Signalling(pc.boot, pids.value, []), w.signals, bound);
      }
    }
  }

  lemma SignalKeeps(w: World, thread: nat, delivered: bool, bound: nat)
    requires Inv(w, bound)
    ensures Inv(Step(w, Signal(thread, delivered)), bound)
  {
    if thread in w.threads && w.threads[thread].Signalling? {
      var Signalling(boot, todo, stopped) := w.threads[thread];
      if todo == [] {
        MovesOn(w, thread, Awaiting(boot, stopped), w.signals, bound);
      } else {
        Shift(todo);
        MembersAppend(stopped, todo[0]);
        if todo[0] == w.console {
          MovesOn(w, thread, Signalling(boot, todo[1..], stopped), w.signals, bound);
        } else if delivered {
          MovesOn(w, thread, Signalling(boot, todo[1..], stopped + [todo[0]]), w.signals + {(boot, todo[0])}, bound);
        } else {
          Leaves(w, thread, bound);
        }
      }
    }
  }

  lemma GoneKeeps(w: World, thread: nat, bound: nat)
    requires Inv(w, bound)
    ensures Inv(Step(w, Gone(thread)), bound)
  {
    if thread in w.threads && w.threads[thread].Awaiting? {
      var Awaiting(boot, todo) := w.threads[thread];
      if todo == [] {
        MovesOn(w, thread, if boot then Spawning(true) else Preparing(false), w.signals, bound);
      } else if todo[0] !in w.live {
        Shift(todo);
        MovesOn(w, thread, Awaiting(boot, todo[1..]), w.signals, bound);
      }
    }
  }

  lemma SpawnKeeps(w: World, thread: nat, pid: nat, works: bool, bound: nat)
    requires Inv(w, bound)
    ensures Inv(Step(w, Spawn(thread, pid, works)), bound)
  {
    if thread in w.threads && w.threads[thread].Spawning? {
      Leaves(w, thread, bound);
      assert w.live + {pid} == {pid};
    }
  }

  lemma ExitKeeps(w: World, pid: nat, bound: nat)
    requires Inv(w, bound)
    ensures Inv(Step(w, Exit(pid)), bound)
  {
    FewerMembers(w.live, pid);
  }

  lemma StepKeepsInv(w: World, e: Event, bound: nat)
    requires Inv(w, bound)
    ensures Inv(Step(w, e), bound)
  {
    match e
    case Ask(_, _) =>
    case Acquire(_) =>
    case Look(thread, pids) => LookKeeps(w, thread, pids, bound);
    case Signal(thread, delivered) => SignalKeeps(w, thread, delivered, bound);
    case Gone(thread) => GoneKeeps(w, thread, bound);
    case TimeOut(thread) =>
      if thread in w.threads && w.threads[thread].Awaiting? { Leaves(w, thread, bound); }
    case Prepare(thread, works) =>
      if thread in w.threads && w.threads[thread].Preparing? {
        Leaves(w, thread, bound);
        MovesOn(w, thread, Spawning(w.threads[thread].boot), w.signals, bound);
      }
    case Spawn(thread, pid, works) => SpawnKeeps(w, thread, pid, works, bound);
    case Exit(pid) => ExitKeeps(w, pid, bound);
  }

  lemma {:induction false} InvAlways(w: World, es: seq<Event>, bound: nat)
    requires Inv(w, bound)
    ensures Inv(Run(w, es), bound)
    decreases |es|
  {
    if es != [] {
      StepKeepsInv(w, es[0], bound);
      InvAlways(Step(w, es[0]), es[1..], bound);
    }
  }

  function Bound(live: set<nat>): nat { if |live| > 1 then |live| else 1 }

  /** However the boot path and any number of button presses interleave: live surveys never exceed what
      there was or one, nothing is ever spawned while a survey lives, and boot interrupts nobody. */
  lemma {:induction false} OneSurveyPerRecord(console: nat, live: set<nat>, es: seq<Event>)
    requires console !in live
    ensures
      var w := Run(Start(console, live), es);
      && |w.live| <= Bound(live)
      && w.overlaps == 0
      && (forall pid :: (true, pid) !in w.signals)
      && (forall boot :: (boot, console) !in w.signals)
  {
    InvAlways(Start(console, live), es, Bound(live));
    ConsoleStays(Start(console, live), es);
    var w := Run(Start(console, live), es);
    assert forall pid :: (true, pid) in w.signals ==> !(true, pid).0;
  }

  lemma {:induction false} ConsoleStays(w: World, es: seq<Event>)
    requires forall s :: s in w.signals ==> s.1 != w.console
    ensures Run(w, es).console == w.console && forall s :: s in Run(w, es).signals ==> s.1 != w.console
    decreases |es|
  {
    if es != [] {
      ConsoleStays(Step(w, es[0]), es[1..]);
    }
  }

  /** Boot on a record without a survey starts one. */
  lemma BootStartsASurvey(console: nat, thread: nat, pid: nat)
    requires pid != console
    ensures
      var w1 := Step(Step(Start(console, {}), Ask(thread, true)), Acquire(thread));
      var w2 := Step(Step(w1, Look(thread, Some([]))), Look(thread, Some([])));
      var w3 := Step(Step(w2, Signal(thread, true)), Gone(thread));
      var w4 := Step(w3, Spawn(thread, pid, true));
      w4.live == {pid} && w4.spawned == 1 && w4.gate.None? && w4.threads == map[]
  {
    assert Members([]) == {};
  }

  /** Boot on a record with a survey leaves it alone and is over. */
  lemma BootLeavesASurvey(console: nat, thread: nat, survey: nat)
    requires survey != console
    ensures
      var w1 := Step(Step(Start(console, {survey}), Ask(thread, true)), Acquire(thread));
      var w2 := Step(w1, Look(thread, Some([survey])));
      w2.live == {survey} && w2.spawned == 0 && w2.signals == {} && w2.gate.None? && w2.threads == map[]
  {
    assert Members([survey]) == {survey};
  }

  /** The button on a record with a survey interrupts it and waits; while the survey has not gone there is no
      way on but the time-out, which gives up and leaves it. */
  lemma TheButtonWaits(console: nat, thread: nat, survey: nat)
    requires survey != console
    ensures
      var w1 := Step(Step(Start(console, {survey}), Ask(thread, false)), Acquire(thread));
      var waiting := Step(Step(Step(w1, Look(thread, Some([survey]))), Signal(thread, true)), Signal(thread, true));
      && waiting.signals == {(false, survey)} && waiting.gate == Some(thread)
      && waiting.threads == map[thread := Awaiting(false, [survey])] && waiting.live == {survey}
      && Step(waiting, Gone(thread)) == waiting
      && Step(waiting, TimeOut(thread)).live == {survey} && Step(waiting, TimeOut(thread)).threads == map[]
  {
    assert Members([survey]) == {survey};
    var w1 := Step(Step(Start(console, {survey}), Ask(thread, false)), Acquire(thread));
    var w2 := Step(w1, Look(thread, Some([survey])));
    assert w2.threads == map[thread := Signalling(false, [survey], [])];
    var w3 := Step(w2, Signal(thread, true));
    assert [survey][1..] == [] && [] + [survey] == [survey];
    assert w3.threads == map[thread := Signalling(false, [], [survey])];
  }

  /** Once it has gone, the button prepares and starts one; a preparation that fails starts nothing. */
  lemma TheButtonReplaces(w: World, thread: nat, survey: nat, pid: nat)
    requires w.threads == map[thread := Awaiting(false, [survey])] && w.live == {survey} && pid != w.console
    ensures
      var gone := Step(Step(Step(w, Exit(survey)), Gone(thread)), Gone(thread));
      && Step(Step(gone, Prepare(thread, true)), Spawn(thread, pid, true)).live == {pid}
      && Step(gone, Prepare(thread, false)).threads == map[] && Step(gone, Prepare(thread, false)).live == {}
  {
    var gone := Step(Step(Step(w, Exit(survey)), Gone(thread)), Gone(thread));
    assert gone.threads[thread] == Preparing(false) && gone.live == {};
  }

  /** A spawn that works is counted, and as an overlap exactly when it finds a survey. */
  lemma SpawnsAreCounted(w: World, thread: nat, pid: nat)
    requires thread in w.threads && w.threads[thread].Spawning? && pid !in w.live && pid != w.console
    ensures
      var w' := Step(w, Spawn(thread, pid, true));
      && w'.live == w.live + {pid} && w'.spawned == w.spawned + 1
      && w'.overlaps == w.overlaps + (if w.live == {} then 0 else 1)
  {
  }

  /** An enumeration that fails, or a signal that is refused, gives up at once and starts nothing. */
  lemma FailuresStartNothing(w: World, thread: nat)
    requires thread in w.threads
    ensures w.threads[thread].BootLook? || w.threads[thread].RestartLook? ==>
              Step(w, Look(thread, None)) == Return(w, thread)
    ensures w.threads[thread].Spawning? ==> forall pid ::
              var w' := Step(w, Spawn(thread, pid, false));
              w'.live == w.live && w'.spawned == w.spawned
    ensures w.threads[thread].Signalling? && w.threads[thread].todo != [] && w.threads[thread].todo[0] != w.console ==>
              Step(w, Signal(thread, false)) == Return(w, thread)
  {
  }

  /** Only one thread is ever between looking and spawning. */
  lemma {:induction false} GateExcludes(console: nat, live: set<nat>, es: seq<Event>, s: nat, t: nat)
    requires console !in live
    requires s in Run(Start(console, live), es).threads && t in Run(Start(console, live), es).threads
    requires !Run(Start(console, live), es).threads[s].Queued? && !Run(Start(console, live), es).threads[t].Queued?
    ensures s == t
  {
    InvAlways(Start(console, live), es, Bound(live));
  }

  /** A spawn means every survey that was signalled, and every other, had gone, and that nobody else is
      between looking and spawning. */
  lemma {:induction false} SpawnsOnAnEmptyRecord(console: nat, live: set<nat>, es: seq<Event>, thread: nat, pid: nat)
    requires console !in live
    ensures
      var w := Run(Start(console, live), es);
      var w' := Step(w, Spawn(thread, pid, true));
      w'.spawned != w.spawned ==>
        && w.live == {} && w'.live == {pid} && w'.gate.None?
        && (forall t :: t in w.threads && !w.threads[t].Queued? ==> t == thread)
  {
    InvAlways(Start(console, live), es, Bound(live));
    var w := Run(Start(console, live), es);
    if thread in w.threads && w.threads[thread].Spawning? {
      forall t | t in w.threads && !w.threads[t].Queued?
        ensures t == thread
      {
        GateExcludes(console, live, es, t, thread);
      }
    }
  }

  // ---- waiting for one survey -----------------------------------------------------------------------

  /** One turn of `waitForExit`: the clock at its head and what the probe says. */
  datatype Turn = Turn(now: int, alive: bool)

  /** `waitForExit`: true exactly when a probe before the deadline found the pid gone. */
  method WaitForExit(start: int, timeout: int, turns: seq<Turn>) returns (gone: bool, used: nat)
    requires exists k :: 0 <= k < |turns| && turns[k].now >= start + timeout
    ensures used < |turns|
    ensures forall k :: 0 <= k < used ==> turns[k].alive && turns[k].now < start + timeout
    ensures gone <==> turns[used].now < start + timeout && !turns[used].alive
    ensures !gone ==> turns[used].now >= start + timeout
  {
    ghost var last :| 0 <= last < |turns| && turns[last].now >= start + timeout;
    used := 0;
    while turns[used].now < start + timeout
      invariant used <= last
      invariant forall k :: 0 <= k < used ==> turns[k].alive && turns[k].now < start + timeout
      decreases last - used
    {
      if !turns[used].alive {
        return true, used;
      }
      used := used + 1;
    }
    gone := false;
  }

  // ---- one restart from look to spawn -----------------------------------------------------------------

  /** Who a restart interrupts: everybody it found but the console itself. */
  function Others(console: nat, pids: seq<nat>): seq<nat>
    decreases |pids|
  {
    if pids == [] then []
    else
      var last := pids[|pids| - 1];
      Others(console, pids[..|pids| - 1]) + if last == console then [] else [last]
  }

  /** How one restart's calls go: whether the own binary is found, which signals are refused, who outlives
      the wait, whether the last two steps work. */
  datatype Calls = Calls(resolves: bool, refuses: nat -> bool, outlives: nat -> bool, prepares: bool, spawns: bool)

  /** `restartSoak`: it spawns if and only if its binary was found, the survey list could be read, every
      other survey took its signal and left, and the last two steps worked. It stops at the first refused
      signal, and waits only for surveys it has signalled. */
  method RestartSoak(console: nat, found: Option<seq<nat>>, calls: Calls)
    returns (spawned: bool, stopped: seq<nat>, awaited: seq<nat>)
    ensures !calls.resolves || found.None? ==> !spawned && stopped == [] && awaited == []
    ensures calls.resolves && found.Some? ==>
              var others := Others(console, found.value);
              && stopped <= others && awaited <= stopped
              && (forall k :: 0 <= k < |stopped| ==> !calls.refuses(stopped[k]))
              && (|stopped| < |others| ==> calls.refuses(others[|stopped|]) && awaited == [])
              && (forall k :: 0 <= k < |awaited| ==> !calls.outlives(awaited[k]))
              && (stopped == others && |awaited| < |stopped| ==> calls.outlives(stopped[|awaited|]))
              && (spawned <==> awaited == others && calls.prepares && calls.spawns)
  {
    spawned, stopped, awaited := false, [], [];
    if !calls.resolves || found.None? {
      return;
    }
    var pids := found.value;
    for k := 0 to |pids|
      invariant stopped == Others(console, pids[..k])
      invariant forall j :: 0 <= j < |stopped| ==> !calls.refuses(stopped[j])
    {
      assert pids[..k + 1][..k] == pids[..k];
      OthersGrow(console, pids, k + 1);
      if pids[k] == console {
        continue;
      }
      if calls.refuses(pids[k]) {
        return;
      }
      stopped := stopped + [pids[k]];
    }
    assert pids[..|pids|] == pids;
    for k := 0 to |stopped|
      invariant awaited == stopped[..k]
      invariant forall j :: 0 <= j < k ==> !calls.outlives(stopped[j])
    {
      if calls.outlives(stopped[k]) {
        return;
      }
      awaited := awaited + [stopped[k]];
    }
    spawned := calls.prepares && calls.spawns;
  }

  /** Exactly those found but the console, in order. */
  lemma {:induction false} OthersAre(console: nat, pids: seq<nat>, more: seq<nat>)
    ensures forall p :: p in Others(console, pids) <==> p in pids && p != console
    ensures Others(console, pids + more) == Others(console, pids) + Others(console, more)
    decreases |more|
  {
    if more == [] {
      assert pids + more == pids;
      OthersHold(console, pids);
    } else {
      var n := |more| - 1;
      assert (pids + more)[..|pids| + n] == pids + more[..n];
      OthersAre(console, pids, more[..n]);
      Regroup(Others(console, pids), Others(console, more[..n]), if more[n] == console then [] else [more[n]]);
    }
  }

  lemma {:induction false} OthersHold(console: nat, pids: seq<nat>)
    ensures forall p :: p in Others(console, pids) <==> p in pids && p != console
    decreases |pids|
  {
    if pids != [] {
      OthersHold(console, pids[..|pids| - 1]);
      assert pids == pids[..|pids| - 1] + [pids[|pids| - 1]];
    }
  }

  lemma {:induction false} OthersGrow(console: nat, pids: seq<nat>, k: nat)
    requires k <= |pids|
    ensures Others(console, pids[..k]) <= Others(console, pids)
    decreases |pids|
  {
    if k < |pids| {
      assert pids[..|pids| - 1][..k] == pids[..k];
      OthersGrow(console, pids[..|pids| - 1], k);
    } else {
      assert pids[..k] == pids;
    }
  }

  /** The thread of the state machine signals the same surveys: whatever it had stopped, those it still
      has to do but the console are added, and it goes on to await them all. */
  lemma {:induction false} SignallingCollects(w: World, thread: nat, boot: bool, todo: seq<nat>, stopped: seq<nat>)
    requires thread in w.threads && w.threads[thread] == Signalling(boot, todo, stopped)
    ensures
      var w' := Run(w, seq(|todo| + 1, _ => Signal(thread, true)));
      && thread in w'.threads && w'.threads[thread] == Awaiting(boot, stopped + Others(w.console, todo))
      && w'.live == w.live && w'.spawned == w.spawned
    decreases |todo|
  {
    var es := seq(|todo| + 1, _ => Signal(thread, true));
    var w1 := Step(w, es[0]);
    assert es[1..] == seq(|todo|, _ => Signal(thread, true));
    if todo == [] {
      assert Run(w1, es[1..]) == w1;
      assert stopped + Others(w.console, todo) == stopped;
    } else {
      var more := if todo[0] == w.console then [] else [todo[0]];
      OthersFirst(w.console, todo);
      SignallingCollects(w1, thread, boot, todo[1..], stopped + more);
      Regroup(stopped, more, Others(w.console, todo[1..]));
    }
  }

  lemma {:induction false} OthersFirst(console: nat, pids: seq<nat>)
    requires pids != []
    ensures Others(console, pids) == (if pids[0] == console then [] else [pids[0]]) + Others(console, pids[1..])
    decreases |pids|
  {
    var n := |pids| - 1;
    if n == 0 {
      assert pids[..0] == [] && pids[1..] == [];
    } else {
      OthersFirst(console, pids[..n]);
      var tail := pids[1..];
      assert pids[..n][1..] == tail[..n - 1] && tail[n - 1] == pids[n];
      Regroup(if pids[0] == console then [] else [pids[0]], Others(console, tail[..n - 1]),
              if pids[n] == console then [] else [pids[n]]);
    }
  }

}

/** Is the engine ready? A marker file outlives the process that wrote it, pids are handed out again,
    and one look is three reads at three moments. */
module EngineReady {
  import opened Prelude

  /** What the look reads of a marker: its writer's pid, which run of that pid wrote it, and whether
      recovery had finished. */
  datatype Marker = Marker(pid: nat, instance: Option<nat>, ready: bool)

  datatype Look = Ready | NotYet | Absent

  // ---- one look -------------------------------------------------------------------------------------

  /** `readEngineSignal`. `marker` is None unless the file is there and fresh; `token` is what the third
      read finds for the marker's pid. */
  function Signal(marker: Option<Marker>, pids: Option<seq<nat>>, token: Option<nat>): Look {
    if pids.None? then NotYet
    else if pids.value == [] then Absent
    else if marker.None? || !marker.value.ready || marker.value.instance.None? then NotYet
    else if marker.value.pid in pids.value && token == marker.value.instance then Ready
    else NotYet
  }

  /** The loop over the enumerated pids; only the marker's own pid is asked for its instance. */
  method ReadEngineSignal(marker: Option<Marker>, pids: Option<seq<nat>>, instance: nat -> Option<nat>)
    returns (look: Look)
    ensures look == Signal(marker, pids, if marker.Some? then instance(marker.value.pid) else None)
    // A failed enumeration is no absence; only an enumeration that finds nobody is.
    ensures look == Absent <==> pids == Some([])
    ensures pids.None? ==> look == NotYet
    ensures look == Ready <==>
              && pids.Some? && marker.Some? && marker.value.pid in pids.value
              && marker.value.ready && marker.value.instance.Some?
              && instance(marker.value.pid) == marker.value.instance
  {
    if pids.None? {
      return NotYet;
    }
    if pids.value == [] {
      return Absent;
    }
    if marker.None? || !marker.value.ready || marker.value.instance.None? {
      return NotYet;
    }
    for k := 0 to |pids.value|
      invariant marker.value.pid !in pids.value[..k]
    {
      if pids.value[k] != marker.value.pid {
        continue;
      }
      var token := instance(pids.value[k]);
      if token.None? || token != marker.value.instance {
        return NotYet;
      }
      return Ready;
    }
    look := NotYet;
  }

  // ---- processes, the marker file and looks, interleaved --------------------------------------------

  /** One run of one pid. The instance token does not mention the pid, so two pids may share one. */
  datatype Run = Run(pid: nat, instance: nat)

  /** A process's handle on its marker and what it would write. Releasing one ends its life under the lock and
      removes the file behind it. */
  datatype Life = Inert | Live | Leaving | Released

  datatype Held = Held(life: Life, instance: Option<nat>, ready: bool)

  /** A look between its reads. */
  datatype Looking = SawPids(pids: Option<seq<nat>>) | SawMarker(pids: Option<seq<nat>>, marker: Option<Marker>)

  /** `alive` gives each live pid's instance; `started` and `recovered` are history. */
  datatype World = World(
    alive: map<nat, nat>,
    held: map<nat, Held>,
    file: Option<Marker>,
    looks: map<nat, Looking>,
    started: set<Run>,
    recovered: set<Run>)

  /** `written` says whether a rewrite of the file succeeded; it is atomic. */
  datatype Event =
    | Start(pid: nat, instance: nat)
    | Exit(pid: nat)                                                    // a crash: the file stays
    | Hold(pid: nat, written: bool)
    | Identify(pid: nat, known: bool, written: bool)
    | Refresh(pid: nat, written: bool)
    | Recover(pid: nat, failed: bool, cancelled: bool, written: bool)   // recoverThenReady
    | Release(pid: nat)
    | Remove(pid: nat, removed: bool)                                   // the file of whoever wrote it last
    | Enumerate(look: nat, pids: Option<seq<nat>>)
    | ReadMarker(look: nat, recent: bool)
    | ReadInstance(look: nat, readable: bool)

  function RunOf(w: World, pid: nat): Run
    requires pid in w.alive
  {
    Run(pid, w.alive[pid])
  }

  function Written(w: World, pid: nat, h: Held, written: bool): World {
    w.(held := w.held[pid := h], file := if written then Some(Marker(pid, h.instance, h.ready)) else w.file)
  }

  predicate Holds(w: World, pid: nat) { pid in w.alive && pid in w.held && w.held[pid].life.Live? }

  function TokenOf(w: World, pid: nat, readable: bool): Option<nat> {
    if readable && pid in w.alive then Some(w.alive[pid]) else None
  }

  /** The verdict of a look whose third read happens now. */
  function VerdictOf(w: World, look: nat, readable: bool): Option<Look> {
    if look !in w.looks || !w.looks[look].SawMarker? then None
    else
      var marker := w.looks[look].marker;
      var token := if marker.Some? then TokenOf(w, marker.value.pid, readable) else None;
      Some(Signal(marker, w.looks[look].pids, token))
  }

  /** One event; an impossible one changes nothing. A run of a pid never gets an instance token that pid
      had before. The enumeration may answer anything. */
  function Step(w: World, e: Event): World {
    match e
    case Start(pid, instance) =>
      if pid in w.alive || Run(pid, instance) in w.started then w
      else w.(alive := w.alive[pid := instance], held := w.held - {pid}, started := w.started + {Run(pid, instance)})
    case Exit(pid) => w.(alive := w.alive - {pid}, held := w.held - {pid})
    case Hold(pid, written) =>
      if pid !in w.alive || pid in w.held then w
      else if written then Written(w, pid, Held(Live, None, false), true)
      else w.(held := w.held[pid := Held(Inert, None, false)])
    case Identify(pid, known, written) =>
      if !Holds(w, pid) || !known || w.held[pid].instance == Some(w.alive[pid]) then w
      else Written(w, pid, w.held[pid].(instance := Some(w.alive[pid])), written)
    case Refresh(pid, written) =>
      if !Holds(w, pid) then w else Written(w, pid, w.held[pid], written)
    case Recover(pid, failed, cancelled, written) =>
      if pid !in w.alive || failed then w
      else
        var w1 := w.(recovered := w.recovered + {RunOf(w, pid)});
        if cancelled || !Holds(w, pid) || w.held[pid].ready then w1
        else Written(w1, pid, w.held[pid].(ready := true), written)
    case Release(pid) =>
      if !Holds(w, pid) then w
      else w.(held := w.held[pid := w.held[pid].(life := Leaving)])
    case Remove(pid, removed) =>
      if pid !in w.alive || pid !in w.held || !w.held[pid].life.Leaving? then w
      else w.(held := w.held[pid := w.held[pid].(life := Released)], file := if removed then None else w.file)
    case Enumerate(look, pids) =>
      if look in w.looks then w else w.(looks := w.looks[look := SawPids(pids)])
    case ReadMarker(look, recent) =>
      if look !in w.looks || w.looks[look].SawMarker? then w
      else w.(looks := w.looks[look := SawMarker(w.looks[look].pids, if recent then w.file else None)])
    case ReadInstance(look, readable) => w.(looks := w.looks - {look})
  }

  function Execute(w: World, es: seq<Event>): World
    decreases |es|
  {
    if es == [] then w else Execute(Step(w, es[0]), es[1..])
  }

  const Empty := World(map[], map[], None, map[], {}, {})

  /** A marker that says ready and names its run was written by a run that had recovered. */
  predicate Honest(w: World, m: Option<Marker>) {
    m.Some? && m.value.ready && m.value.instance.Some? ==> Run(m.value.pid, m.value.instance.value) in w.recovered
  }

  ghost predicate Inv(w: World) {
    && w.recovered <= w.started
    && (forall pid :: pid in w.alive ==> RunOf(w, pid) in w.started)
    && (forall pid :: pid in w.held ==>
          && pid in w.alive
          && (w.held[pid].instance.Some? ==> w.held[pid].instance.value == w.alive[pid])
          && (w.held[pid].ready ==> RunOf(w, pid) in w.recovered))
    && Honest(w, w.file)
    && (forall look :: look in w.looks && w.looks[look].SawMarker? ==> Honest(w, w.looks[look].marker))
  }

  lemma StepKeepsInv(w: World, e: Event)
    requires Inv(w)
    ensures Inv(Step(w, e))
  {
    match e
    case Start(pid, instance) => StartKeeps(w, pid, instance);
    case Exit(pid) => ExitKeeps(w, pid);
    case Hold(pid, written) => HoldKeeps(w, pid, written);
    case Identify(pid, known, written) => IdentifyKeeps(w, pid, known, written);
    case Refresh(pid, written) =>
      if Holds(w, pid) { WriteKeeps(w, pid, w.held[pid], written); }
    case Recover(pid, failed, cancelled, written) => RecoverKeeps(w, pid, failed, cancelled, written);
    case Release(pid) => LeaveKeeps(w, pid);
    case Remove(pid, removed) => LeaveKeeps(w, pid);
    case Enumerate(_, _) => LookKeeps(w, e);
    case ReadMarker(_, _) => LookKeeps(w, e);
    case ReadInstance(_, _) => LookKeeps(w, e);
  }

  lemma StartKeeps(w: World, pid: nat, instance: nat)
    requires Inv(w)
    ensures Inv(Step(w, Start(pid, instance)))
  {
  }

  lemma ExitKeeps(w: World, pid: nat)
    requires Inv(w)
    ensures Inv(Step(w, Exit(pid)))
  {
  }

  lemma HoldKeeps(w: World, pid: nat, written: bool)
    requires Inv(w)
    ensures Inv(Step(w, Hold(pid, written)))
  {
    if pid in w.alive && written { WriteKeeps(w, pid, Held(Live, None, false), true); }
  }

  lemma IdentifyKeeps(w: World, pid: nat, known: bool, written: bool)
    requires Inv(w)
    ensures Inv(Step(w, Identify(pid, known, written)))
  {
    if Holds(w, pid) { WriteKeeps(w, pid, w.held[pid].(instance := Some(w.alive[pid])), written); }
  }

  lemma RecoverKeeps(w: World, pid: nat, failed: bool, cancelled: bool, written: bool)
    requires Inv(w)
    ensures Inv(Step(w, Recover(pid, failed, cancelled, written)))
  {
    if pid in w.alive {
      var w1 := w.(recovered := w.recovered + {RunOf(w, pid)});
      assert Inv(w1);
      if Holds(w, pid) { WriteKeeps(w1, pid, w.held[pid].(ready := true), written); }
    }
  }

  lemma LeaveKeeps(w: World, pid: nat)
    requires Inv(w)
    ensures Inv(Step(w, Release(pid))) && forall removed :: Inv(Step(w, Remove(pid, removed)))
  {
  }

  lemma LookKeeps(w: World, e: Event)
    requires Inv(w)
    requires e.Enumerate? || e.ReadMarker? || e.ReadInstance?
    ensures Inv(Step(w, e))
  {
  }

  /** A process that writes its marker writes what it is. */
  lemma WriteKeeps(w: World, pid: nat, h: Held, written: bool)
    requires Inv(w) && pid in w.alive
    requires h.instance.Some? ==> h.instance.value == w.alive[pid]
    requires h.ready ==> RunOf(w, pid) in w.recovered
    ensures Inv(Written(w, pid, h, written))
  {
  }

  lemma {:induction false} InvAlways(w: World, es: seq<Event>)
    requires Inv(w)
    ensures Inv(Execute(w, es))
    decreases |es|
  {
    if es != [] {
      StepKeepsInv(w, es[0]);
      InvAlways(Step(w, es[0]), es[1..]);
    }
  }

  /** A ready verdict is never borrowed from a dead engine: whatever starts, crashes and takes over pids
      between the three reads, the run that is alive under the marker's pid when the token is read is
      one whose recovery finished. */
  lemma {:induction false} ReadyIsNeverBorrowed(es: seq<Event>, look: nat, readable: bool)
    ensures
      var w := Execute(Empty, es);
      VerdictOf(w, look, readable) == Some(Ready) ==>
        && look in w.looks && w.looks[look].SawMarker? && w.looks[look].marker.Some?
        && var pid := w.looks[look].marker.value.pid;
           && pid in w.alive
           && RunOf(w, pid) in w.recovered
           && w.looks[look].pids.Some? && pid in w.looks[look].pids.value
  {
    InvAlways(Empty, es);
  }

  /** The pid alone would not do: when a ready engine crashes and its pid is handed to a replacement, the
      file still says ready about a live pid whose run has not recovered. The token tells them apart. */
  lemma ThePidAloneIsBorrowed(w: World, pid: nat, instance: nat, next: nat)
    requires Inv(w)
    requires w.file == Some(Marker(pid, Some(instance), true)) && pid in w.alive && w.alive[pid] == instance
    requires Run(pid, next) !in w.started
    ensures
      var w' := Step(Step(w, Exit(pid)), Start(pid, next));
      && w'.file == w.file && pid in w'.alive
      && RunOf(w', pid) !in w'.recovered
      && Signal(w'.file, Some([pid]), TokenOf(w', pid, true)) == NotYet
  {
  }

  // ---- what a sound engine gets ---------------------------------------------------------------------------

  /** One look without anything in between. */
  function LookAt(w: World, look: nat, pids: Option<seq<nat>>): World {
    Step(Step(w, Enumerate(look, pids)), ReadMarker(look, true))
  }

  /** A live engine holds its marker, its own instance in it, and nobody else has written since. */
  predicate Sits(w: World, pid: nat, instance: nat, ready: bool) {
    && pid in w.alive && w.alive[pid] == instance
    && pid in w.held && w.held[pid] == Held(Live, Some(instance), ready)
    && w.file == Some(Marker(pid, Some(instance), ready))
  }

  /** Such an engine is found ready by a look that enumerates it and can read its instance if and only if its
      marker says ready; not yet by one that cannot read the instance or enumerate; and absent by one that
      enumerates nobody. */
  lemma LookFindsIff(w: World, look: nat, pid: nat, instance: nat, ready: bool)
    requires look !in w.looks && Sits(w, pid, instance, ready)
    ensures VerdictOf(LookAt(w, look, Some([pid])), look, true) == Some(if ready then Ready else NotYet)
    ensures VerdictOf(LookAt(w, look, Some([pid])), look, false) == Some(NotYet)
    ensures VerdictOf(LookAt(w, look, Some([])), look, true) == Some(Absent)
    ensures VerdictOf(LookAt(w, look, None), look, true) == Some(NotYet)
  {
  }

  /** From its start on, an engine whose writes work is waited for until its recovery is over, and confirmed
      from then on through every refresh; once it is released and its marker removed, it is not. */
  lemma AnEngineIsConfirmed(w: World, pid: nat, instance: nat, look: nat)
    requires pid !in w.alive && pid !in w.held && Run(pid, instance) !in w.started && look !in w.looks
    ensures
      var held := Step(Step(Step(w, Start(pid, instance)), Hold(pid, true)), Identify(pid, true, true));
      var done := Step(held, Recover(pid, false, false, true));
      && VerdictOf(LookAt(held, look, Some([pid])), look, true) == Some(NotYet)
      && VerdictOf(LookAt(done, look, Some([pid])), look, true) == Some(Ready)
      && VerdictOf(LookAt(Step(done, Refresh(pid, true)), look, Some([pid])), look, true) == Some(Ready)
      && VerdictOf(LookAt(Left(done, pid), look, Some([pid])), look, true) == Some(NotYet)
  {
    var held := Step(Step(Step(w, Start(pid, instance)), Hold(pid, true)), Identify(pid, true, true));
    var done := Step(held, Recover(pid, false, false, true));
    IdentifiedSits(w, pid, instance);
    RecoveredSits(held, pid, instance);
    LookFindsIff(held, look, pid, instance, false);
    LookFindsIff(done, look, pid, instance, true);
    LookFindsIff(Step(done, Refresh(pid, true)), look, pid, instance, true);
    NobodyIsFound(Left(done, pid), look, pid);
  }

  function Left(w: World, pid: nat): World { Step(Step(w, Release(pid)), Remove(pid, true)) }

  lemma IdentifiedSits(w: World, pid: nat, instance: nat)
    requires pid !in w.alive && pid !in w.held && Run(pid, instance) !in w.started
    ensures
      var held := Step(Step(Step(w, Start(pid, instance)), Hold(pid, true)), Identify(pid, true, true));
      Sits(held, pid, instance, false) && held.looks == w.looks
  {
    var s1 := Step(w, Start(pid, instance));
    var s2 := Step(s1, Hold(pid, true));
    assert s2.held[pid] == Held(Live, None, false) && s2.alive[pid] == instance;
  }

  lemma RecoveredSits(w: World, pid: nat, instance: nat)
    requires Sits(w, pid, instance, false)
    ensures
      var done := Step(w, Recover(pid, false, false, true));
      && Sits(done, pid, instance, true) && done.looks == w.looks
      && Sits(Step(done, Refresh(pid, true)), pid, instance, true) && Step(done, Refresh(pid, true)).looks == w.looks
      && Left(done, pid).file == None && Left(done, pid).looks == w.looks
  {
  }

  lemma NobodyIsFound(w: World, look: nat, pid: nat)
    requires look !in w.looks && w.file == None
    ensures VerdictOf(LookAt(w, look, Some([pid])), look, true) == Some(NotYet)
  {
  }

  /** A marker that is stale, or that is not there, confirms nobody. */
  lemma AStaleMarkerConfirmsNobody(w: World, look: nat, pids: seq<nat>, readable: bool)
    requires look !in w.looks && pids != []
    ensures
      var seen := Step(Step(w, Enumerate(look, Some(pids))), ReadMarker(look, false));
      VerdictOf(seen, look, readable) == Some(NotYet)
  {
  }

  /** An engine that could not write its first marker never writes one. */
  lemma AnInertHandleWritesNothing(w: World, pid: nat, known: bool, written: bool, failed: bool, cancelled: bool)
    requires pid in w.alive && pid !in w.held
    ensures
      var inert := Step(w, Hold(pid, false));
      && inert.file == w.file
      && Step(inert, Identify(pid, known, written)).file == w.file
      && Step(inert, Refresh(pid, written)).file == w.file
      && Step(inert, Recover(pid, failed, cancelled, written)).file == w.file
      && Step(inert, Release(pid)) == inert && Step(inert, Remove(pid, written)) == inert
  {
  }

  /** A recovery that fails, or ends after the engine was told to stop, publishes nothing. */
  lemma OnlyAFinishedRecoveryPublishes(w: World, pid: nat, failed: bool, cancelled: bool, written: bool)
    requires failed || cancelled
    ensures
      var w' := Step(w, Recover(pid, failed, cancelled, written));
      w'.file == w.file && w'.held == w.held && (failed ==> w' == w)
  {
  }

  // ---- the bounded wait -----------------------------------------------------------------------------

  datatype Verdict = Confirmed | NoEngine | CapExceeded | Abandoned

  /** One round of the wait: what the look saw, the clock after it, and whether the context ended while
      sleeping. */
  datatype Round = Round(look: Look, now: int, interrupted: bool)

  /** The clock starts at `start` and each sleep lasts at least `poll`. */
  predicate Clocked(start: int, rounds: seq<Round>, poll: int) {
    && (rounds != [] ==> rounds[0].now >= start)
    && forall k :: 0 <= k < |rounds| - 1 ==> rounds[k + 1].now >= rounds[k].now + poll
  }

  /** `awaitEngineReady`: the verdict of the first round that decides, after at most limit / poll + 1
      rounds that do not. `rounds` must be long enough for the cap to be reached. */
  method AwaitEngineReady(ended: bool, start: int, rounds: seq<Round>, limit: int, poll: int)
    returns (verdict: Verdict, last: nat)
    requires poll > 0 && Clocked(start, rounds, poll)
    requires |rounds| > 0 && (|rounds| - 1) * poll >= limit
    ensures ended ==> verdict == Abandoned && last == 0
    ensures !ended ==>
              && last < |rounds|
              && (forall k :: 0 <= k < last ==>
                    rounds[k].look == NotYet && rounds[k].now < start + limit && !rounds[k].interrupted)
              && (verdict == Confirmed <==> rounds[last].look == Ready)
              && (verdict == NoEngine <==> rounds[last].look == Absent)
              && (verdict == CapExceeded <==> rounds[last].look == NotYet && rounds[last].now >= start + limit)
              && (verdict == Abandoned ==> rounds[last].interrupted)
              && (last > 0 ==> (last - 1) * poll < limit)
  {
    if ended {
      return Abandoned, 0;
    }
    var deadline := start + limit;
    last := 0;
    while true
      invariant last < |rounds|
      invariant rounds[last].now >= start + last * poll
      invariant forall k :: 0 <= k < last ==>
                  rounds[k].look == NotYet && rounds[k].now < deadline && !rounds[k].interrupted
      invariant last > 0 ==> (last - 1) * poll < limit
      decreases |rounds| - last
    {
      var round := rounds[last];
      if round.look.Absent? {
        return NoEngine, last;
      }
      if round.look.Ready? {
        return Confirmed, last;
      }
      if round.now >= deadline {
        return CapExceeded, last;
      }
      if round.interrupted {
        return Abandoned, last;
      }
      assert (last + 1) * poll == last * poll + poll;
      NotTheLast(last, |rounds| - 1, poll, limit);
      last := last + 1;
    }
  }

  lemma NotTheLast(k: nat, n: nat, poll: int, limit: int)
    requires poll > 0 && k * poll < limit <= n * poll
    ensures k < n
  {
    ProductOrder(n, k, poll);
  }
}

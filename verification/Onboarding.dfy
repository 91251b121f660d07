/** Saving Open API credentials survives a stop between any two steps: a pending marker is down before
    anything is stored and goes away only when everything is done. */
module Onboarding {
  import opened Prelude

  /** Where a Save is. Validation comes first and touches nothing that lasts. */
  datatype Save = Validated(cred: nat) | Marked(cred: nat) | Stored(cred: nat) | Emptied | Audited

  /** Where a Check is: the marker was absent, then the credentials were loaded. `generation` is history:
      how often credentials had been stored by then. */
  datatype Check = Cleared | Loaded(cred: nat, generation: nat)

  /** `token` is the owner of the cached token. Credentials are numbers; `stores` counts how often they
      were replaced and `audited` is the count at the last audit entry, so the stored ones are audited
      exactly when the two agree. `cleared` is history: the count when a Save last cleared the marker. */
  datatype World = World(
    pending: bool,
    stored: Option<nat>,
    token: Option<nat>,
    stores: nat,
    audited: nat,
    cleared: nat,
    save: Option<Save>,
    checks: map<nat, Check>)

  /** Each step of a Save may fail; `done` says whether a failing step had taken effect all the same. */
  datatype Event =
    | Validate(cred: nat, accepted: bool)
    | Mark(works: bool, left: bool)
    | Store(works: bool, done: bool)
    | Empty(works: bool, done: bool)
    | Audit(works: bool, done: bool)
    | Clear(works: bool)
    | Stop                                              // the process ends inside a Save
    | CheckMarker(check: nat, readable: bool)
    | CheckLoad(check: nat, readable: bool)
    | CheckProbe(check: nat, accepted: bool, caches: bool)  // the probe may put a token in the cache

  datatype Answer = Ready(cred: nat) | NotReady

  function Done(w: World): World { w.(save := None) }

  function Replace(w: World, cred: nat): World { w.(stored := Some(cred), stores := w.stores + 1) }

  function Step(w: World, e: Event): World {
    match e
    case Validate(cred, accepted) =>
      if w.save.Some? || !accepted then w else w.(save := Some(Validated(cred)))
    case Mark(works, left) =>
      if w.save.None? || !w.save.value.Validated? then w
      else if works then w.(pending := true, save := Some(Marked(w.save.value.cred)))
      else Done(w.(pending := w.pending || left))
    case Store(works, done) =>
      if w.save.None? || !w.save.value.Marked? then w
      else
        var cred := w.save.value.cred;
        if works then Replace(w, cred).(save := Some(Stored(cred)))
        else Done(if done then Replace(w, cred) else w)
    case Empty(works, done) =>
      if w.save.None? || !w.save.value.Stored? then w
      else if works then w.(token := None, save := Some(Emptied))
      else Done(if done then w.(token := None) else w)
    case Audit(works, done) =>
      if w.save.None? || !w.save.value.Emptied? then w
      else if works then w.(audited := w.stores, save := Some(Audited))
      else Done(if done then w.(audited := w.stores) else w)
    case Clear(works) =>
      if w.save.None? || !w.save.value.Audited? then w
      else Done(if works then w.(pending := false, cleared := w.stores) else w)
    case Stop => Done(w)
    case CheckMarker(check, readable) =>
      if !readable || w.pending then w.(checks := w.checks - {check})
      else w.(checks := w.checks[check := Cleared])
    case CheckLoad(check, readable) =>
      if check !in w.checks || !w.checks[check].Cleared? then w
      else if !readable || w.stored.None? then w.(checks := w.checks - {check})
      else w.(checks := w.checks[check := Loaded(w.stored.value, w.stores)])
    case CheckProbe(check, accepted, caches) =>
      if check !in w.checks || !w.checks[check].Loaded? then w
      else w.(checks := w.checks - {check},
              token := if caches then Some(w.checks[check].cred) else w.token)
  }

  /** What a Check answers when its probe comes back. */
  function AnswerOf(w: World, check: nat, accepted: bool): Answer {
    if check in w.checks && w.checks[check].Loaded? && accepted then Ready(w.checks[check].cred) else NotReady
  }

  /** The cached token, if any, belongs to the stored credentials. */
  predicate TokenFits(w: World) { w.token.Some? ==> w.token == w.stored }

  /** Nothing is pending: what is stored was audited, and the token cache is empty or theirs. */
  predicate Complete(w: World) {
    !w.pending && (w.stored.Some? ==> w.audited == w.stores) && TokenFits(w)
  }

  /** Without a marker, everything a marker protects is in order; a Save past its marker has it down. */
  predicate Sound(w: World) {
    && (!w.pending ==> Complete(w))
    && w.audited <= w.stores
    && (w.save.Some? && !w.save.value.Validated? ==> w.pending)
    && (w.save.Some? ==>
          match w.save.value
          case Validated(_) => true
          case Marked(_) => true
          case Stored(cred) => w.stored == Some(cred)
          case Emptied => w.stored.Some? && TokenFits(w)
          case Audited => w.stored.Some? && TokenFits(w) && w.audited == w.stores)
  }

  /** The probe of a loaded Check puts a token in the cache. */
  predicate Caches(w: World, e: Event) {
    e.CheckProbe? && e.caches && e.check in w.checks && w.checks[e.check].Loaded?
  }

  /** A token in the cache now stays there until a Save that has not emptied the cache yet does so: no Save
      stands between it and the absence of the marker. */
  predicate Settled(w: World) {
    !w.pending || (w.save.Some? && (w.save.value.Emptied? || w.save.value.Audited?))
  }

  /** A Check's late probe does no harm: it caches nothing, or a token of the credentials that are stored, or
      the marker cannot go away before a Save has emptied the cache. */
  predicate Apart(w: World, e: Event) {
    Caches(w, e) && Settled(w) ==> w.stored == Some(w.checks[e.check].cred)
  }

  /** Every step of a run is sound, and leaves it sound, wherever Saves stop or fail, as long as Checks
      stay apart from Saves. */
  lemma StepKeepsSound(w: World, e: Event)
    requires Sound(w) && Apart(w, e)
    ensures Sound(Step(w, e))
  {
  }

  function Run(w: World, es: seq<Event>): World
    decreases |es|
  {
    if es == [] then w else Run(Step(w, es[0]), es[1..])
  }

  predicate AllApart(w: World, es: seq<Event>)
    decreases |es|
  {
    es == [] || (Apart(w, es[0]) && AllApart(Step(w, es[0]), es[1..]))
  }

  lemma {:induction false} SoundAlways(w: World, es: seq<Event>)
    requires Sound(w) && AllApart(w, es)
    ensures Sound(Run(w, es))
    decreases |es|
  {
    if es != [] {
      StepKeepsSound(w, es[0]);
      SoundAlways(Step(w, es[0]), es[1..]);
    }
  }

  lemma {:induction false} WithoutProbesApart(w: World, es: seq<Event>)
    requires forall k :: 0 <= k < |es| ==> !es[k].CheckProbe?
    ensures AllApart(w, es)
    decreases |es|
  {
    if es != [] {
      assert !es[0].CheckProbe?;
      WithoutProbesApart(Step(w, es[0]), es[1..]);
    }
  }

  const Untouched := World(false, None, None, 0, 0, 0, None, map[])

  /** The last thing that wrote the token cache was a Save that emptied it, or a probe that was apart then;
      `fits` says so of the cache that the run starts with. */
  predicate LastWriteFits(w: World, es: seq<Event>, fits: bool)
    decreases |es|
  {
    if es == [] then fits else LastWriteFits(Step(w, es[0]), es[1..], WriteFits(w, es[0], fits))
  }

  predicate WriteFits(w: World, e: Event, fits: bool) {
    if Caches(w, e) then Apart(w, e)
    else if e.Empty? && w.save.Some? && w.save.value.Stored? && (e.works || e.done) then true
    else fits
  }

  /** While no Save has yet to empty the cache, its token fits exactly when its last write did. */
  predicate Tracks(w: World, fits: bool) {
    && (w.save.Some? && !w.save.value.Validated? ==> w.pending)
    && (Settled(w) ==> (TokenFits(w) <==> fits))
  }

  lemma StepKeepsTrack(w: World, e: Event, fits: bool)
    requires Tracks(w, fits)
    ensures Tracks(Step(w, e), WriteFits(w, e, fits))
  {
  }

  lemma {:induction false} RunKeepsTrack(w: World, es: seq<Event>, fits: bool)
    requires Tracks(w, fits)
    ensures Tracks(Run(w, es), LastWriteFits(w, es, fits))
    decreases |es|
  {
    if es != [] {
      StepKeepsTrack(w, es[0], fits);
      RunKeepsTrack(Step(w, es[0]), es[1..], WriteFits(w, es[0], fits));
    }
  }

  /** Over any Saves, each cut short or failing after any step, and any Checks overlapping them: absence of
      the marker means that the stored credentials were audited by a Save that ran to its end; and the
      token cache is empty or theirs if and only if the last thing that wrote it was a Save, or a probe
      that was apart at that moment. */
  lemma {:induction false} NoMarkerMeansComplete(es: seq<Event>)
    requires !Run(Untouched, es).pending
    ensures
      var w := Run(Untouched, es);
      && (w.stored.Some? ==> w.audited == w.stores && Completed(es, w.stores))
      && (Complete(w) <==> LastWriteFits(Untouched, es, true))
  {
    ClearedIsTheLastCompleted(es);
    RunKeepsTrack(Untouched, es, true);
  }

  /** In particular Checks that stay apart from Saves leave both promises standing. */
  lemma {:induction false} ApartRunsAreSound(es: seq<Event>)
    requires AllApart(Untouched, es)
    ensures Sound(Run(Untouched, es))
  {
    SoundAlways(Untouched, es);
  }

  /** A Save that is stopped after it has stored and before it has cleared the marker cannot be mistaken
      for a finished one by any later Check, until a whole Save has gone through. */
  lemma {:induction false} NoWholeSaveNoReady(w: World, es: seq<Event>)
    requires w.pending && w.checks == map[]
    requires forall k :: 0 <= k < |es| ==> es[k] != Clear(true)
    ensures Run(w, es).pending && Run(w, es).checks == map[]
    decreases |es|
  {
    if es != [] {
      NoWholeSaveNoReady(Step(w, es[0]), es[1..]);
    }
  }

  /** A Check that runs in one piece, even in the middle of somebody's Save and after any overlaps of
      others, says ready only for a fully completed Save: the credentials it probed are the stored ones,
      audited. Its own probe is always apart, and a token that it caches is theirs. */
  lemma {:induction false} CheckInOnePiece(es: seq<Event>, check: nat, accepted: bool, caches: bool)
    ensures
      var w := Run(Untouched, es);
      var w1 := Step(Step(w, CheckMarker(check, true)), CheckLoad(check, true));
      var answer := AnswerOf(w1, check, accepted);
      var probe := CheckProbe(check, accepted, caches);
      && Apart(w1, probe)
      && (answer.Ready? ==>
            && w.stored == Some(answer.cred) && w.audited == w.stores && Completed(es, w.stores)
            && Step(w1, probe).stored == w.stored
            && (Complete(Step(w1, probe)) <==> caches || LastWriteFits(Untouched, es, true)))
  {
    if !Run(Untouched, es).pending {
      NoMarkerMeansComplete(es);
    }
  }

  /** A Check gets past its first two reads only with a marker that can be read and is absent, and credentials
      that can be read and are there; then it is about exactly those, and is ready if they are accepted. */
  lemma CheckReads(w: World, check: nat, marker: bool, load: bool, accepted: bool)
    requires check !in w.checks
    ensures
      var w1 := Step(Step(w, CheckMarker(check, marker)), CheckLoad(check, load));
      && AnswerOf(w1, check, accepted) ==
           (if marker && !w.pending && load && w.stored.Some? && accepted then Ready(w.stored.value) else NotReady)
      && w1.stored == w.stored && w1.token == w.token && w1.pending == w.pending
  {
  }

  /** A stop leaves everything lasting as it is, and no Save under way. */
  lemma StopsLeaveEverything(w: World)
    ensures Step(w, Stop) == w.(save := None)
  {
  }

  /** Its probe leaves a token of the loaded credentials, if it leaves any. */
  lemma ProbesCache(w: World, check: nat, accepted: bool, caches: bool)
    requires check in w.checks && w.checks[check].Loaded?
    ensures
      var w' := Step(w, CheckProbe(check, accepted, caches));
      && w'.token == (if caches then Some(w.checks[check].cred) else w.token)
      && check !in w'.checks && w'.stored == w.stored && w'.pending == w.pending
  {
  }

  /** How a Save that has emptied the cache ends when nothing fails. */
  function Finish(w: World): seq<Event> {
    if w.save == Some(Emptied) then [Audit(true, true), Clear(true)]
    else if w.save == Some(Audited) then [Clear(true)]
    else []
  }

  lemma FinishEnds(w: World)
    requires Settled(w) && (w.save.Some? && !w.save.value.Validated? ==> w.pending)
    ensures AllApart(w, Finish(w)) && !Run(w, Finish(w)).pending
    ensures Run(w, Finish(w)).token == w.token && Run(w, Finish(w)).stored == w.stored
  {
    var es := Finish(w);
    if w.save == Some(Emptied) {
      assert es[1..] == [Clear(true)] && es[1..][1..] == [];
      assert Run(Step(Step(w, es[0]), Clear(true)), []) == Step(Step(w, es[0]), Clear(true));
    } else if w.save == Some(Audited) {
      assert es[1..] == [];
    }
  }

  /** That condition is exact for the promise itself: a probe is apart if and only if no run behind it whose
      other probes are apart ends with the marker gone and the cache wrong. Where it is not, finishing the
      Save that is under way is such a run. */
  lemma {:induction false} LateProbeIsHarmlessIff(w: World, probe: Event)
    requires Sound(w) && probe.CheckProbe?
    ensures Apart(w, probe) <==>
      forall es :: AllApart(Step(w, probe), es) && !Run(Step(w, probe), es).pending ==>
        Complete(Run(Step(w, probe), es))
  {
    var after := Step(w, probe);
    if Apart(w, probe) {
      StepKeepsSound(w, probe);
      forall es | AllApart(after, es)
        ensures Sound(Run(after, es))
      {
        SoundAlways(after, es);
      }
    } else {
      FinishEnds(after);
      assert !TokenFits(Run(after, Finish(after)));
    }
  }

  // ---- when an overlapping ready answer is right ------------------------------------------------------

  /** Some Save that stored the credentials for the g-th time ran to its end. */
  ghost predicate Completed(es: seq<Event>, g: nat) {
    exists k | 0 <= k < |es| :: Completes(es, k, g)
  }

  ghost predicate Completes(es: seq<Event>, k: nat, g: nat)
    requires k < |es|
  {
    && es[k] == Clear(true)
    && var w := Run(Untouched, es[..k]);
       w.save == Some(Audited) && w.stores == g
  }

  /** What the marker and the history promise in every run, however Checks overlap Saves. */
  predicate Recorded(w: World) {
    && (w.stored.Some? <==> w.stores > 0)
    && w.cleared <= w.stores && w.audited <= w.stores
    && (!w.pending || w.cleared == w.stores ==> w.cleared == w.stores == w.audited)
    && (w.save.Some? && !w.save.value.Validated? ==> w.pending)
    && (w.save.Some? && !w.save.value.Validated? && !w.save.value.Marked? ==> w.stores > 0)
    && (w.save == Some(Audited) ==> w.audited == w.stores)
    && (forall c :: c in w.checks && w.checks[c].Loaded? ==>
          && w.checks[c].generation <= w.stores
          && (w.checks[c].generation == w.stores ==> w.stored == Some(w.checks[c].cred)))
  }

  lemma StepKeepsRecorded(w: World, e: Event)
    requires Recorded(w)
    ensures Recorded(Step(w, e)) && w.stores <= Step(w, e).stores
    ensures w.cleared == w.stores == Step(w, e).stores ==> Step(w, e).cleared == w.stores
    ensures
      var w' := Step(w, e);
      if e == Clear(true) && w.save == Some(Audited) then w'.cleared == w.stores else w'.cleared == w.cleared
  {
  }

  lemma {:induction false} RunAppend(w: World, es: seq<Event>, more: seq<Event>)
    ensures Run(w, es + more) == Run(Run(w, es), more)
    decreases |es|
  {
    if es == [] {
      assert es + more == more;
    } else {
      assert (es + more)[1..] == es[1..] + more;
      RunAppend(Step(w, es[0]), es[1..], more);
    }
  }

  /** `cleared` is the last generation that was saved completely. */
  lemma {:induction false} ClearedIsTheLastCompleted(es: seq<Event>)
    ensures Recorded(Run(Untouched, es))
    ensures Run(Untouched, es).cleared > 0 ==> Completed(es, Run(Untouched, es).cleared)
    ensures forall g: nat :: Completed(es, g) ==> 0 < g <= Run(Untouched, es).cleared
    decreases |es|
  {
    if es != [] {
      var n := |es| - 1;
      var w := Run(Untouched, es[..n]);
      assert es == es[..n] + [es[n]];
      RunAppend(Untouched, es[..n], [es[n]]);
      assert Run(w, [es[n]]) == Step(w, es[n]) by { assert [es[n]][1..] == []; }
      ClearedIsTheLastCompleted(es[..n]);
      StepKeepsRecorded(w, es[n]);
      CompletedGrows(es);
    }
  }

  lemma CompletedGrows(es: seq<Event>)
    requires es != []
    ensures forall g: nat :: Completed(es, g) <==> Completed(es[..|es| - 1], g) || Completes(es, |es| - 1, g)
  {
    var n := |es| - 1;
    assert forall k :: 0 <= k < n ==> es[..n][..k] == es[..k];
    forall g: nat
      ensures Completed(es, g) <==> Completed(es[..n], g) || Completes(es, n, g)
    {
      if Completed(es, g) && !Completes(es, n, g) {
        var k :| 0 <= k < |es| && Completes(es, k, g);
        assert Completes(es[..n], k, g);
      }
      if Completed(es[..n], g) {
        var k :| 0 <= k < n && Completes(es[..n], k, g);
        assert Completes(es, k, g);
      }
    }
  }

  /** In any interleaving, the credentials a Check loads are those of a Save that ran to its end, and
      audited, if and only if nothing has been stored since the marker was last cleared. They are whenever
      the marker is absent at the load too. */
  lemma {:induction false} LoadedIsCompletedIff(es: seq<Event>)
    requires Run(Untouched, es).stored.Some?
    ensures
      var w := Run(Untouched, es);
      && (Completed(es, w.stores) && w.audited == w.stores <==> w.cleared == w.stores)
      && (!w.pending ==> Completed(es, w.stores) && w.audited == w.stores)
  {
    ClearedIsTheLastCompleted(es);
  }

  /** A ready answer is right when the credentials it is about are the stored ones, audited, and their Save
      has run to its end. */
  ghost predicate RightAbout(es: seq<Event>, g: nat, cred: nat) {
    var w := Run(Untouched, es);
    w.stored == Some(cred) && w.stores == w.audited == g && Completed(es, g)
  }

  /** In any interleaving of a Check with Saves, the answer ready is right if and only if nothing has been
      stored since the load, nor since the marker was last cleared. */
  lemma {:induction false} ReadyIsRightIff(es: seq<Event>, check: nat)
    requires check in Run(Untouched, es).checks && Run(Untouched, es).checks[check].Loaded?
    ensures
      var w := Run(Untouched, es);
      var Loaded(cred, g) := w.checks[check];
      && AnswerOf(w, check, true) == Ready(cred)
      && (RightAbout(es, g, cred) <==> g == w.stores == w.cleared)
  {
    ClearedIsTheLastCompleted(es);
  }

  lemma {:induction false} ClearedStays(w: World, es: seq<Event>)
    requires Recorded(w)
    ensures Recorded(Run(w, es)) && w.stores <= Run(w, es).stores
    ensures w.cleared == w.stores == Run(w, es).stores ==> Run(w, es).cleared == w.stores
    decreases |es|
  {
    if es != [] {
      StepKeepsRecorded(w, es[0]);
      ClearedStays(Step(w, es[0]), es[1..]);
    }
  }

  /** A Check that finds the marker absent when it loads, as it did when it began, is right about being
      ready if and only if no Save stores anything before it answers. */
  lemma {:induction false} UnmarkedLoadIsRightIff(es: seq<Event>, more: seq<Event>, check: nat)
    requires !Run(Untouched, es).pending && Run(Untouched, es).stored.Some?
    requires check in Run(Untouched, es + more).checks
    requires Run(Untouched, es + more).checks[check]
          == Loaded(Run(Untouched, es).stored.value, Run(Untouched, es).stores)
    ensures
      var w, w' := Run(Untouched, es), Run(Untouched, es + more);
      RightAbout(es + more, w.stores, w.stored.value) <==> w'.stores == w.stores
  {
    RunAppend(Untouched, es, more);
    ClearedIsTheLastCompleted(es);
    ClearedStays(Run(Untouched, es), more);
    ReadyIsRightIff(es + more, check);
  }

  /** Overlapping a Save breaks both promises. A Check that passes the marker before a Save puts it down
      and loads after the Save has stored says ready about credentials that are neither audited nor done. */
  lemma OverlappingCheckSaysReadyTooEarly(w: World, cred: nat, check: nat)
    requires Sound(w) && !w.pending && w.save.None?
    ensures
      var w1 := Step(w, CheckMarker(check, true));
      var w2 := Step(Step(Step(w1, Validate(cred, true)), Mark(true, false)), Store(true, true));
      var w3 := Step(w2, CheckLoad(check, true));
      AnswerOf(w3, check, true) == Ready(cred) && w3.pending && w3.audited != w3.stores
  {
  }

  /** And one that loads before a Save and probes after it leaves the old credentials' token behind. */
  lemma OverlappingCheckLeavesAnOldToken(w: World, old': nat, cred: nat, check: nat)
    requires Sound(w) && !w.pending && w.save.None? && w.stored == Some(old') && cred != old'
    ensures
      var w1 := Step(Step(w, CheckMarker(check, true)), CheckLoad(check, true));
      var w2 := Step(Step(Step(w1, Validate(cred, true)), Mark(true, false)), Store(true, true));
      var w3 := Step(Step(Step(w2, Empty(true, true)), Audit(true, true)), Clear(true));
      var w4 := Step(w3, CheckProbe(check, true, true));
      Complete(w3) && w3.stored == Some(cred) && !w4.pending && w4.token == Some(old') && !Complete(w4)
  {
  }

  // ---- Save as the console runs it ------------------------------------------------------------------

  datatype State = ReadyState | Rejected | Unavailable | SavedNotStarted

  /** What the probe of the entered credentials found. */
  datatype Probe = Accepted | AuthRefused | OtherFailure | NotCompleted

  /** `classifyConsoleOpenAPI`, without environment credentials. */
  function Classify(probe: Probe): (state: State)
    ensures state == ReadyState <==> probe == Accepted
    ensures state == Rejected <==> probe == AuthRefused
    ensures state == Unavailable <==> probe == OtherFailure || probe == NotCompleted
  {
    match probe
    case Accepted => ReadyState
    case AuthRefused => Rejected
    case _ => Unavailable
  }

  /** How each lasting step of one Save goes. */
  datatype Steps = Steps(mark: bool, left: bool, store: bool, storeDone: bool, empty: bool, emptyDone: bool,
                         audit: bool, auditDone: bool, clear: bool)

  function SaveEvents(cred: nat, probe: Probe, s: Steps): seq<Event> {
    [Validate(cred, probe == Accepted), Mark(s.mark, s.left), Store(s.store, s.storeDone),
     Empty(s.empty, s.emptyDone), Audit(s.audit, s.auditDone), Clear(s.clear)]
  }

  class OpenAPISeam {
    var pending: bool
    var stored: Option<nat>
    var token: Option<nat>
    ghost var stores: nat
    ghost var audited: nat
    ghost var cleared: nat

    ghost function Now(): World
      reads this
    {
      World(pending, stored, token, stores, audited, cleared, None, map[])
    }

    /** The whole of `Save`. `entered` is None when the key or the secret is blank. It answers ready exactly
        when every step worked, and then everything is complete; otherwise it has done exactly the steps of
        a Save that stops there. */
    method Save(entered: Option<nat>, isolated: bool, probe: Probe, s: Steps) returns (state: State)
      requires Recorded(Now())
      modifies this
      ensures Recorded(Now()) && (old(Sound(Now())) ==> Sound(Now()))
      ensures entered.None? || !isolated ==> Now() == old(Now())
      ensures entered.Some? && isolated ==> Now() == Run(old(Now()), SaveEvents(entered.value, probe, s))
      ensures state == ReadyState <==>
                entered.Some? && isolated && probe == Accepted && s.mark && s.store && s.empty && s.audit && s.clear
      ensures state == ReadyState ==> Complete(Now()) && stored == entered && token.None?
      ensures state == SavedNotStarted ==> pending
      // What each stop is told as.
      ensures state == Rejected <==> entered.None? || (isolated && probe == AuthRefused)
      ensures state == Unavailable <==>
                && entered.Some?
                && (!isolated || probe == OtherFailure || probe == NotCompleted || (probe == Accepted && !s.mark))
      ensures state == SavedNotStarted <==>
                && entered.Some? && isolated && probe == Accepted && s.mark
                && !(s.store && s.empty && s.audit && s.clear)
    {
      if entered.None? {
        return Rejected;
      }
      if !isolated {
        return Unavailable;
      }
      SaveIsRecorded(Now(), entered.value, probe, s);
      if Classify(probe) != ReadyState {
        return Classify(probe);
      }
      state := StoreAll(entered.value, s);
    }

    /** The lasting steps, once the probe has accepted the entered credentials. */
    method StoreAll(cred: nat, s: Steps) returns (state: State)
      requires Recorded(Now())
      modifies this
      ensures Now() == Run(old(Now()), SaveEvents(cred, Accepted, s))
      ensures state == ReadyState <==> s.mark && s.store && s.empty && s.audit && s.clear
      ensures state == ReadyState ==> !pending && stored == Some(cred) && token.None?
      ensures state == SavedNotStarted ==> pending
      ensures state == ReadyState || state == Unavailable || state == SavedNotStarted
      ensures state == Unavailable <==> !s.mark
      ensures !s.mark ==> pending == (old(pending) || s.left) && unchanged(this`stored, this`token)
      ensures s.mark ==> stored == if s.store || s.storeDone then Some(cred) else old(stored)
      ensures s.mark ==> pending == !(s.store && s.empty && s.audit && s.clear)
    {
      RunIsSaved(Now(), cred, s);
      if !s.mark {
        pending := pending || s.left;
        return Unavailable;
      }
      pending := true;
      if s.store || s.storeDone {
        stored, stores := Some(cred), stores + 1;
      }
      if !s.store {
        return SavedNotStarted;
      }
      state := FinishStored(cred, s);
    }

    /** What is left to do once the credentials are stored. */
    method FinishStored(cred: nat, s: Steps) returns (state: State)
      requires pending
      modifies this
      ensures Now() == Finished(old(Now()), cred, s)
      ensures state == ReadyState <==> s.empty && s.audit && s.clear
      ensures state == ReadyState ==> !pending && token.None?
      ensures state != ReadyState ==> state == SavedNotStarted && pending
      ensures stored == old(stored) && stores == old(stores)
      ensures token == if s.empty || s.emptyDone then None else old(token)
      ensures audited == if s.empty && (s.audit || s.auditDone) then stores else old(audited)
      ensures pending == !(s.empty && s.audit && s.clear)
    {
      if s.empty || s.emptyDone {
        token := None;
      }
      if !s.empty {
        return SavedNotStarted;
      }
      if s.audit || s.auditDone {
        audited := stores;
      }
      if !s.audit {
        return SavedNotStarted;
      }
      if !s.clear {
        return SavedNotStarted;
      }
      pending, cleared := false, stores;
      state := ReadyState;
    }
  }

  /** The rest of a Save that has stored, as steps. */
  function Finished(w: World, cred: nat, s: Steps): World {
    var emptied := Step(w.(save := Some(Stored(cred))), Empty(s.empty, s.emptyDone));
    Step(Step(emptied, Audit(s.audit, s.auditDone)), Clear(s.clear))
  }

  /** What a Save whose probe has accepted leaves. */
  function Saved(w: World, cred: nat, s: Steps): World {
    if !s.mark then w.(pending := w.pending || s.left)
    else
      var marked := w.(pending := true);
      var stored := if s.store || s.storeDone then Replace(marked, cred) else marked;
      if s.store then Finished(stored, cred, s) else stored
  }

  lemma RunIsSaved(w: World, cred: nat, s: Steps)
    requires w.save.None?
    ensures Run(w, SaveEvents(cred, Accepted, s)) == Saved(w, cred, s)
  {
    RunSave(w, cred, Accepted, s);
  }

  lemma SaveIsRecorded(w: World, cred: nat, probe: Probe, s: Steps)
    requires Recorded(w) && w.save.None? && w.checks == map[]
    ensures
      var w' := Run(w, SaveEvents(cred, probe, s));
      && Recorded(w') && (Sound(w) ==> Sound(w')) && (probe != Accepted ==> w' == w)
  {
    var es := SaveEvents(cred, probe, s);
    RunSave(w, cred, probe, s);
    ClearedStays(w, es);
    if Sound(w) {
      WithoutProbesApart(w, es);
      SoundAlways(w, es);
    }
  }

  lemma RunSave(w: World, cred: nat, probe: Probe, s: Steps)
    requires w.save.None?
    ensures
      var w1 := Step(w, Validate(cred, probe == Accepted));
      var w3 := Step(Step(w1, Mark(s.mark, s.left)), Store(s.store, s.storeDone));
      var w5 := Step(Step(w3, Empty(s.empty, s.emptyDone)), Audit(s.audit, s.auditDone));
      Run(w, SaveEvents(cred, probe, s)) == Step(w5, Clear(s.clear))
  {
    var es := SaveEvents(cred, probe, s);
    var w1 := Step(w, es[0]);
    var w2 := Step(w1, es[1]);
    var w3 := Step(w2, es[2]);
    var w4 := Step(w3, es[3]);
    var w5 := Step(w4, es[4]);
    var w6 := Step(w5, es[5]);
    assert Run(w6, es[6..]) == w6;
    assert es[5..][1..] == es[6..] && es[4..][1..] == es[5..] && es[3..][1..] == es[4..];
    assert es[2..][1..] == es[3..] && es[1..][1..] == es[2..] && es == es[0..];
    assert Run(w5, es[5..]) == w6;
    assert Run(w4, es[4..]) == w6;
    assert Run(w3, es[3..]) == w6;
    assert Run(w2, es[2..]) == w6;
    assert Run(w1, es[1..]) == w6;
  }
}

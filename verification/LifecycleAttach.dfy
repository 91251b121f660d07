/** The console's seat for the engine's position-policy client: the same seat machine, a wider notion
    of "the endpoint answered", wakes only when the seat is wanted, and commands that are never sent
    twice. */
module LifecycleAttach {
  import opened Prelude
  import opened Attachment
  import A = AttachRuns
  import T = Text

  // ---- what counts as an answer -------------------------------------------------------------------

  const BEARER_REJECTED := "local bearer token rejected"
  const POLICY_REMOTE_FAILURE := "position policy control: remote failure"
  const QUARANTINE_REMOTE_FAILURE := "exit quarantine control: remote failure"

  /** Some occurrence of the phrase and its colon is followed by a reason. */
  predicate CarriesReason(text: string, phrase: string) {
    exists i | 0 <= i <= |text| :: T.OccursAt(text, phrase + ":", i) && !T.Blank(text[i + |phrase| + 1..])
  }

  /** The source looks at the first occurrence only; that decides the question for all of them. */
  method EngineRemoteFailure(text: string, phrase: string) returns (answered: bool)
    ensures answered <==> CarriesReason(text, phrase)
  {
    var at := T.Index(text, phrase + ":");
    if at < 0 {
      return false;
    }
    answered := !T.Blank(text[at + |phrase| + 1..]);
    forall i | 0 <= i <= |text| && T.OccursAt(text, phrase + ":", i) && answered == false
      ensures T.Blank(text[i + |phrase| + 1..])
    {
      var first, rest := text[at + |phrase| + 1..], text[i + |phrase| + 1..];
      assert forall k :: 0 <= k < |rest| ==> rest[k] == first[k + i - at];
    }
  }

  /** What carrying a reason means: somewhere the phrase, a colon and something that is not white space. */
  lemma {:induction false} CarriesReasonIff(text: string, phrase: string)
    ensures CarriesReason(text, phrase) <==>
      exists before, reason :: text == before + (phrase + ":") + reason && HasInk(reason)
  {
    if CarriesReason(text, phrase) {
      var i :| 0 <= i <= |text| && T.OccursAt(text, phrase + ":", i) && !T.Blank(text[i + |phrase| + 1..]);
      var reason := text[i + |phrase| + 1..];
      assert text == text[..i] + (phrase + ":") + reason;
      assert HasInk(reason);
    }
    if exists before, reason :: text == before + (phrase + ":") + reason && HasInk(reason) {
      var before, reason :| text == before + (phrase + ":") + reason && HasInk(reason);
      assert text[|before|..|before| + |phrase + ":"|] == phrase + ":";
      assert T.OccursAt(text, phrase + ":", |before|);
      assert text[|before| + |phrase| + 1..] == reason;
    }
  }

  predicate HasInk(s: string) { exists k | 0 <= k < |s| :: !T.IsSpace(s[k]) }

  /** An error as the wrapper sees it: its text, and whether `errors.Is` finds it among the engine's
      typed refusals. */
  datatype EngineError = EngineError(text: string, typed: bool)

  predicate Answered(e: EngineError) {
    && !T.Contains(e.text, BEARER_REJECTED)
    && (e.typed || CarriesReason(e.text, POLICY_REMOTE_FAILURE) || CarriesReason(e.text, QUARANTINE_REMOTE_FAILURE))
  }

  method EndpointAnswered(e: EngineError) returns (answered: bool)
    ensures answered == Answered(e)
    ensures T.Contains(e.text, BEARER_REJECTED) ==> !answered
    ensures !T.Contains(e.text, BEARER_REJECTED) && e.typed ==> answered
    ensures !T.Contains(e.text, BEARER_REJECTED) && !e.typed ==>
              (answered <==>
                || CarriesReason(e.text, POLICY_REMOTE_FAILURE)
                || CarriesReason(e.text, QUARANTINE_REMOTE_FAILURE))
  {
    var rejected := T.Index(e.text, BEARER_REJECTED);
    if rejected >= 0 {
      return false;
    }
    if e.typed {
      return true;
    }
    answered := EngineRemoteFailure(e.text, POLICY_REMOTE_FAILURE);
    if !answered {
      answered := EngineRemoteFailure(e.text, QUARANTINE_REMOTE_FAILURE);
    }
  }

  function VerdictOf(o: Outcome<EngineError>, caller: Caller): Verdict {
    if CallerCancelled(o, caller) then NoVerdict
    else if o.Done? || Answered(o.error) then Alive
    else Dead
  }

  // ---- the object ---------------------------------------------------------------------------------

  class PositionPolicyLifecycleAttachment {
    const interval: int
    var client: Option<nat>
    var attached: bool
    var failed: bool
    var lastTry: int
    var trying: bool
    var seat: nat

    /** The clients that have been called, in order. */
    ghost var sent: seq<nat>

    function State(): Seat
      reads this
    {
      Seat(if client.Some? then Live(client.value) else Absent, attached, failed, lastTry, trying, seat)
    }

    constructor (interval: int, resolved: Option<nat>)
      ensures this.interval == interval
      ensures State() == Attach(Unbooted, if resolved.Some? then Live(resolved.value) else Absent, resolved.Some?)
      ensures client == resolved && attached == resolved.Some? && failed == resolved.None?
      ensures lastTry == ZERO_TIME && !trying && seat == 1 && sent == []
    {
      this.interval, sent := interval, [];
      client, attached, failed := resolved, resolved.Some?, resolved.None?;
      lastTry, trying, seat := ZERO_TIME, false, 1;
    }

    method Current() returns (captured: Option<nat>, generation: nat, wanted: bool)
      ensures State().reader == if captured.Some? then Live(captured.value) else Absent
      ensures captured == client && generation == seat && wanted == failed
    {
      captured, generation, wanted := client, seat, failed;
    }

    method WakeUp(now: int, ended: bool) returns (started: bool)
      modifies this
      ensures State() == Wake(old(State()), now, interval, ended)
      ensures started == WakeStarts(old(State()), now, interval, ended) && sent == old(sent)
      ensures started <==>
                !old(trying) && !ended && (old(lastTry) == ZERO_TIME || now - old(lastTry) >= interval)
      ensures trying == (started || old(trying)) && lastTry == if started then now else old(lastTry)
      ensures unchanged(this`client, this`attached, this`failed, this`seat)
    {
      var tooSoon := lastTry != ZERO_TIME && now - lastTry < interval;
      started := !trying && !tooSoon && !ended;
      if started {
        trying, lastTry := true, now;
      }
    }

    method FinishAttempt(found: Option<nat>) returns (evicted: Option<nat>, announce: bool)
      modifies this
      ensures State() == Commit(old(State()), if found.Some? then Live(found.value) else Absent, found.Some?)
      ensures evicted == Evicted(old(State()), found.Some?)
      ensures announce <==> Flip(old(State()), State()) == Some(NowAttached)
      ensures Flip(old(State()), State()) != Some(NowDetached) && sent == old(sent)
      ensures !trying && lastTry == old(lastTry)
      ensures found.Some? ==>
                && client == found && attached && !failed && seat == old(seat) + 1
                && evicted == old(client) && announce == !old(attached)
      ensures found.None? ==>
                && evicted.None? && !announce
                && unchanged(this`client, this`attached, this`failed, this`seat)
    {
      trying := false;
      if found.None? {
        return None, false;
      }
      evicted := client;
      client, failed, seat := found, false, seat + 1;
      announce := !attached;
      attached := true;
    }

    /** `observe`; the caller wakes the seat when `again`. */
    method Judge(o: Outcome<EngineError>, caller: Caller, generation: nat)
      returns (again: bool, said: Option<Notice>)
      modifies this
      ensures State() == Observe(old(State()), generation, VerdictOf(o, caller))
      ensures again <==> Counts(old(State()), generation, VerdictOf(o, caller)) && State().failed
      ensures said == Flip(old(State()), State()) && sent == old(sent)
      ensures unchanged(this`client, this`lastTry, this`trying, this`seat)
      // The caller's own cancellation and news of an earlier client say nothing.
      ensures (o.Error? && o.contextError && caller == Over) || generation != old(seat) ==>
                State() == old(State()) && !again && said.None?
      // A rejected token is never an answer of the engine; a typed refusal and a remote failure with a
      // reason are; and so every other error is the endpoint's.
      ensures generation == old(seat) && o.Error? && !(o.contextError && caller == Over) ==>
                var answered :=
                  && !T.Contains(o.error.text, BEARER_REJECTED)
                  && (|| o.error.typed
                      || CarriesReason(o.error.text, POLICY_REMOTE_FAILURE)
                      || CarriesReason(o.error.text, QUARANTINE_REMOTE_FAILURE));
                && attached == answered && failed == !answered && again == !answered
                && said == if old(attached) == answered then None
                           else if answered then Some(NowAttached) else Some(NowDetached)
      ensures generation == old(seat) && o.Done? ==>
                !failed && attached && !again && said == if old(attached) then None else Some(NowAttached)
    {
      again, said := false, None;
      if CallerCancelled(o, caller) || generation != seat {
        return;
      }
      var answered := true;
      if o.Error? {
        answered := EndpointAnswered(o.error);
      }
      if answered {
        failed := false;
        said := if attached then None else Some(NowAttached);
        attached := true;
      } else {
        failed, again := true, true;
        said := if attached then Some(NowDetached) else None;
        attached := false;
      }
    }

    /** The engine call itself; how it ends is the engine's business. */
    method CallEngine(callee: nat)
      modifies this`sent
      ensures sent == old(sent) + [callee]
    {
      sent := sent + [callee];
    }

    /** `Apply`, and `ReleaseQuarantine` with a client that implements it, with nobody interrupting: the
        seated client is called exactly once, whatever it answers, and an empty seat is not called at all.
        The clock reads `now` at the first wake and `later` at the second. */
    method Apply(outcome: Outcome<EngineError>, caller: Caller, now: int, later: int, ended: bool)
      returns (reply: Option<Outcome<EngineError>>)
      modifies this
      ensures reply == if old(client).Some? then Some(outcome) else None
      ensures sent == old(sent) + if old(client).Some? then [old(client).value] else []
      ensures State() == AfterApply(old(State()), interval, outcome, caller, now, later, ended)
    {
      var captured, generation, wanted := Current();
      if wanted {
        var _ := WakeUp(now, ended);
      }
      if captured.None? {
        return None;
      }
      CallEngine(captured.value);
      var again, _ := Judge(outcome, caller, generation);
      if again {
        var _ := WakeUp(later, ended);
      }
      reply := Some(outcome);
    }
  }

  /** The seat once a request has asked for it. */
  function Asked(s: Seat, interval: int, now: int, ended: bool): Seat {
    if s.failed then Wake(s, now, interval, ended) else s
  }

  /** The seat after one uninterrupted command. */
  function AfterApply(s: Seat, interval: int, outcome: Outcome<EngineError>, caller: Caller,
                      now: int, later: int, ended: bool): Seat {
    var asked := Asked(s, interval, now, ended);
    if s.reader.Live? then AfterAnswer(asked, interval, s.seat, outcome, caller, later, ended) else asked
  }

  /** The seat after the answer of a call that captured `generation`. */
  function AfterAnswer(s: Seat, interval: int, generation: nat, outcome: Outcome<EngineError>, caller: Caller,
                       later: int, ended: bool): Seat {
    var judged := Observe(s, generation, VerdictOf(outcome, caller));
    if WantsAgain(s, generation, outcome, caller) then Wake(judged, later, interval, ended) else judged
  }

  predicate WantsAgain(s: Seat, generation: nat, outcome: Outcome<EngineError>, caller: Caller) {
    var verdict := VerdictOf(outcome, caller);
    Counts(s, generation, verdict) && Observe(s, generation, verdict).failed
  }

  // ---- every interleaving ---------------------------------------------------------------------------

  /** Where a request is between its two lock regions: each of the six methods calls its client once and
      then observes. */
  datatype Phase = Holding | Sent

  /** `quarantine` calls need a client that implements the quarantine methods. */
  datatype Request = Request(quarantine: bool, client: nat, phase: Phase)

  /** `world` is the seat and its attempts; `owed` counts request goroutines that have decided to wake and
      have not yet, and `pumpOwes` says so of the pump; `delivered` is every engine call made, in order. */
  datatype Console = Console(
    world: A.World,
    requests: map<nat, Request>,
    owed: nat,
    pumpOwes: bool,
    delivered: seq<(nat, nat)>)  // (request, client)

  datatype Event =
    | Ask(quarantine: bool, implements: bool)  // seatFor / quarantineSeat
    | Send(request: nat)
    | Answer(request: nat, outcome: Outcome<EngineError>, caller: Caller)
    | PumpTick                                 // the pump's look
    | PumpWake(now: int)                       // and its wake, if the look found the seat wanted
    | WakeUp(now: int)
    | Resolved(found: bool)
    | Close(client: nat)
    | End

  function Owe(c: Console): Console { c.(owed := c.owed + 1) }

  function Step(c: Console, e: Event): Console {
    match e
    case Ask(quarantine, implements) =>
      var seat := c.world.seat;
      var c1 := if seat.failed then Owe(c) else c;
      // An empty seat answers "detached", a client without the methods answers "unwired": no call.
      if !seat.reader.Live? || (quarantine && !implements) then c1
      else c1.(world := A.Step(c.world, A.Begin),
               requests := c.requests[c.world.begun := Request(quarantine, seat.reader.client, Holding)])
    case Send(request) =>
      if request !in c.requests || c.requests[request].phase.Sent? then c
      else c.(requests := c.requests[request := c.requests[request].(phase := Sent)],
              delivered := c.delivered + [(request, c.requests[request].client)])
    case Answer(request, outcome, caller) =>
      if request !in c.requests || c.requests[request].phase.Holding? then c
      else
        var world := A.Step(c.world, A.Report(request, VerdictOf(outcome, caller)));
        var c1 := c.(world := world, requests := c.requests - {request});
        if request in c.world.calls && Counts(c.world.seat, c.world.calls[request].seat, VerdictOf(outcome, caller))
           && world.seat.failed then Owe(c1) else c1
    case PumpTick => c.(pumpOwes := c.world.seat.failed)
    case PumpWake(now) =>
      if !c.pumpOwes then c else c.(world := A.Step(c.world, A.WakeUp(now)), pumpOwes := false)
    case WakeUp(now) =>
      if c.owed == 0 then c
      else c.(world := A.Step(c.world, A.WakeUp(now)), owed := c.owed - 1)
    case Resolved(found) => c.(world := A.Step(c.world, A.Resolved(if found then A.Dialled else A.Nothing)))
    case Close(client) => c.(world := A.Step(c.world, A.Close(client)))
    case End => c.(world := A.Step(c.world, A.End))
  }

  function Run(c: Console, es: seq<Event>): Console
    decreases |es|
  {
    if es == [] then c else Run(Step(c, es[0]), es[1..])
  }

  function Boot(attached: bool, interval: int): Console {
    Console(A.Boot(if attached then A.Dialled else A.Nothing, interval), map[], 0, false, [])
  }

  /** The console is one of the shared worlds: every theorem of AttachRuns holds of it. */
  lemma {:induction false} ConsoleIsAWorld(c: Console, es: seq<Event>)
    ensures exists shared: seq<A.Event> :: Run(c, es).world == A.Run(c.world, shared)
    decreases |es|
  {
    if es == [] {
      assert Run(c, es).world == A.Run(c.world, []);
    } else {
      ConsoleIsAWorld(Step(c, es[0]), es[1..]);
      var rest :| Run(Step(c, es[0]), es[1..]).world == A.Run(Step(c, es[0]).world, rest);
      var first := SharedStep(c, es[0]);
      A.RunAppend(c.world, first, rest);
    }
  }

  lemma SharedStep(c: Console, e: Event) returns (shared: seq<A.Event>)
    ensures A.Run(c.world, shared) == Step(c, e).world
  {
    shared := match e
      case Ask(quarantine, implements) =>
        if !c.world.seat.reader.Live? || (quarantine && !implements) then [] else [A.Begin]
      case Answer(request, outcome, caller) =>
        if request !in c.requests || c.requests[request].phase.Holding? then []
        else [A.Report(request, VerdictOf(outcome, caller))]
      case PumpWake(now) => if c.pumpOwes then [A.WakeUp(now)] else []
      case WakeUp(now) => if c.owed == 0 then [] else [A.WakeUp(now)]
      case Resolved(found) => [A.Resolved(if found then A.Dialled else A.Nothing)]
      case Close(client) => [A.Close(client)]
      case End => [A.End]
      case _ => [];
    if shared != [] {
      assert A.Run(A.Step(c.world, shared[0]), shared[1..]) == A.Step(c.world, shared[0]);
    }
  }

  /** The lifecycle seat inherits the shared guarantees: its generations name their clients, it only
      improves, and every client that ever sat is the occupant or was let go exactly once. */
  lemma {:induction false} LifecycleSeatIsSound(attached: bool, interval: int, es: seq<Event>)
    ensures A.Inv(Run(Boot(attached, interval), es).world)
  {
    ConsoleIsAWorld(Boot(attached, interval), es);
    var shared :| Run(Boot(attached, interval), es).world == A.Run(Boot(attached, interval).world, shared);
    A.Reachable(if attached then A.Dialled else A.Nothing, interval, shared);
  }

  /** Once an attempt has seated a client, whatever interleaving follows, an answer that changes the seat
      belongs to a request that asked after that seating. */
  lemma {:induction false} LateAnswersCannotDetach(
      attached: bool, interval: int, es: seq<Event>, more: seq<Event>,
      request: nat, outcome: Outcome<EngineError>, caller: Caller)
    requires Run(Boot(attached, interval), es).world.dialling > 0
    ensures
      var c := Run(Boot(attached, interval), es);
      var later := Run(Step(c, Resolved(true)), more);
      Step(later, Answer(request, outcome, caller)).world.seat != later.world.seat ==> request >= c.world.begun
  {
    var c := Run(Boot(attached, interval), es);
    AnswersAreReports(Run(Step(c, Resolved(true)), more), request, outcome, caller);
    ConsoleIsAWorld(Boot(attached, interval), es);
    var before :| c.world == A.Run(Boot(attached, interval).world, before);
    ConsoleIsAWorld(Step(c, Resolved(true)), more);
    var after :| Run(Step(c, Resolved(true)), more).world == A.Run(Step(c, Resolved(true)).world, after);
    A.LateNewsCannotDetach(if attached then A.Dialled else A.Nothing, interval, before, after, request,
                           VerdictOf(outcome, caller));
  }

  lemma AnswersAreReports(c: Console, request: nat, outcome: Outcome<EngineError>, caller: Caller)
    ensures
      var w' := Step(c, Answer(request, outcome, caller)).world;
      w' == c.world || w' == A.Step(c.world, A.Report(request, VerdictOf(outcome, caller)))
  {
  }

  /** A request gets to call a client if and only if one sits and has the methods asked for, and it then holds
      that client and its generation; one that finds the seat wanted owes it a wake. */
  lemma AskAdmitsIff(c: Console, quarantine: bool, implements: bool)
    ensures
      var c' := Step(c, Ask(quarantine, implements));
      var s := c.world.seat;
      && (if s.reader.Live? && (quarantine ==> implements)
          then && c'.requests == c.requests[c.world.begun := Request(quarantine, s.reader.client, Holding)]
               && c'.world.calls == c.world.calls[c.world.begun := A.Call(s.reader, s.seat)]
          else c'.requests == c.requests && c'.world.calls == c.world.calls)
      && c'.owed == c.owed + (if s.failed then 1 else 0)
      && c'.world.seat == s && c'.delivered == c.delivered
  {
  }

  /** Attempts, closes and the end of the console's context are those of the shared machine. */
  lemma TheRestIsShared(c: Console, found: bool, client: nat)
    ensures Step(c, Resolved(found)) ==
              c.(world := A.Step(c.world, A.Resolved(if found then A.Dialled else A.Nothing)))
    ensures Step(c, Close(client)) == c.(world := A.Step(c.world, A.Close(client)))
    ensures Step(c, End) == c.(world := A.Step(c.world, A.End))
  {
  }

  // ---- refusals never disturb the seat ----------------------------------------------------------------

  /** Every call ended in success, in an answer of the engine, or in its caller's own cancellation. */
  predicate OnlyAnswers(es: seq<Event>) {
    forall k :: 0 <= k < |es| && es[k].Answer? ==> VerdictOf(es[k].outcome, es[k].caller) != Dead
  }

  ghost predicate Undisturbed(c: Console, client: nat) {
    && c.world.seat == Attach(Unbooted, Live(client), true)
    && c.owed == 0 && !c.pumpOwes && c.world.dialling == 0
    && c.world.starts == [] && c.world.notices == []
    && c.world.closing == {} && c.world.closed == multiset{}
  }

  lemma {:induction false} UndisturbedRun(c: Console, es: seq<Event>, client: nat)
    requires Undisturbed(c, client) && OnlyAnswers(es)
    ensures Undisturbed(Run(c, es), client)
    decreases |es|
  {
    if es != [] {
      assert es[0].Answer? ==> VerdictOf(es[0].outcome, es[0].caller) != Dead;
      UndisturbedRun(Step(c, es[0]), es[1..], client);
    }
  }

  /** Starting attached, a run whose calls all end in success, a refusal by the engine or a caller's
      cancellation never moves the seat, starts no attempt, lets no client go and prints nothing. */
  lemma {:induction false} RefusalsNeverDisturb(interval: int, es: seq<Event>)
    requires OnlyAnswers(es)
    ensures
      var c := Run(Boot(true, interval), es);
      && c.world.seat == Boot(true, interval).world.seat
      && c.owed == 0 && !c.pumpOwes && c.world.starts == [] && c.world.notices == []
      && c.world.closing == {} && c.world.closed == multiset{}
  {
    UndisturbedRun(Boot(true, interval), es, 0);
  }

  // ---- commands are sent at most once -----------------------------------------------------------------

  ghost predicate Deliveries(c: Console) {
    && c.requests.Keys == c.world.calls.Keys
    && (forall r :: r in c.requests ==> r < c.world.begun && c.world.calls[r].reader == Live(c.requests[r].client))
    && (forall k :: 0 <= k < |c.delivered| ==>
          && c.delivered[k].0 < c.world.begun
          && (c.delivered[k].0 in c.requests ==> c.requests[c.delivered[k].0].phase.Sent?))
    && (forall j, k :: 0 <= j < k < |c.delivered| ==> c.delivered[j].0 != c.delivered[k].0)
  }

  lemma StepKeepsDeliveries(c: Console, e: Event)
    requires Deliveries(c)
    ensures Deliveries(Step(c, e))
  {
    match e
    case Ask(quarantine, implements) => AskKeepsDeliveries(c, quarantine, implements);
    case Send(request) =>
      if request in c.requests && c.requests[request].phase.Holding? { SendKeepsDeliveries(c, request); }
    case Answer(request, outcome, caller) => AnswerKeepsDeliveries(c, request, outcome, caller);
    case _ => OthersDeliverNothing(c, e);
  }

  lemma AskKeepsDeliveries(c: Console, quarantine: bool, implements: bool)
    requires Deliveries(c)
    ensures Deliveries(Step(c, Ask(quarantine, implements)))
  {
  }

  lemma AnswerKeepsDeliveries(c: Console, request: nat, outcome: Outcome<EngineError>, caller: Caller)
    requires Deliveries(c)
    ensures Deliveries(Step(c, Answer(request, outcome, caller)))
  {
    if request in c.requests && c.requests[request].phase.Sent? {
      var world := A.Step(c.world, A.Report(request, VerdictOf(outcome, caller)));
      ReportEndsTheCall(c.world, request, VerdictOf(outcome, caller));
      DroppedKeepsDeliveries(c, request, world);
    }
  }

  lemma ReportEndsTheCall(w: A.World, request: nat, verdict: Verdict)
    requires request in w.calls && w.calls[request].reader.Live?
    ensures A.Step(w, A.Report(request, verdict)).calls == w.calls - {request}
    ensures A.Step(w, A.Report(request, verdict)).begun == w.begun
  {
  }

  lemma DroppedKeepsDeliveries(c: Console, request: nat, world: A.World)
    requires Deliveries(c) && world.calls == c.world.calls - {request} && world.begun == c.world.begun
    ensures forall owed: nat :: Deliveries(c.(world := world, requests := c.requests - {request}, owed := owed))
  {
  }

  lemma OthersDeliverNothing(c: Console, e: Event)
    requires Deliveries(c) && !e.Ask? && !e.Send? && !e.Answer?
    ensures Deliveries(Step(c, e))
  {
    var c' := Step(c, e);
    assert c'.requests == c.requests && c'.delivered == c.delivered;
    assert c'.world.calls == c.world.calls && c'.world.begun == c.world.begun;
  }

  lemma SendKeepsDeliveries(c: Console, request: nat)
    requires Deliveries(c) && request in c.requests && c.requests[request].phase.Holding?
    ensures Deliveries(Step(c, Send(request)))
  {
  }

  lemma {:induction false} DeliveriesHold(c: Console, es: seq<Event>)
    requires Deliveries(c)
    ensures Deliveries(Run(c, es))
    decreases |es|
  {
    if es != [] {
      StepKeepsDeliveries(c, es[0]);
      DeliveriesHold(Step(c, es[0]), es[1..]);
    }
  }

  /** One uninterrupted command as events: the request asks, then it is answered. */
  function AskEvents(s: Seat, now: int): seq<Event> {
    [Ask(false, true)] + if s.failed then [WakeUp(now)] else []
  }

  function AnswerEvents(s: Seat, request: nat, generation: nat, outcome: Outcome<EngineError>, caller: Caller,
                        later: int): seq<Event> {
    [Send(request)] + ([Answer(request, outcome, caller)] +
                       if WantsAgain(s, generation, outcome, caller) then [WakeUp(later)] else [])
  }

  function ApplyEvents(c: Console, outcome: Outcome<EngineError>, caller: Caller, now: int, later: int): seq<Event> {
    var s := c.world.seat;
    var asked := Asked(s, c.world.interval, now, c.world.ended);
    AskEvents(s, now)
    + if s.reader.Live? then AnswerEvents(asked, c.world.begun, s.seat, outcome, caller, later) else []
  }

  lemma {:induction false} RunAppend(c: Console, es: seq<Event>, more: seq<Event>)
    ensures Run(c, es + more) == Run(Run(c, es), more)
    decreases |es|
  {
    if es == [] {
      assert es + more == more;
    } else {
      assert (es + more)[1..] == es[1..] + more;
      RunAppend(Step(c, es[0]), es[1..], more);
    }
  }

  lemma RunOne(c: Console, e: Event)
    ensures Run(c, [e]) == Step(c, e)
  {
    assert [e][1..] == [];
  }

  /** `c'` differs from `c` in what a request may change, and owes what `c` owes. */
  predicate SameAround(c: Console, c': Console) {
    c'.owed == c.owed && c'.world.interval == c.world.interval && c'.world.ended == c.world.ended
  }

  /** The request holds the client it captured and has not called it yet. */
  predicate HoldsSeat(c: Console, request: nat, client: nat, generation: nat) {
    && request in c.requests && c.requests[request] == Request(false, client, Holding)
    && request in c.world.calls && c.world.calls[request] == A.Call(Live(client), generation)
  }

  lemma AskRuns(c: Console, now: int)
    ensures
      var c' := Run(c, AskEvents(c.world.seat, now));
      var s := c.world.seat;
      && SameAround(c, c') && c'.delivered == c.delivered
      && c'.world.seat == Asked(s, c.world.interval, now, c.world.ended)
      && (s.reader.Live? ==> HoldsSeat(c', c.world.begun, s.reader.client, s.seat))
  {
    var asked := Step(c, Ask(false, true));
    RunOne(c, Ask(false, true));
    AskOne(c);
    if c.world.seat.failed {
      RunAppend(c, [Ask(false, true)], [WakeUp(now)]);
      RunOne(asked, WakeUp(now));
      WakeOne(asked, now);
    } else {
      assert AskEvents(c.world.seat, now) == [Ask(false, true)];
    }
  }

  lemma AskOne(c: Console)
    ensures
      var c' := Step(c, Ask(false, true));
      var s := c.world.seat;
      && c'.owed == c.owed + (if s.failed then 1 else 0) && c'.delivered == c.delivered
      && c'.world.seat == s && c'.world.interval == c.world.interval && c'.world.ended == c.world.ended
      && (s.reader.Live? ==> HoldsSeat(c', c.world.begun, s.reader.client, s.seat))
  {
  }

  lemma WakeOne(c: Console, now: int)
    requires c.owed > 0
    ensures
      var c' := Step(c, WakeUp(now));
      && c'.owed == c.owed - 1 && c'.delivered == c.delivered
      && c'.world.seat == Wake(c.world.seat, now, c.world.interval, c.world.ended)
      && c'.world.interval == c.world.interval && c'.world.ended == c.world.ended
      && c'.requests == c.requests && c'.world.calls == c.world.calls
  {
  }

  lemma AnswerRuns(c: Console, request: nat, client: nat, generation: nat,
                   outcome: Outcome<EngineError>, caller: Caller, later: int)
    requires HoldsSeat(c, request, client, generation)
    ensures
      var c' := Run(c, AnswerEvents(c.world.seat, request, generation, outcome, caller, later));
      && SameAround(c, c') && c'.delivered == c.delivered + [(request, client)]
      && c'.world.seat ==
           AfterAnswer(c.world.seat, c.world.interval, generation, outcome, caller, later, c.world.ended)
  {
    var sent := Step(c, Send(request));
    var judged := Step(sent, Answer(request, outcome, caller));
    var again := if WantsAgain(c.world.seat, generation, outcome, caller) then [WakeUp(later)] else [];
    RunAppend(c, [Send(request)], [Answer(request, outcome, caller)] + again);
    RunOne(c, Send(request));
    RunAppend(sent, [Answer(request, outcome, caller)], again);
    RunOne(sent, Answer(request, outcome, caller));
    RunOne(judged, WakeUp(later));
  }

  /** The method and the state machine agree: the command's events leave the seat that the method leaves,
      deliver one call to the client that was seated, and owe nothing afterwards. */
  lemma {:induction false} ApplyIsARun(
      c: Console, outcome: Outcome<EngineError>, caller: Caller, now: int, later: int)
    ensures
      var c' := Run(c, ApplyEvents(c, outcome, caller, now, later));
      var s := c.world.seat;
      && c'.world.seat == AfterApply(s, c.world.interval, outcome, caller, now, later, c.world.ended)
      && c'.delivered == c.delivered + (if s.reader.Live? then [(c.world.begun, s.reader.client)] else [])
      && c'.owed == c.owed
  {
    var s := c.world.seat;
    AskRuns(c, now);
    var asked := Run(c, AskEvents(s, now));
    if s.reader.Live? {
      RunAppend(c, AskEvents(s, now), AnswerEvents(asked.world.seat, c.world.begun, s.seat, outcome, caller, later));
      AnswerRuns(asked, c.world.begun, s.reader.client, s.seat, outcome, caller, later);
    } else {
      assert AskEvents(s, now) + [] == AskEvents(s, now);
    }
  }

  /** In any run, each request reaches at most one client, at most once. */
  lemma {:induction false} SentAtMostOnce(attached: bool, interval: int, es: seq<Event>, j: nat, k: nat)
    requires j < |Run(Boot(attached, interval), es).delivered| && k < |Run(Boot(attached, interval), es).delivered|
    requires Run(Boot(attached, interval), es).delivered[j].0 == Run(Boot(attached, interval), es).delivered[k].0
    ensures j == k
  {
    DeliveriesHold(Boot(attached, interval), es);
  }

  /** What is sent goes to the client that held the seat when the request asked, even if another one
      has been seated since; and only Send sends. */
  lemma {:induction false} SentToTheClientThatWasSeated(attached: bool, interval: int, es: seq<Event>, e: Event)
    ensures
      var c := Run(Boot(attached, interval), es);
      var c' := Step(c, e);
      || c'.delivered == c.delivered
      || (&& e.Send? && e.request in c.world.calls
          && c.world.calls[e.request].reader.Live?
          && c'.delivered == c.delivered + [(e.request, c.world.calls[e.request].reader.client)])
  {
    DeliveriesHold(Boot(attached, interval), es);
  }
}

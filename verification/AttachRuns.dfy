/** Every interleaving of request goroutines, redial attempts and pump ticks over one seat.

    A world is the guarded seat plus what is in flight: reads that have captured the seat and not
    reported yet, attempts that are dialling, evicted clients not closed yet. One event is one lock
    region (or the close that follows one). Everything from `occupants` on is history that the
    running program does not keep. */
module AttachRuns {
  import opened Prelude
  import opened Attachment

  /** A read in flight: what it captured under the lock before reading outside it. */
  datatype Call = Call(reader: Reader, seat: nat)

  /** What a redial found on disk: the resolvers call a reader live exactly when they dialled it. A dial that
      succeeds makes a client that never existed before. */
  datatype Found = Nothing | Unreachable | Dialled

  datatype World = World(
    seat: Seat,
    interval: int,
    ended: bool,
    calls: map<nat, Call>,
    dialling: nat,
    closing: set<nat>,
    begun: nat,              // calls begun so far; the next call's number
    dialled: nat,            // clients made so far; the next client's number
    occupants: seq<Reader>,  // occupants[k] took the seat as generation k + 1
    closed: multiset<nat>,
    starts: seq<int>,        // clock stamps of the attempts, in order
    notices: seq<Notice>)

  datatype Event =
    | Begin                                  // a request captures the seat and starts reading
    | Report(call: nat, verdict: Verdict)    // a finished read is judged
    | WakeUp(now: int)                       // a request, a query, a pump tick or a failed read wakes
    | Resolved(found: Found)                 // an attempt commits
    | Close(client: nat)                     // the evicted client is let go, outside the lock
    | End                                    // the process's context ends

  function ReaderOf(w: World, found: Found): Reader {
    match found
    case Nothing => Absent
    case Unreachable => Sentinel
    case Dialled => Live(w.dialled)
  }

  /** The sentinel reader returns an error from every read, so it can never report success. */
  predicate CanReport(w: World, call: nat, verdict: Verdict) {
    call in w.calls && (w.calls[call].reader.Sentinel? ==> verdict != Alive)
  }

  function Announce(notices: seq<Notice>, n: Option<Notice>): seq<Notice> {
    if n.Some? then notices + [n.value] else notices
  }

  /** One event. An event nobody can issue in `w` changes nothing. */
  function Step(w: World, e: Event): World {
    match e
    case Begin =>
      // A read of an empty seat answers at once and never reports.
      if w.seat.reader.Absent? then w.(begun := w.begun + 1)
      else w.(calls := w.calls[w.begun := Call(w.seat.reader, w.seat.seat)], begun := w.begun + 1)
    case Report(call, verdict) =>
      if !CanReport(w, call, verdict) then w
      else
        var after := Observe(w.seat, w.calls[call].seat, verdict);
        w.(seat := after, calls := w.calls - {call},
           notices := Announce(w.notices, Flip(w.seat, after)))
    case WakeUp(now) =>
      if WakeStarts(w.seat, now, w.interval, w.ended) then
        w.(seat := Wake(w.seat, now, w.interval, w.ended), dialling := w.dialling + 1,
           starts := w.starts + [now])
      else w
    case Resolved(found) =>
      if w.dialling == 0 then w
      else
        var reader := ReaderOf(w, found);
        var after := Commit(w.seat, reader, found.Dialled?);
        var out := Evicted(w.seat, found.Dialled?);
        w.(seat := after, dialling := w.dialling - 1,
           dialled := if found.Dialled? then w.dialled + 1 else w.dialled,
           closing := if out.Some? then w.closing + {out.value} else w.closing,
           occupants := if after.seat == w.seat.seat then w.occupants else w.occupants + [after.reader],
           notices := Announce(w.notices, Flip(w.seat, after)))
    case Close(client) =>
      if client !in w.closing then w
      else w.(closing := w.closing - {client}, closed := w.closed + multiset{client})
    case End => w.(ended := true)
  }

  function Run(w: World, es: seq<Event>): World
    decreases |es|
  {
    if es == [] then w else Run(Step(w, es[0]), es[1..])
  }

  /** The world just after boot: the one synchronous resolution has been attached. */
  function Boot(found: Found, interval: int): World {
    var reader := match found case Nothing => Absent case Unreachable => Sentinel case Dialled => Live(0);
    World(Attach(Unbooted, reader, found.Dialled?), interval, false, map[], 0, {}, 0,
          if found.Dialled? then 1 else 0, [reader], multiset{}, [], [])
  }

  /** Boot seats what the resolution found, as generation one: nothing, the reader that always fails, or a first
      client; only the client counts as attached, and no attempt is stamped. */
  lemma WhatBootSeats(found: Found, interval: int)
    ensures
      var s := Boot(found, interval).seat;
      && s.reader == (match found case Nothing => Absent case Unreachable => Sentinel case Dialled => Live(0))
      && s.attached == found.Dialled? && s.failed == !found.Dialled?
      && s.seat == 1 && s.lastTry == ZERO_TIME && !s.trying
      && Boot(found, interval).interval == interval && !Boot(found, interval).ended
  {
  }

  // ---- the invariant --------------------------------------------------------------------------

  ghost predicate SeatsNameReaders(w: World) {
    && |w.occupants| == w.seat.seat >= 1
    && w.occupants[w.seat.seat - 1] == w.seat.reader
    && (forall c :: c in w.calls ==>
          && c < w.begun
          && !w.calls[c].reader.Absent?
          && 1 <= w.calls[c].seat <= w.seat.seat
          && w.calls[c].reader == w.occupants[w.calls[c].seat - 1])
  }

  ghost predicate StateIsReported(w: World) {
    && w.seat.attached == !w.seat.failed
    && (!w.seat.failed ==> w.seat.reader.Live?)
  }

  ghost predicate RanksRise(w: World) {
    forall i, j :: 0 <= i < j < |w.occupants| ==> Rank(w.occupants[i]) <= Rank(w.occupants[j])
  }

  /** How often `client` was let go: closed already, or queued to be closed. */
  function Released(w: World, client: nat): nat {
    w.closed[client] + (if client in w.closing then 1 else 0)
  }

  ghost predicate ClientsAccountedFor(w: World) {
    && (forall i, j :: 0 <= i < j < |w.occupants| && w.occupants[i].Live? ==> w.occupants[i] != w.occupants[j])
    && (forall i :: 0 <= i < |w.occupants| && w.occupants[i].Live? ==> w.occupants[i].client < w.dialled)
    && (forall i :: 0 <= i < |w.occupants| && w.occupants[i].Live? ==>
          Released(w, w.occupants[i].client) == if i == |w.occupants| - 1 then 0 else 1)
    && (forall c: nat :: c in w.closing || c in w.closed ==> c < w.dialled)
  }

  predicate Spaced(starts: seq<int>, interval: int) {
    forall i :: 0 <= i < |starts| - 1 ==> starts[i] == ZERO_TIME || starts[i + 1] - starts[i] >= interval
  }

  ghost predicate AttemptsBounded(w: World) {
    && w.dialling == (if w.seat.trying then 1 else 0)
    && w.seat.lastTry == (if w.starts == [] then ZERO_TIME else w.starts[|w.starts| - 1])
    && Spaced(w.starts, w.interval)
  }

  predicate Alternates(notices: seq<Notice>) {
    forall i :: 0 <= i < |notices| - 1 ==> notices[i] != notices[i + 1]
  }

  predicate Follow(notices: seq<Notice>, attached: bool) {
    && Alternates(notices)
    && (notices != [] ==> (notices[|notices| - 1] == NowAttached) == attached)
  }

  ghost predicate NoticesFollow(w: World) { Follow(w.notices, w.seat.attached) }

  ghost predicate Inv(w: World) {
    && SeatsNameReaders(w) && StateIsReported(w) && RanksRise(w)
    && ClientsAccountedFor(w) && AttemptsBounded(w) && NoticesFollow(w)
  }

  lemma StepKeepsSeats(w: World, e: Event)
    requires SeatsNameReaders(w)
    ensures SeatsNameReaders(Step(w, e))
  {
    match e
    case Resolved(found) => ResolvedKeepsSeats(w, found);
    case Begin =>
    case Report(call, verdict) => ReportKeepsSeats(w, call, verdict);
    case WakeUp(_) =>
    case Close(_) =>
    case End =>
  }

  lemma ReportKeepsSeats(w: World, call: nat, verdict: Verdict)
    requires SeatsNameReaders(w)
    ensures SeatsNameReaders(Step(w, Report(call, verdict)))
  {
  }

  lemma ResolvedKeepsSeats(w: World, found: Found)
    requires SeatsNameReaders(w)
    ensures SeatsNameReaders(Step(w, Resolved(found)))
  {
    assert w.occupants <= Step(w, Resolved(found)).occupants;
  }

  lemma StepKeepsReports(w: World, e: Event)
    requires SeatsNameReaders(w) && StateIsReported(w) && RanksRise(w)
    ensures StateIsReported(Step(w, e)) && RanksRise(Step(w, e))
  {
    match e
    case Resolved(found) =>
      assert w.seat.seat > 0 && w.occupants[w.seat.seat - 1] == w.seat.reader;
    case Report(call, verdict) =>
      if CanReport(w, call, verdict) && Counts(w.seat, w.calls[call].seat, verdict) {
        assert w.calls[call].reader == w.seat.reader;
      }
    case _ =>
  }

  lemma StepKeepsClients(w: World, e: Event)
    requires SeatsNameReaders(w) && ClientsAccountedFor(w)
    ensures ClientsAccountedFor(Step(w, e))
  {
    match e
    case Resolved(found) =>
      if w.dialling > 0 { ResolvedKeepsClients(w, found); }
    case Close(client) =>
      if client in w.closing { CloseKeepsClients(w, client); }
    case _ => OthersMoveNoClients(w, e);
  }

  lemma OthersMoveNoClients(w: World, e: Event)
    requires ClientsAccountedFor(w) && !e.Resolved? && !e.Close?
    ensures ClientsAccountedFor(Step(w, e))
  {
    var w' := Step(w, e);
    assert w'.occupants == w.occupants && w'.dialled == w.dialled;
    assert w'.closing == w.closing && w'.closed == w.closed;
  }

  lemma CloseKeepsClients(w: World, client: nat)
    requires ClientsAccountedFor(w) && client in w.closing
    ensures ClientsAccountedFor(Step(w, Close(client)))
  {
    var w' := Step(w, Close(client));
    assert forall c: nat :: Released(w', c) == Released(w, c);
  }

  lemma ResolvedKeepsClients(w: World, found: Found)
    requires SeatsNameReaders(w) && ClientsAccountedFor(w) && w.dialling > 0
    ensures ClientsAccountedFor(Step(w, Resolved(found)))
  {
    var w' := Step(w, Resolved(found));
    if found.Dialled? {
      SeatingKeepsClients(w);
    } else {
      assert forall c: nat :: Released(w', c) == Released(w, c);
      assert w'.occupants != w.occupants ==> !w.seat.reader.Live?;
    }
  }

  lemma SeatingKeepsClients(w: World)
    requires SeatsNameReaders(w) && ClientsAccountedFor(w) && w.dialling > 0
    ensures ClientsAccountedFor(Step(w, Resolved(Dialled)))
  {
    var w' := Step(w, Resolved(Dialled));
    var last := |w.occupants| - 1;
    assert w'.occupants == w.occupants + [Live(w.dialled)];
    forall c: nat
      ensures Released(w', c) == if w.occupants[last] == Live(c) then 1 else Released(w, c)
    {
      if w.occupants[last] == Live(c) { assert Released(w, c) == 0; }
    }
    assert Released(w, w.dialled) == 0;
  }

  lemma StepKeepsAttempts(w: World, e: Event)
    requires AttemptsBounded(w)
    ensures AttemptsBounded(Step(w, e))
  {
    match e
    case Begin =>
    case Report(call, verdict) =>
      var after := Step(w, e).seat;
      assert after.trying == w.seat.trying && after.lastTry == w.seat.lastTry;
    case WakeUp(now) =>
      if WakeStarts(w.seat, now, w.interval, w.ended) { OneMoreStart(w.starts, w.interval, now); }
    case Resolved(found) =>
      var after := Commit(w.seat, ReaderOf(w, found), found.Dialled?);
      assert !after.trying && after.lastTry == w.seat.lastTry;
    case Close(_) =>
    case End =>
  }

  lemma OneMoreStart(starts: seq<int>, interval: int, now: int)
    requires Spaced(starts, interval)
    requires starts != [] ==> starts[|starts| - 1] == ZERO_TIME || now - starts[|starts| - 1] >= interval
    ensures Spaced(starts + [now], interval)
  {
  }

  lemma AnnounceKeeps(notices: seq<Notice>, before: Seat, after: Seat)
    requires Follow(notices, before.attached)
    ensures Follow(Announce(notices, Flip(before, after)), after.attached)
  {
  }

  lemma StepKeepsNotices(w: World, e: Event)
    requires NoticesFollow(w)
    ensures NoticesFollow(Step(w, e))
  {
    AnnounceKeeps(w.notices, w.seat, Step(w, e).seat);
  }

  lemma StepKeepsInv(w: World, e: Event)
    requires Inv(w)
    ensures Inv(Step(w, e))
  {
    StepKeepsSeats(w, e);
    StepKeepsReports(w, e);
    StepKeepsClients(w, e);
    StepKeepsAttempts(w, e);
    StepKeepsNotices(w, e);
  }

  lemma {:induction false} InvAlways(w: World, es: seq<Event>)
    requires Inv(w)
    ensures Inv(Run(w, es))
    decreases |es|
  {
    if es != [] {
      StepKeepsInv(w, es[0]);
      InvAlways(Step(w, es[0]), es[1..]);
    }
  }

  lemma BootHolds(found: Found, interval: int)
    ensures Inv(Boot(found, interval))
  {
  }

  lemma {:induction false} Reachable(found: Found, interval: int, es: seq<Event>)
    ensures Inv(Run(Boot(found, interval), es))
  {
    BootHolds(found, interval);
    InvAlways(Boot(found, interval), es);
  }

  lemma {:induction false} RunAppend(w: World, es: seq<Event>, more: seq<Event>)
    ensures Run(w, es + more) == Run(Run(w, es), more)
    decreases |es|
  {
    if es == [] {
      assert es + more == more;
    } else {
      assert (es + more)[1..] == es[1..] + more;
      RunAppend(Step(w, es[0]), es[1..], more);
    }
  }

  // ---- whose news counts ----------------------------------------------------------------------

  ghost predicate Extends(w: World, w': World) {
    && w.occupants <= w'.occupants
    && w.starts <= w'.starts
    && w.begun <= w'.begun
    && w.interval == w'.interval
    && (forall c :: c in w'.calls && c < w.begun ==> c in w.calls && w'.calls[c] == w.calls[c])
  }

  /** History is never rewritten: generations keep their readers, calls keep what they captured. */
  lemma {:induction false} HistoryGrows(w: World, es: seq<Event>)
    ensures Extends(w, Run(w, es))
    decreases |es|
  {
    if es != [] {
      var w' := Step(w, es[0]);
      assert Extends(w, w');
      HistoryGrows(w', es[1..]);
    }
  }

  /** Equal seat numbers denote the same reader, whenever in the run they were captured. */
  lemma {:induction false} SeatNumberNamesOneReader(
      found: Found, interval: int, es: seq<Event>, more: seq<Event>, early: nat, late: nat)
    requires early in Run(Boot(found, interval), es).calls
    requires late in Run(Boot(found, interval), es + more).calls
    requires Run(Boot(found, interval), es).calls[early].seat == Run(Boot(found, interval), es + more).calls[late].seat
    ensures Run(Boot(found, interval), es).calls[early].reader
         == Run(Boot(found, interval), es + more).calls[late].reader
  {
    Reachable(found, interval, es);
    Reachable(found, interval, es + more);
    RunAppend(Boot(found, interval), es, more);
    HistoryGrows(Run(Boot(found, interval), es), more);
  }

  /** A report changes the seat's state only when its reader sits there now and its caller did not
      cancel; when it counts, the state afterwards is exactly what it said. */
  lemma {:induction false} OnlyTheSeatedReaderIsJudged(
      found: Found, interval: int, es: seq<Event>, call: nat, verdict: Verdict)
    requires call in Run(Boot(found, interval), es).calls
    ensures
      var w := Run(Boot(found, interval), es);
      var w' := Step(w, Report(call, verdict));
      && w'.seat.reader == w.seat.reader && w'.seat.seat == w.seat.seat
      && w'.seat.trying == w.seat.trying && w'.seat.lastTry == w.seat.lastTry
      && (w'.seat.failed != w.seat.failed ==>
            && w.calls[call].reader == w.seat.reader
            && verdict != NoVerdict
            && w'.seat.failed == verdict.Dead?)
      && (verdict.Dead? && w.calls[call].seat == w.seat.seat ==> w'.seat.failed && !w'.seat.attached)
  {
    Reachable(found, interval, es);
  }

  /** Once an attempt has seated a client, whatever interleaving follows, a report that flips the
      seat comes from a read begun after that seating. */
  lemma {:induction false} LateNewsCannotDetach(
      found: Found, interval: int, es: seq<Event>, more: seq<Event>, call: nat, verdict: Verdict)
    requires Run(Boot(found, interval), es).dialling > 0
    ensures
      var w := Run(Boot(found, interval), es);
      var later := Run(Step(w, Resolved(Dialled)), more);
      Step(later, Report(call, verdict)).seat != later.seat ==> call >= w.begun
  {
    Reachable(found, interval, es);
    var w := Run(Boot(found, interval), es);
    var seated := Step(w, Resolved(Dialled));
    StepKeepsInv(w, Resolved(Dialled));
    HistoryGrows(seated, more);
    InvAlways(seated, more);
    OldCallsHoldOldSeats(w, seated, Run(seated, more), call, verdict);
  }

  lemma OldCallsHoldOldSeats(w: World, seated: World, later: World, call: nat, verdict: Verdict)
    requires SeatsNameReaders(w) && SeatsNameReaders(seated) && SeatsNameReaders(later)
    requires seated.seat.seat > w.seat.seat && seated.begun == w.begun && seated.calls == w.calls
    requires Extends(seated, later)
    ensures Step(later, Report(call, verdict)).seat != later.seat ==> call >= w.begun
  {
    assert later.seat.seat >= seated.seat.seat;
  }

  // ---- the life of a call, an attempt and a client ------------------------------------------------------

  /** A read of a seat that is not empty is in flight from its capture, with the reader and the generation it
      found, whatever else happens, until its own report takes effect; then it is gone for good. */
  lemma {:induction false} ReadsLiveUntilTheyReport(w: World, es: seq<Event>)
    requires SeatsNameReaders(w) && !w.seat.reader.Absent?
    requires forall k :: 0 <= k < |es| && es[k].Report? ==> es[k].call != w.begun
    ensures
      var later := Run(Step(w, Begin), es);
      && w.begun in later.calls && later.calls[w.begun] == Call(w.seat.reader, w.seat.seat)
      && forall verdict :: CanReport(later, w.begun, verdict) ==>
           w.begun !in Step(later, Report(w.begun, verdict)).calls
  {
    OthersLeaveTheCall(Step(w, Begin), es, w.begun);
  }

  lemma {:induction false} OthersLeaveTheCall(w: World, es: seq<Event>, call: nat)
    requires call in w.calls && call < w.begun
    requires forall k :: 0 <= k < |es| && es[k].Report? ==> es[k].call != call
    ensures call in Run(w, es).calls && Run(w, es).calls[call] == w.calls[call]
    decreases |es|
  {
    if es != [] {
      assert es[0].Report? ==> es[0].call != call;
      OthersLeaveTheCall(Step(w, es[0]), es[1..], call);
    }
  }

  /** What an attempt that ends does to the seat, for each thing a resolution can find: only a dialled client
      displaces anybody, and only an empty seat takes the reader that always fails. */
  lemma WhatResolvingDoes(w: World, found: Found)
    requires SeatsNameReaders(w) && w.dialling > 0
    ensures
      var w' := Step(w, Resolved(found));
      && w'.dialling == w.dialling - 1 && !w'.seat.trying && w'.seat.lastTry == w.seat.lastTry
      && (found.Dialled? ==>
            && w'.seat.reader == Live(w.dialled) && w'.seat.attached && !w'.seat.failed
            && w'.dialled == w.dialled + 1
            && w'.closing == w.closing + (if w.seat.reader.Live? then {w.seat.reader.client} else {}))
      && (!found.Dialled? ==>
            && w'.seat.attached == w.seat.attached && w'.seat.failed == w.seat.failed
            && w'.dialled == w.dialled && w'.closing == w.closing
            && w'.seat.reader == if w.seat.reader.Absent? && found.Unreachable? then Sentinel else w.seat.reader)
  {
  }

  /** A displaced client is let go by the close that follows, once. */
  lemma ClosingLetsGo(w: World, client: nat)
    requires client in w.closing
    ensures
      var w' := Step(w, Close(client));
      && client !in w'.closing && w'.closed == w.closed + multiset{client} && w'.seat == w.seat
  {
  }

  /** Once the process's context has ended, no attempt ever starts. */
  lemma {:induction false} NothingStartsAfterTheEnd(w: World, es: seq<Event>)
    ensures Run(Step(w, End), es).starts == w.starts
    ensures Run(Step(w, End), es).dialling <= w.dialling
  {
    EndedStays(Step(w, End), es);
  }

  lemma {:induction false} EndedStays(w: World, es: seq<Event>)
    requires w.ended
    ensures Run(w, es).starts == w.starts && Run(w, es).dialling <= w.dialling
    decreases |es|
  {
    if es != [] {
      EndedStays(Step(w, es[0]), es[1..]);
    }
  }

  // ---- the seat only improves -------------------------------------------------------------------

  lemma {:induction false} SeatOnlyImproves(found: Found, interval: int, es: seq<Event>, more: seq<Event>)
    ensures
      var w := Run(Boot(found, interval), es);
      var later := Run(w, more);
      && Rank(w.seat.reader) <= Rank(later.seat.reader)
      && (w.seat.reader.Live? ==> later.seat.reader.Live?)
      && (later.seat.reader.Absent? ==> w.seat.reader.Absent?)
      && w.seat.seat <= later.seat.seat
      && (!later.seat.failed ==> later.seat.reader.Live?)
  {
    Reachable(found, interval, es);
    var w := Run(Boot(found, interval), es);
    HistoryGrows(w, more);
    InvAlways(w, more);
    var later := Run(w, more);
    assert later.occupants[|w.occupants| - 1] == w.seat.reader;
  }

  /** Every client that ever sat is the occupant, or has been let go exactly once; never both. */
  lemma {:induction false} ClosedExactlyOnce(found: Found, interval: int, es: seq<Event>, client: nat)
    requires Live(client) in Run(Boot(found, interval), es).occupants
    ensures
      var w := Run(Boot(found, interval), es);
      && (w.seat.reader == Live(client) <==> Released(w, client) == 0)
      && (w.seat.reader != Live(client) <==> Released(w, client) == 1)
  {
    Reachable(found, interval, es);
    var w := Run(Boot(found, interval), es);
    var i :| 0 <= i < |w.occupants| && w.occupants[i] == Live(client);
    assert w.occupants[|w.occupants| - 1] == w.seat.reader;
  }

  // ---- attempts -----------------------------------------------------------------------------------

  lemma {:induction false} SingleFlight(found: Found, interval: int, es: seq<Event>)
    ensures
      var w := Run(Boot(found, interval), es);
      w.dialling == (if w.seat.trying then 1 else 0)
  {
    Reachable(found, interval, es);
  }

  lemma {:induction false} SpacedWindow(starts: seq<int>, interval: nat, i: nat, j: nat)
    requires Spaced(starts, interval) && i <= j < |starts|
    requires forall k :: i <= k < j ==> starts[k] != ZERO_TIME
    ensures starts[j] - starts[i] >= (j - i) * interval
    decreases j - i
  {
    if i < j {
      SpacedWindow(starts, interval, i, j - 1);
      assert starts[j - 1] != ZERO_TIME;
      assert (j - i) * interval == (j - 1 - i) * interval + interval;
    }
  }

  /** For any clock, even one that runs backwards: among attempts stamped with a real instant, a
      window of length `span` holds at most span / interval + 1 of them. */
  lemma {:induction false} AttemptsPerWindow(
      found: Found, interval: int, es: seq<Event>, i: nat, j: nat, span: nat)
    requires interval > 0
    requires i <= j < |Run(Boot(found, interval), es).starts|
    requires forall k :: i <= k < j ==> Run(Boot(found, interval), es).starts[k] != ZERO_TIME
    requires Run(Boot(found, interval), es).starts[j] - Run(Boot(found, interval), es).starts[i] <= span
    ensures j - i + 1 <= span / interval + 1
  {
    Reachable(found, interval, es);
    BootHolds(found, interval);
    HistoryGrows(Boot(found, interval), es);
    var starts := Run(Boot(found, interval), es).starts;
    SpacedWindow(starts, interval, i, j);
    WindowHolds(j - i, interval, span);
  }

  lemma WindowHolds(gaps: nat, interval: nat, span: nat)
    requires interval > 0 && gaps * interval <= span
    ensures gaps <= span / interval
  {
    var whole := span / interval;
    assert span < (whole + 1) * interval;
    ProductOrder(whole + 1, gaps, interval);
  }

  /** The limit rests on `IsZero`: it protects an attempt stamped `stamp` in every situation exactly
      when that stamp is a real instant. A clock that reads the zero time lets the next wake through. */
  lemma {:induction false} RateLimitNeedsARealStamp(stamp: int, interval: int)
    requires interval > 0
    ensures (forall s: Seat, now: int ::
               s.lastTry == stamp && WakeStarts(s, now, interval, false) ==> now - stamp >= interval)
            <==> stamp != ZERO_TIME
  {
    if stamp == ZERO_TIME {
      var s := Unbooted.(lastTry := stamp);
      assert WakeStarts(s, stamp, interval, false);
    }
  }

  /** The wakes in `es` come from a clock that does not run backwards and are at most `gap` apart. */
  predicate Ticking(es: seq<Event>, last: int, gap: int)
    decreases |es|
  {
    es == [] ||
    match es[0]
    case WakeUp(now) => last <= now <= last + gap && Ticking(es[1..], now, gap)
    case End => false
    case _ => Ticking(es[1..], last, gap)
  }

  function LastTick(es: seq<Event>, last: int): int
    decreases |es|
  {
    if es == [] then last
    else LastTick(es[1..], if es[0].WakeUp? then es[0].now else last)
  }

  /** The converse bound: with the previous attempt over and wakes at most `gap` apart, the next
      attempt starts before lastTry + interval + gap, whatever else happens in between. */
  lemma {:induction false} NextAttemptComesInTime(w: World, es: seq<Event>, last: int, gap: nat)
    requires AttemptsBounded(w) && !w.seat.trying && !w.ended && w.seat.lastTry != ZERO_TIME
    requires last < w.seat.lastTry + w.interval
    requires Ticking(es, last, gap)
    requires LastTick(es, last) >= w.seat.lastTry + w.interval
    ensures w.starts < Run(w, es).starts
    ensures
      var next := Run(w, es).starts[|w.starts|];
      w.seat.lastTry + w.interval <= next < w.seat.lastTry + w.interval + gap
    decreases |es|
  {
    var w' := Step(w, es[0]);
    StepKeepsAttempts(w, es[0]);
    if es[0].WakeUp? && es[0].now - w.seat.lastTry >= w.interval {
      assert w'.starts == w.starts + [es[0].now];
      HistoryGrows(w', es[1..]);
    } else {
      NextAttemptComesInTime(w', es[1..], if es[0].WakeUp? then es[0].now else last, gap);
    }
  }

  // ---- reports follow state -------------------------------------------------------------------------

  /** The flip of `failed`, the field that decides what the seat is worth. */
  function FlipOf(w: World, w': World): seq<Notice> {
    if w'.seat.failed == w.seat.failed then []
    else if w'.seat.failed then [NowDetached]
    else [NowAttached]
  }

  /** The flips along a run. */
  function Flips(w: World, es: seq<Event>): seq<Notice>
    decreases |es|
  {
    if es == [] then []
    else FlipOf(w, Step(w, es[0])) + Flips(Step(w, es[0]), es[1..])
  }

  /** The lines decided along any run are exactly the flips of its state, in order, and so alternate:
      no flip is silent, no line is said twice, and `attached` never disagrees with `failed`. */
  lemma {:induction false} ReportsFollowState(found: Found, interval: int, es: seq<Event>)
    ensures
      var w := Run(Boot(found, interval), es);
      && w.notices == Flips(Boot(found, interval), es)
      && (forall i :: 0 <= i < |w.notices| - 1 ==> w.notices[i] != w.notices[i + 1])
      && w.seat.attached == !w.seat.failed
  {
    var boot := Boot(found, interval);
    Reachable(found, interval, es);
    BootHolds(found, interval);
    NoticesAreFlips(boot, es);
    assert boot.notices + Flips(boot, es) == Flips(boot, es);
    FollowMeans(Run(boot, es));
  }

  lemma FollowMeans(w: World)
    requires Inv(w)
    ensures Alternates(w.notices) && w.seat.attached == !w.seat.failed
  {
  }

  lemma StepSaysItsFlip(w: World, e: Event)
    requires StateIsReported(w) && StateIsReported(Step(w, e))
    ensures Step(w, e).notices == w.notices + FlipOf(w, Step(w, e))
  {
  }

  lemma {:induction false} NoticesAreFlips(w: World, es: seq<Event>)
    requires Inv(w)
    ensures Run(w, es).notices == w.notices + Flips(w, es)
    decreases |es|
  {
    if es != [] {
      var w' := Step(w, es[0]);
      StepKeepsInv(w, es[0]);
      StepSaysItsFlip(w, es[0]);
      NoticesAreFlips(w', es[1..]);
      Regroup(w.notices, FlipOf(w, w'), Flips(w', es[1..]));
    }
  }
}

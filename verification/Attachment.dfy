/** The seat that both reattachment wrappers guard with one mutex: a reader slot with a generation
    number, a reported state, and a rate-limited single-flight redial.

    Every function here is one lock region of the Go source. What happens between two lock regions
    is the business of module AttachRuns. */
module Attachment {
  import opened Prelude

  /** What sits in the seat: nothing, the reader that always fails, or a dialled client. */
  datatype Reader = Absent | Sentinel | Live(client: nat)

  function Rank(r: Reader): nat {
    match r
    case Absent => 0
    case Sentinel => 1
    case Live(_) => 2
  }

  /** The mutex-guarded fields. */
  datatype Seat = Seat(
    reader: Reader,
    attached: bool,
    failed: bool,
    lastTry: int,
    trying: bool,
    seat: nat)

  /** What one finished call says about the endpoint. A caller's own cancellation says nothing. */
  datatype Verdict = Alive | Dead | NoVerdict

  /** The transition lines decided under the lock. */
  datatype Notice = NowAttached | NowDetached

  const Unbooted := Seat(Absent, false, false, ZERO_TIME, false, 0)

  /** The boot-time resolution, taken as it is: a reader, and whether it was dialled live. */
  function Attach(s: Seat, reader: Reader, live: bool): Seat {
    s.(reader := reader, attached := live, failed := !live, seat := s.seat + 1)
  }

  predicate TooSoon(s: Seat, now: int, interval: int) {
    s.lastTry != ZERO_TIME && now - s.lastTry < interval
  }

  /** Whether a wake at `now` starts an attempt. */
  predicate WakeStarts(s: Seat, now: int, interval: int, ended: bool) {
    !s.trying && !TooSoon(s, now, interval) && !ended
  }

  function Wake(s: Seat, now: int, interval: int, ended: bool): Seat {
    if WakeStarts(s, now, interval, ended) then s.(trying := true, lastTry := now) else s
  }

  /** The lock region that ends an attempt whose resolution found `found`, live or not. */
  function Commit(s: Seat, found: Reader, live: bool): Seat {
    if live then
      s.(trying := false, reader := found, failed := false, attached := true, seat := s.seat + 1)
    else if s.reader.Absent? && !found.Absent? then
      s.(trying := false, reader := found, seat := s.seat + 1)
    else
      s.(trying := false)
  }

  /** The client an attempt pushes out of the seat, if any. */
  function Evicted(s: Seat, live: bool): Option<nat> {
    if live && s.reader.Live? then Some(s.reader.client) else None
  }

  /** Does a report from a call that captured generation `seat` count? */
  predicate Counts(s: Seat, seat: nat, verdict: Verdict) {
    verdict != NoVerdict && seat == s.seat
  }

  function Observe(s: Seat, seat: nat, verdict: Verdict): Seat {
    if !Counts(s, seat, verdict) then s
    else s.(failed := verdict.Dead?, attached := verdict.Alive?)
  }

  /** The line a lock region decides to print: one exactly when the reported state flips. */
  function Flip(before: Seat, after: Seat): Option<Notice> {
    if before.attached == after.attached then None
    else if after.attached then Some(NowAttached)
    else Some(NowDetached)
  }

  /** How one read or call ended: with an answer, or with an error that is or is not one of the
      context package's cancellation errors. */
  datatype Outcome<+E> = Done | Error(contextError: bool, error: E)

  /** The caller's context: absent, still running, or over. */
  datatype Caller = NoContext | Running | Over

  /** The failure is the caller's own: a context error while the caller's context really is over. */
  predicate CallerCancelled<E>(o: Outcome<E>, caller: Caller) {
    o.Error? && o.contextError && caller.Over?
  }
}

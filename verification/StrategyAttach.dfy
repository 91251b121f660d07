/** The strategy screen's attachment: one method for each lock region of the Go object.
    The reads and dials between them are events of module AttachRuns' worlds. */
module StrategyAttach {
  import opened Prelude
  import opened Attachment

  /** Every error that is not the caller's own condemns the endpoint. */
  function VerdictOf<E>(o: Outcome<E>, caller: Caller): Verdict {
    if CallerCancelled(o, caller) then NoVerdict else if o.Done? then Alive else Dead
  }

  class StrategyRuntimeAttachment {
    const interval: int
    var reader: Reader
    var attached: bool
    var failed: bool
    var lastTry: int
    var trying: bool
    var seat: nat

    function State(): Seat
      reads this
    {
      Seat(reader, attached, failed, lastTry, trying, seat)
    }

    /** Boot: the synchronous resolution is attached as it is and does not stamp `lastTry`. */
    constructor (interval: int, resolved: Reader, live: bool)
      ensures this.interval == interval
      ensures State() == Attach(Unbooted, resolved, live)
      ensures reader == resolved && attached == live && failed == !live
      ensures lastTry == ZERO_TIME && !trying && seat == 1
    {
      this.interval := interval;
      reader, attached, failed := resolved, live, !live;
      lastTry, trying, seat := ZERO_TIME, false, 1;
    }

    /** `state`: what a read captures before it leaves the lock. */
    method Capture() returns (captured: Reader, generation: nat, wanted: bool)
      ensures captured == reader && generation == seat && wanted == failed
    {
      captured, generation, wanted := reader, seat, failed;
    }

    method WakeUp(now: int, ended: bool) returns (started: bool)
      modifies this
      ensures State() == Wake(old(State()), now, interval, ended)
      ensures started == WakeStarts(old(State()), now, interval, ended)
      ensures started <==>
                !old(trying) && !ended && (old(lastTry) == ZERO_TIME || now - old(lastTry) >= interval)
      ensures trying == (started || old(trying)) && lastTry == if started then now else old(lastTry)
      ensures unchanged(this`reader, this`attached, this`failed, this`seat)
    {
      var tooSoon := lastTry != ZERO_TIME && now - lastTry < interval;
      if trying || tooSoon || ended {
        return false;
      }
      trying, lastTry := true, now;
      started := true;
    }

    /** A presence query wakes whatever the seat looks like, and answers from before the wake. */
    method StrategyRuntimeConfigured(now: int, ended: bool) returns (configured: bool)
      modifies this
      ensures State() == Wake(old(State()), now, interval, ended)
      ensures configured <==> !old(reader).Absent?
      ensures unchanged(this`reader, this`attached, this`failed, this`seat)
    {
      var captured, _, _ := Capture();
      var _ := WakeUp(now, ended);
      configured := !captured.Absent?;
    }

    /** The end of an attempt. `evicted` goes to Close after the lock; `announce` prints one line. */
    method FinishAttempt(found: Reader, live: bool) returns (evicted: Option<nat>, announce: bool)
      modifies this
      ensures State() == Commit(old(State()), found, live)
      ensures evicted == Evicted(old(State()), live)
      ensures announce <==> Flip(old(State()), State()) == Some(NowAttached)
      ensures Flip(old(State()), State()) != Some(NowDetached)
      ensures !trying && lastTry == old(lastTry)
      ensures live ==> reader == found && attached && !failed && seat == old(seat) + 1 && announce == !old(attached)
      ensures live ==> evicted == if old(reader).Live? then Some(old(reader).client) else None
      ensures !live ==> evicted.None? && !announce && attached == old(attached) && failed == old(failed)
      // Only an empty seat takes what could not be dialled.
      ensures !live && old(reader).Absent? && !found.Absent? ==> reader == found && seat == old(seat) + 1
      ensures !live && (!old(reader).Absent? || found.Absent?) ==> reader == old(reader) && seat == old(seat)
    {
      trying := false;
      evicted, announce := None, false;
      if !live {
        if reader.Absent? && !found.Absent? {
          reader, seat := found, seat + 1;
        }
        return;
      }
      if reader.Live? {
        evicted := Some(reader.client);
      }
      reader, failed, seat := found, false, seat + 1;
      announce := !attached;
      attached := true;
    }

    /** `observe`: returns whether the seat is now worth a redial. */
    method Judge<E>(o: Outcome<E>, caller: Caller, generation: nat) returns (again: bool, said: Option<Notice>)
      modifies this
      ensures State() == Observe(old(State()), generation, VerdictOf(o, caller))
      ensures again <==> Counts(old(State()), generation, VerdictOf(o, caller)) && o.Error?
      ensures said == Flip(old(State()), State())
      ensures unchanged(this`reader, this`lastTry, this`trying, this`seat)
      // The caller's own cancellation and news of an earlier occupant say nothing.
      ensures (o.Error? && o.contextError && caller == Over) || generation != old(seat) ==>
                State() == old(State()) && !again && said.None?
      // Any other error, a context error under a caller that still runs included, is the endpoint's.
      ensures generation == old(seat) && o.Error? && !(o.contextError && caller == Over) ==>
                failed && !attached && again && said == if old(attached) then Some(NowDetached) else None
      ensures generation == old(seat) && o.Done? ==>
                !failed && attached && !again && said == if old(attached) then None else Some(NowAttached)
    {
      again, said := false, None;
      if CallerCancelled(o, caller) || generation != seat {
        return;
      }
      if o.Done? {
        failed := false;
        if !attached {
          said := Some(NowAttached);
        }
        attached := true;
        return;
      }
      failed := true;
      if attached {
        said := Some(NowDetached);
      }
      attached := false;
      again := true;
    }
  }
}

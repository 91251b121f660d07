/** One refresh at a time, and everybody else waits on the channel of that refresh: the part that the
    timed read cache and the snapshot cache share. Channels are numbered as they are made. */
module SingleFlight {

  /** How one read of the source ends. */
  datatype Outcome<+T, +E> = Ok(value: T) | Err(error: E)

  /** `reading` and `waiting` map a goroutine to the channel it will close or is blocked on. */
  datatype Flight = Flight(
    refreshing: bool,
    done: nat,               // the channel the cache holds; 0 is nil
    made: nat,
    closed: multiset<nat>,
    reading: map<nat, nat>,
    waiting: map<nat, nat>)

  const Idle := Flight(false, 0, 0, multiset{}, map[], map[])

  /** The goroutine becomes the one that reads the source. */
  function Lead(f: Flight, who: nat): Flight {
    f.(refreshing := true, done := f.made + 1, made := f.made + 1, reading := f.reading[who := f.made + 1])
  }

  function Join(f: Flight, who: nat): Flight {
    f.(waiting := f.waiting[who := f.done])
  }

  predicate CanLeave(f: Flight, who: nat) {
    who in f.waiting && f.waiting[who] in f.closed
  }

  function Leave(f: Flight, who: nat): Flight {
    f.(waiting := f.waiting - {who})
  }

  /** The reader commits: it closes the channel it made, whatever the cache holds. */
  function Land(f: Flight, who: nat): Flight
    requires who in f.reading
  {
    f.(refreshing := false, closed := f.closed + multiset{f.reading[who]}, reading := f.reading - {who})
  }

  ghost predicate Inv(f: Flight) {
    && f.done == f.made
    && (if f.refreshing then f.made > 0 && exists who :: f.reading == map[who := f.done] else f.reading == map[])
    && (forall ch: nat :: f.closed[ch] == if 1 <= ch <= f.made && !(f.refreshing && ch == f.done) then 1 else 0)
    && (forall who :: who in f.waiting ==> 1 <= f.waiting[who] <= f.made && who !in f.reading)
  }

  lemma LeadKeeps(f: Flight, who: nat)
    requires Inv(f) && !f.refreshing && who !in f.waiting
    ensures Inv(Lead(f, who))
  {
    assert Lead(f, who).reading == map[who := f.made + 1];
  }

  lemma JoinKeeps(f: Flight, who: nat)
    requires Inv(f) && f.refreshing && who !in f.reading
    ensures Inv(Join(f, who))
  {
  }

  lemma LandKeeps(f: Flight, who: nat)
    requires Inv(f) && who in f.reading
    ensures Inv(Land(f, who))
    ensures Land(f, who).reading == map[]
  {
  }

  /** What single flight promises: one read in progress exactly while `refreshing` holds, every
      finished generation's channel closed exactly once and no other, and nobody blocked on a channel
      that no read in progress is going to close. */
  ghost predicate Promises(f: Flight) {
    && |f.reading| == (if f.refreshing then 1 else 0)
    && (forall ch: nat :: 1 <= ch <= f.made ==> f.closed[ch] == if f.refreshing && ch == f.done then 0 else 1)
    && (forall ch: nat :: ch in f.closed ==> 1 <= ch <= f.made)
    && (forall who :: who in f.waiting && !CanLeave(f, who) ==>
          f.refreshing && exists reader :: reader in f.reading && f.reading[reader] == f.waiting[who])
  }

  lemma KeepsPromises(f: Flight)
    requires Inv(f)
    ensures Promises(f)
  {
    if f.refreshing {
      var who :| f.reading == map[who := f.done];
      assert who in f.reading;
      assert |f.reading| == 1;
    }
  }

  /** The one that leads reads and nobody waits for it; one that joins is blocked until the read in progress
      lands; one that leaves is nowhere. */
  lemma WhereEverybodyIs(f: Flight, who: nat)
    requires Inv(f) && who !in f.reading && who !in f.waiting
    ensures !f.refreshing ==>
              Lead(f, who).refreshing && Lead(f, who).reading.Keys == {who} && Lead(f, who).waiting == f.waiting
    ensures f.refreshing ==>
              && Join(f, who).waiting.Keys == f.waiting.Keys + {who} && !CanLeave(Join(f, who), who)
              && Join(f, who).reading == f.reading && Join(f, who).refreshing
    ensures forall other :: other in f.waiting ==>
              Leave(f, other).waiting.Keys == f.waiting.Keys - {other} && Leave(f, other).reading == f.reading
    ensures forall reader :: reader in f.reading ==>
              Land(f, reader).reading.Keys == {} && !Land(f, reader).refreshing && Land(f, reader).waiting == f.waiting
  {
    if f.refreshing {
      var reader :| f.reading == map[reader := f.done];
    }
  }

  /** When the read in progress lands, nobody stays blocked. */
  lemma LandingWakesEverybody(f: Flight, who: nat)
    requires Inv(f) && who in f.reading
    ensures forall w :: w in Land(f, who).waiting ==> CanLeave(Land(f, who), w)
  {
    LandKeeps(f, who);
    forall w | w in Land(f, who).waiting
      ensures CanLeave(Land(f, who), w)
    {
      assert Land(f, who).closed[f.waiting[w]] == 1;
    }
  }

  // ---- the callers around a flight ------------------------------------------------------------------------

  /** Each of the first `callers` calls is in exactly one place: about to look, reading, waiting, or over. */
  ghost predicate Split(asking: set<nat>, f: Flight, over: set<nat>, callers: nat) {
    && Inv(f)
    && (forall who: nat :: who in asking || who in f.reading || who in f.waiting || who in over <==> who < callers)
    && (forall who :: who in asking ==> who !in f.reading && who !in f.waiting && who !in over)
    && (forall who :: who in over ==> who !in f.reading && who !in f.waiting)
  }

  lemma NobodyYet()
    ensures Split({}, Idle, {}, 0)
  {
  }

  lemma CallSplits(asking: set<nat>, f: Flight, over: set<nat>, callers: nat)
    requires Split(asking, f, over, callers)
    ensures Split(asking + {callers}, f, over, callers + 1)
  {
  }

  lemma AnswerSplits(asking: set<nat>, f: Flight, over: set<nat>, callers: nat, who: nat)
    requires Split(asking, f, over, callers) && who in asking
    ensures Split(asking - {who}, f, over + {who}, callers)
  {
  }

  lemma LeadSplits(asking: set<nat>, f: Flight, over: set<nat>, callers: nat, who: nat)
    requires Split(asking, f, over, callers) && who in asking && !f.refreshing
    ensures Split(asking - {who}, Lead(f, who), over, callers)
  {
    LeadKeeps(f, who);
  }

  lemma JoinSplits(asking: set<nat>, f: Flight, over: set<nat>, callers: nat, who: nat)
    requires Split(asking, f, over, callers) && who in asking && f.refreshing
    ensures Split(asking - {who}, Join(f, who), over, callers)
  {
    JoinKeeps(f, who);
  }

  lemma LeaveKeeps(f: Flight, who: nat)
    requires Inv(f)
    ensures Inv(Leave(f, who))
  {
  }

  lemma WakeSplits(asking: set<nat>, f: Flight, over: set<nat>, callers: nat, who: nat)
    requires Split(asking, f, over, callers) && who in f.waiting
    ensures Split(asking + {who}, Leave(f, who), over, callers)
  {
    LeaveKeeps(f, who);
  }

  lemma GiveUpSplits(asking: set<nat>, f: Flight, over: set<nat>, callers: nat, who: nat)
    requires Split(asking, f, over, callers) && who in f.waiting
    ensures Split(asking, Leave(f, who), over + {who}, callers)
  {
    LeaveKeeps(f, who);
  }

  lemma LandSplits(asking: set<nat>, f: Flight, over: set<nat>, callers: nat, who: nat)
    requires Split(asking, f, over, callers) && who in f.reading
    ensures Split(asking, Land(f, who), over + {who}, callers)
  {
    LandKeeps(f, who);
    WhereEverybodyIs(f, callers);
  }

  /** In how many places a call is. */
  function Places(asking: set<nat>, f: Flight, over: set<nat>, who: nat): nat {
    (if who in asking then 1 else 0) + (if who in f.reading then 1 else 0)
    + (if who in f.waiting then 1 else 0) + (if who in over then 1 else 0)
  }
}

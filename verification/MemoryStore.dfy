/** The memory directory as `retain`, `promote` and `_rebuild` change it, one system call at a time:
    ledger, notes, the two index files, and the temporary and backup files beside them. */
module MemoryStore {
  import opened Prelude
  import opened MemoryLedger

  /** One indexed record, with the note its text comes from. */
  datatype Row = Row(record: Record, note: Note)

  datatype Scratch = LedgerTemp(tag: nat) | IndexTemp | DatabaseTemp | IndexBackup | DatabaseBackup

  datatype Contents = Torn | Lines(records: seq<Record>) | Rows(rows: seq<Row>)

  /** The system calls of a rebuild that can fail. An output that does not exist is not backed up. */
  datatype IndexPoint =
    | IndexTempOpen | IndexTempWrite | DatabaseOpen | DatabaseFill
    | BackUpIndex | BackUpDatabase | PublishIndex | PublishDatabase

  predicate SwapFails(faults: set<IndexPoint>, hasIndex: bool, hasDatabase: bool) {
    || (BackUpIndex in faults && hasIndex)
    || (BackUpDatabase in faults && hasDatabase)
    || PublishIndex in faults || PublishDatabase in faults
  }

  predicate IndexFails(faults: set<IndexPoint>, hasIndex: bool, hasDatabase: bool) {
    !(faults !! {IndexTempOpen, IndexTempWrite, DatabaseOpen, DatabaseFill}) || SwapFails(faults, hasIndex, hasDatabase)
  }

  /** The failures of one operation as module MemoryLedger counts them. */
  function Overall(faults: set<Point>, indexFaults: set<IndexPoint>, hasIndex: bool, hasDatabase: bool): set<Point> {
    if IndexFails(indexFaults, hasIndex, hasDatabase) then faults + {IndexRebuild} else faults - {IndexRebuild}
  }

  const TornNote := Note([], [])

  /** The rows of a rebuild: records whose note is missing or invalid are skipped. */
  function RowsOf(rules: Rules, notes: map<Path, Note>, records: seq<Record>): seq<Row>
    decreases |records|
  {
    if records == [] then []
    else
      var r := records[0];
      (if r.source in notes && ValidNote(rules, notes[r.source]) then [Row(r, notes[r.source])] else [])
      + RowsOf(rules, notes, records[1..])
  }

  /** What gets indexed: row by row, in order, a record whose note is there with all its fields, nothing
      sensitive and a known status, with that note's text; no other record. */
  lemma {:induction false} IndexedAre(
      rules: Rules, notes: map<Path, Note>, a: seq<Record>, b: seq<Record>, r: Record)
    ensures RowsOf(rules, notes, a + b) == RowsOf(rules, notes, a) + RowsOf(rules, notes, b)
    ensures RowsOf(rules, notes, []) == []
    ensures RowsOf(rules, notes, [r]) ==
            if && r.source in notes
               && var note := notes[r.source];
                  && Meta(note.front, "id") != "" && Meta(note.front, "change_id") != ""
                  && Meta(note.front, "status") in {"episodic", "canonical"}
                  && Meta(note.front, "created_at") != "" && Meta(note.front, "summary") != ""
                  && !rules.sensitiveNote(note)
            then [Row(r, notes[r.source])] else []
    decreases |a|
  {
    assert [r][1..] == [];
    if a == [] {
      assert a + b == b;
    } else {
      assert (a + b)[1..] == a[1..] + b;
      IndexedAre(rules, notes, a[1..], b, r);
      var source := a[0].source;
      Regroup(if source in notes && ValidNote(rules, notes[source]) then [Row(a[0], notes[source])] else [],
              RowsOf(rules, notes, a[1..]), RowsOf(rules, notes, b));
    }
  }

  // ---- the points a promotion passes through --------------------------------------------------------

  /** Ledger and notes before, with the target torn, with the target written, with the ledger replaced,
      with the source gone, and rolled back. */
  ghost function Waypoints(core: Core, p: Plan, evidence: string): set<Core>
    requires p.Plan? && p.at < |p.records| && Safe(p.records[p.at].source)
  {
    var source := p.records[p.at].source;
    { core,
      core.(notes := core.notes[Target(source) := TornNote]),
      core.(notes := core.notes[Target(source) := p.text]),
      Forward(core, p, evidence),
      Forward(core, p, evidence).(notes := Forward(core, p, evidence).notes - {source}),
      core.(ledger := Some(p.records)) }
  }

  /** The roll-back unlinks the target before it restores the ledger. */
  ghost function Gap(core: Core, p: Plan, evidence: string): Core
    requires p.Plan? && p.at < |p.records| && Safe(p.records[p.at].source)
  {
    Core(Some(PromotedRecords(p, evidence)), core.notes)
  }

  lemma SpareNotesAreHarmless(rules: Rules, core: Core, path: Path, note: Note)
    requires Consistent(rules, core) && path !in core.notes
    ensures Consistent(rules, core.(notes := core.notes[path := note]))
  {
    if core.ledger.Some? {
      assert forall r :: r in core.ledger.value ==> Backed(core, r);
    }
  }

  /** Ledger and notes agree at a point of a promotion if and only if the ledger is still the old one, or the
      evidence does not tear its line and the note's deciding status line is the one that changes. In the
      gap, while the ledger already names the target and the target is gone, they never do. */
  lemma {:induction false} ConsistentExceptInTheGap(
      rules: Rules, core: Core, id: string, evidence: string, faults: set<Point>, point: Core)
    requires Consistent(rules, core)
    requires Prepare(rules, core, id, evidence, faults).Plan?
    ensures
      var p := Prepare(rules, core, id, evidence, faults);
      var takes := !TearsLine(evidence) && StatusLineIsFirst(core.notes[p.records[p.at].source]);
      && (point in Waypoints(core, p, evidence) ==>
            (Consistent(rules, point) <==> point.ledger == core.ledger || takes))
      && !Consistent(rules, Gap(core, p, evidence))
  {
    var p := Prepare(rules, core, id, evidence, faults);
    ConsistentIsFiled(rules, core);
    PlansArePlanned(rules, core, id, evidence, faults);
    GapDisagrees(rules, core, p, evidence);
    if point in Waypoints(core, p, evidence) { WaypointsAgreeIff(rules, core, p, evidence, point); }
  }

  lemma GapDisagrees(rules: Rules, core: Core, p: Plan, evidence: string)
    requires Planned(core, p)
    ensures !Consistent(rules, Gap(core, p, evidence))
  {
    var promoted := PromotedRecords(p, evidence)[p.at];
    assert promoted in PromotedRecords(p, evidence) && !Backed(Gap(core, p, evidence), promoted);
  }

  lemma WaypointsAgreeIff(rules: Rules, core: Core, p: Plan, evidence: string, point: Core)
    requires Consistent(rules, core) && Planned(core, p) && point in Waypoints(core, p, evidence)
    ensures
      Consistent(rules, point) <==>
        || point.ledger == core.ledger
        || (!TearsLine(evidence) && StatusLineIsFirst(core.notes[p.records[p.at].source]))
  {
    var r := p.records[p.at];
    if point.ledger == core.ledger {
      SpareNotesAreHarmless(rules, core, Target(r.source), TornNote);
      SpareNotesAreHarmless(rules, core, Target(r.source), p.text);
      LedgersDiffer(p, evidence);
    } else {
      CommitKeepsIff(rules, core, p, evidence, true);
      CommitKeepsIff(rules, core, p, evidence, false);
    }
  }

  lemma LedgersDiffer(p: Plan, evidence: string)
    requires p.Plan? && p.at < |p.records| && Safe(p.records[p.at].source) && p.records[p.at].status == EPISODIC
    ensures PromotedRecords(p, evidence) != p.records
  {
    assert PromotedRecords(p, evidence)[p.at].status != p.records[p.at].status;
  }

  /** `retain` read as its steps. */
  lemma RetainInSteps(rules: Rules, core: Core, source: Path, faults: set<Point>,
                      indexFaults: set<IndexPoint>, hasIndex: bool, hasDatabase: bool)
    ensures
      var result := Retain(rules, core, source, Overall(faults, indexFaults, hasIndex, hasDatabase));
      if !Retainable(rules, core, source) then result == (core, Refused)
      else if Load(rules, core).None? then result == (core, Raised)
      else
        var records := Load(rules, core).value;
        var id := RecordOf(core.notes[source], source).id;
        if exists r | r in records :: r.id == id && r.status == CANONICAL then result == (core, Refused)
        else if !(faults !! LedgerPoints) then result == (core, Raised)
        else
          var after := Retained(rules, core, source);
          var indexed := Load(rules, after).Some? && !IndexFails(indexFaults, hasIndex, hasDatabase);
          result == (after, if indexed then Done(false) else Raised)
  {
  }

  /** Writing the retained ledger keeps it consistent if and only if it changes nothing or the name is plain. */
  lemma RetainedIsConsistentIff(rules: Rules, core: Core, source: Path)
    requires Retainable(rules, core, source) && Load(rules, core).Some?
    requires
      var id := RecordOf(core.notes[source], source).id;
      !exists r | r in Load(rules, core).value :: r.id == id && r.status == CANONICAL
    ensures
      var after := Retained(rules, core, source);
      Consistent(rules, core) ==> (Consistent(rules, after) <==> after == core || !TearsPath(source))
  {
    if Consistent(rules, core) {
      RetainKeeps(rules, core, source, {});
      RetainInSteps(rules, core, source, {}, {}, false, false);
    }
  }

  /** `promote` read as its steps: prepare, go forward, then unlink the source or roll back. */
  lemma PromoteInSteps(rules: Rules, core: Core, id: string, evidence: string, faults: set<Point>,
                       indexFaults: set<IndexPoint>, hasIndex: bool, hasDatabase: bool)
    ensures
      var overall := Overall(faults, indexFaults, hasIndex, hasDatabase);
      var p := Prepare(rules, core, id, evidence, faults);
      var result := Promote(rules, core, id, evidence, overall);
      if p.NoPlan? then result == (core, p.outcome)
      else
        var after := Forward(core, p, evidence);
        var replaced := TargetOpen !in faults && TargetWrite !in faults && faults !! LedgerPoints;
        if Commits(rules, after, overall) then
          result == if SourceUnlink in faults then (after, Done(true))
                    else (after.(notes := after.notes - {p.records[p.at].source}), Done(false))
        else
          var kept := if replaced then after.ledger else core.ledger;
          result == (Core(if faults !! RollbackPoints then Some(p.records) else kept, core.notes),
                     if faults !! RollbackPoints then Failed else RollbackFailed)
  {
  }

  lemma ForwardSucceeds(rules: Rules, core: Core, p: Plan, evidence: string, faults: set<Point>,
                        indexFaults: set<IndexPoint>, hasIndex: bool, hasDatabase: bool)
    requires p.Plan? && p.at < |p.records| && Safe(p.records[p.at].source)
    ensures
      var after := Forward(core, p, evidence);
      Commits(rules, after, Overall(faults, indexFaults, hasIndex, hasDatabase)) <==>
        && TargetOpen !in faults && TargetWrite !in faults && faults !! LedgerPoints
        && Load(rules, after).Some? && !IndexFails(indexFaults, hasIndex, hasDatabase)
  {
  }

  lemma {:induction false} NotDoneIsNothing(rules: Rules, core: Core, id: string, evidence: string, faults: set<Point>)
    requires Filed(core) && faults !! RollbackPoints
    requires !Promote(rules, core, id, evidence, faults).1.Done?
    ensures Promote(rules, core, id, evidence, faults).0 == core
  {
    PromoteIsAllOrNothing(rules, core, id, evidence, faults);
    PlansArePlanned(rules, core, id, evidence, faults);
  }

  class Store {
    const rules: Rules
    var ledger: Option<seq<Record>>
    var notes: map<Path, Note>
    var index: Option<seq<Row>>
    var database: Option<seq<Row>>
    var scratch: map<Scratch, Contents>

    /** Ledger and notes after every system call that changed a file. */
    ghost var trail: seq<Core>

    function State(): Core
      reads this
    {
      Core(ledger, notes)
    }

    /** No temporary or backup file of a rebuild is lying about. */
    predicate Tidy()
      reads this
    {
      IndexTemp !in scratch && DatabaseTemp !in scratch && IndexBackup !in scratch && DatabaseBackup !in scratch
    }

    constructor (rules: Rules)
      ensures this.rules == rules && State() == Fresh
      ensures index.None? && database.None? && scratch == map[] && trail == []
    {
      this.rules := rules;
      ledger, notes, index, database, scratch, trail := None, map[], None, None, map[], [];
    }

    /** `load_ledger`: the loop over the ledger's lines. A line that does not parse raises at once. */
    method LoadLedger() returns (loaded: Option<seq<Record>>)
      ensures loaded == Load(rules, State())
    {
      if ledger.None? {
        return Some([]);
      }
      var lines, records := ledger.value, [];
      for k := 0 to |lines|
        invariant forall j :: 0 <= j < k ==> Readable(lines[j])
        invariant records == SafeOnes(lines[..k])
      {
        if !Readable(lines[k]) {
          return None;
        }
        SafeOnesGoByRecord(lines[..k], [lines[k]], lines[k]);
        assert lines[..k] + [lines[k]] == lines[..k + 1];
        if Safe(lines[k].source) {
          records := records + [lines[k]];
        }
      }
      assert lines[..|lines|] == lines;
      loaded := Some(records);
    }

    /** The loop of `_rebuild` over the loaded records. */
    method CollectRows(records: seq<Record>) returns (rows: seq<Row>)
      ensures rows == RowsOf(rules, notes, records)
    {
      rows := [];
      for k := 0 to |records|
        invariant rows + RowsOf(rules, notes, records[k..]) == RowsOf(rules, notes, records)
      {
        assert records[k..][1..] == records[k + 1..];
        var source := records[k].source;
        if source !in notes || !ValidNote(rules, notes[source]) {
          continue;
        }
        rows := rows + [Row(records[k], notes[source])];
      }
    }

    /** The first half of `promote`: everything it checks before it writes. */
    method MakePlan(id: string, evidence: string, faults: set<Point>) returns (p: Plan)
      ensures p == Prepare(rules, State(), id, evidence, faults)
    {
      if rules.blank(evidence) || rules.sensitive(evidence) {
        return NoPlan(Refused);
      }
      var loaded := LoadLedger();
      if loaded.None? {
        return NoPlan(Raised);
      }
      var at := 0;
      while at < |loaded.value| && loaded.value[at].id != id
        invariant at <= IndexOf(loaded.value, id)
      {
        at := at + 1;
      }
      if at == |loaded.value| {
        return NoPlan(Refused);
      }
      var record := loaded.value[at];
      if record.status != EPISODIC || !Safe(record.source) {
        return NoPlan(Refused);
      }
      if CanonicalMkdir in faults || Target(record.source) in notes {
        return NoPlan(Refused);
      }
      if record.source !in notes || SourceRead in faults {
        return NoPlan(Raised);
      }
      var text := PromotedText(notes[record.source]);
      p := if text.None? then NoPlan(Refused) else Plan(loaded.value, at, text.value);
    }

    /** Write a temporary file, then rename it over the ledger. A failure after the file is created
        leaves it behind. `tag` is the name the system picked, so it is not in use. */
    method WriteLedger(records: seq<Record>, tag: nat, faults: set<Point>, rollback: bool) returns (ok: bool)
      requires LedgerTemp(tag) !in scratch
      modifies this`ledger, this`scratch, this`trail
      ensures ok <==> faults !! (if rollback then RollbackPoints else LedgerPoints)
      ensures ok <==>
                if rollback
                then RollbackTempOpen !in faults && RollbackTempWrite !in faults && RollbackReplace !in faults
                else LedgerTempOpen !in faults && LedgerTempWrite !in faults && LedgerReplace !in faults
      ensures ledger == if ok then Some(records) else old(ledger)
      ensures old(trail) <= trail
      ensures forall k :: |old(trail)| <= k < |trail| ==> trail[k] == old(State()) || (ok && trail[k] == State())
      ensures ok ==> old(trail) < trail && trail[|trail| - 1] == State()
      ensures scratch - {LedgerTemp(tag)} == old(scratch)
      ensures LedgerTemp(tag) in scratch <==>
                (if rollback then RollbackTempOpen else LedgerTempOpen) !in faults && !ok
    {
      if (if rollback then RollbackTempOpen else LedgerTempOpen) in faults {
        return false;
      }
      scratch := scratch[LedgerTemp(tag) := Torn];
      trail := trail + [State()];
      if (if rollback then RollbackTempWrite else LedgerTempWrite) in faults {
        return false;
      }
      scratch := scratch[LedgerTemp(tag) := Lines(records)];
      if (if rollback then RollbackReplace else LedgerReplace) in faults {
        return false;
      }
      ledger, scratch := Some(records), scratch - {LedgerTemp(tag)};
      trail := trail + [State()];
      ok := true;
    }

    /** Build both index files under temporary names. */
    method StageIndex(rows: seq<Row>, faults: set<IndexPoint>) returns (ok: bool)
      requires Tidy()
      modifies this`scratch
      ensures ok <==> faults !! {IndexTempOpen, IndexTempWrite, DatabaseOpen, DatabaseFill}
      ensures scratch - {IndexTemp, DatabaseTemp} == old(scratch)
      ensures ok ==> scratch == old(scratch)[IndexTemp := Rows(rows)][DatabaseTemp := Rows(rows)]
    {
      if IndexTempOpen in faults {
        return false;
      }
      scratch := scratch[IndexTemp := Torn];
      if IndexTempWrite in faults {
        return false;
      }
      scratch := scratch[IndexTemp := Rows(rows)];
      if DatabaseOpen in faults {
        return false;
      }
      scratch := scratch[DatabaseTemp := Torn];
      if DatabaseFill in faults {
        return false;
      }
      scratch := scratch[DatabaseTemp := Rows(rows)];
      ok := true;
    }

    /** Move both old outputs aside, then both new ones into place. `backups` and `published` are the
        lists the failure path works from. */
    method SwapIndex(rows: seq<Row>, faults: set<IndexPoint>)
      returns (ok: bool, backups: set<Scratch>, published: set<Scratch>)
      requires IndexTemp in scratch && DatabaseTemp in scratch && IndexBackup !in scratch && DatabaseBackup !in scratch
      requires scratch[IndexTemp] == Rows(rows) && scratch[DatabaseTemp] == Rows(rows)
      modifies this`scratch, this`index, this`database
      ensures ok <==> !SwapFails(faults, old(index).Some?, old(database).Some?)
      ensures ok <==>
                && !(BackUpIndex in faults && old(index).Some?) && !(BackUpDatabase in faults && old(database).Some?)
                && PublishIndex !in faults && PublishDatabase !in faults
      ensures ok ==> index == Some(rows) && database == Some(rows)
      ensures backups <= {IndexBackup, DatabaseBackup} && published <= {IndexTemp, DatabaseTemp}
      ensures scratch - {IndexTemp, DatabaseTemp, IndexBackup, DatabaseBackup}
           == old(scratch) - {IndexTemp, DatabaseTemp}
      ensures IndexBackup in scratch <==> IndexBackup in backups
      ensures DatabaseBackup in scratch <==> DatabaseBackup in backups
      // Each output is where the lists say it is.
      ensures IndexBackup in backups ==> old(index).Some? && scratch[IndexBackup] == Rows(old(index).value)
      ensures DatabaseBackup in backups ==> old(database).Some? && scratch[DatabaseBackup] == Rows(old(database).value)
      ensures IndexTemp !in published ==> index == if IndexBackup in backups then None else old(index)
      ensures DatabaseTemp !in published ==> database == if DatabaseBackup in backups then None else old(database)
      ensures IndexTemp in published && IndexBackup !in backups ==> old(index).None?
      ensures DatabaseTemp in published && DatabaseBackup !in backups ==> old(database).None?
    {
      backups, published := {}, {};
      if index.Some? {
        if BackUpIndex in faults {
          return false, backups, published;
        }
        scratch, index, backups := scratch[IndexBackup := Rows(index.value)], None, backups + {IndexBackup};
      }
      if database.Some? {
        if BackUpDatabase in faults {
          return false, backups, published;
        }
        scratch, database, backups := scratch[DatabaseBackup := Rows(database.value)], None, backups + {DatabaseBackup};
      }
      if PublishIndex in faults {
        return false, backups, published;
      }
      scratch, index, published := scratch - {IndexTemp}, Some(rows), published + {IndexTemp};
      if PublishDatabase in faults {
        return false, backups, published;
      }
      scratch, database, published := scratch - {DatabaseTemp}, Some(rows), published + {DatabaseTemp};
      ok := true;
    }

    /** `_rebuild`: both index files are published, or both are as they were; no temporary or backup file
        is left either way. */
    method Rebuild(faults: set<IndexPoint>) returns (ok: bool)
      requires Tidy()
      modifies this`scratch, this`index, this`database
      ensures Tidy() && scratch == old(scratch)
      ensures ok <==> Load(rules, State()).Some? && !IndexFails(faults, old(index).Some?, old(database).Some?)
      ensures ok <==>
                && Load(rules, State()).Some?
                && IndexTempOpen !in faults && IndexTempWrite !in faults
                && DatabaseOpen !in faults && DatabaseFill !in faults
                && !(BackUpIndex in faults && old(index).Some?) && !(BackUpDatabase in faults && old(database).Some?)
                && PublishIndex !in faults && PublishDatabase !in faults
      ensures ok ==> index == Some(RowsOf(rules, notes, Load(rules, State()).value)) && database == index
      ensures !ok ==> index == old(index) && database == old(database)
    {
      var loaded := LoadLedger();
      if loaded.None? {
        return false;
      }
      var rows := CollectRows(loaded.value);
      var backups, published := {}, {};
      ok := StageIndex(rows, faults);
      if ok {
        ok, backups, published := SwapIndex(rows, faults);
      }
      if !ok {
        if IndexTemp in published {
          index := None;
        }
        if DatabaseTemp in published {
          database := None;
        }
        if IndexBackup in backups {
          index := Some(scratch[IndexBackup].rows);
        }
        if DatabaseBackup in backups {
          database := Some(scratch[DatabaseBackup].rows);
        }
      }
      scratch := scratch - {IndexTemp, DatabaseTemp, IndexBackup, DatabaseBackup};
    }

    /** `retain` under the ledger's lock. A failed rebuild is not rolled back: the ledger has the record
        and the index does not. Every intermediate point keeps ledger and notes consistent, if and only if
        nothing was written or the note's name does not tear its line. */
    method RetainNote(source: Path, tag: nat, faults: set<Point>, indexFaults: set<IndexPoint>)
      returns (outcome: Outcome)
      requires Tidy() && LedgerTemp(tag) !in scratch
      modifies this
      ensures
        var overall := Overall(faults, indexFaults, old(index).Some?, old(database).Some?);
        (State(), outcome) == Retain(rules, old(State()), source, overall)
      ensures Tidy() && scratch - {LedgerTemp(tag)} == old(scratch)
      ensures !outcome.Done? ==> index == old(index) && database == old(database)
      ensures outcome.Done? ==> IndexedFor(State())
      ensures old(trail) <= trail
      ensures Consistent(rules, old(State())) ==>
                ((forall k :: |old(trail)| <= k < |trail| ==> Consistent(rules, trail[k]))
                 <==> State() == old(State()) || !TearsPath(source))
    {
      ghost var before := State();
      RetainInSteps(rules, before, source, faults, indexFaults, index.Some?, database.Some?);
      if !Retainable(rules, State(), source) {
        return Refused;
      }
      var record := RecordOf(notes[source], source);
      var loaded := LoadLedger();
      if loaded.None? {
        return Raised;
      }
      if exists r | r in loaded.value :: r.id == record.id && r.status == CANONICAL {
        return Refused;
      }
      var kept := WithoutId(loaded.value, record.id);
      RetainedIsConsistentIff(rules, before, source);
      var ok := WriteLedger(kept + [record], tag, faults, false);
      if !ok {
        return Raised;
      }
      ok := Rebuild(indexFaults);
      outcome := if ok then Done(false) else Raised;
    }

    /** The list comprehension over the loaded records. */
    method WithoutId(records: seq<Record>, id: string) returns (kept: seq<Record>)
      ensures kept == Without(records, id)
    {
      kept := [];
      for k := 0 to |records|
        invariant kept == Without(records[..k], id)
      {
        WithoutGoesByRecord(records[..k], [records[k]], records[k], id);
        assert records[..k] + [records[k]] == records[..k + 1];
        if records[k].id != id {
          kept := kept + [records[k]];
        }
      }
      assert records[..|records|] == records;
    }

    /** Both index files hold the rows of this ledger and these notes. */
    predicate IndexedFor(core: Core)
      reads this
    {
      && Load(rules, core).Some?
      && index == Some(RowsOf(rules, core.notes, Load(rules, core).value)) && database == index
    }

    /** The body of the `try`: target, ledger, index. */
    method GoForward(p: Plan, evidence: string, tag: nat, faults: set<Point>, indexFaults: set<IndexPoint>)
      returns (ok: bool, replaced: bool)
      requires Tidy() && LedgerTemp(tag) !in scratch
      requires p.Plan? && p.at < |p.records| && Safe(p.records[p.at].source) && Target(p.records[p.at].source) !in notes
      modifies this
      ensures
        var overall := Overall(faults, indexFaults, old(index).Some?, old(database).Some?);
        ok <==> Commits(rules, Forward(old(State()), p, evidence), overall)
      ensures replaced <==> TargetOpen !in faults && TargetWrite !in faults && faults !! LedgerPoints
      ensures ok ==> State() == Forward(old(State()), p, evidence)
      ensures ledger == if replaced then Some(PromotedRecords(p, evidence)) else old(ledger)
      ensures notes - {Target(p.records[p.at].source)} == old(notes)
      ensures if ok then IndexedFor(State()) else index == old(index) && database == old(database)
      ensures Tidy() && scratch - {LedgerTemp(tag)} == old(scratch)
      ensures faults !! {LedgerTempWrite, LedgerReplace} ==> scratch == old(scratch)
      ensures old(trail) <= trail
      ensures forall k :: |old(trail)| <= k < |trail| ==> trail[k] in Waypoints(old(State()), p, evidence)
    {
      ghost var before := State();
      ForwardSucceeds(rules, before, p, evidence, faults, indexFaults, index.Some?, database.Some?);
      ok := WriteTarget(p, faults);
      if !ok {
        return false, false;
      }
      ok := WriteLedger(PromotedRecords(p, evidence), tag, faults, false);
      replaced := ok;
      if ok {
        assert State() == Forward(before, p, evidence);
        ok := Rebuild(indexFaults);
      }
    }

    /** The promoted note is written under its canonical name. */
    method WriteTarget(p: Plan, faults: set<Point>) returns (ok: bool)
      requires p.Plan? && p.at < |p.records| && Safe(p.records[p.at].source) && Target(p.records[p.at].source) !in notes
      modifies this`notes, this`trail
      ensures ok <==> TargetOpen !in faults && TargetWrite !in faults
      ensures notes - {Target(p.records[p.at].source)} == old(notes)
      ensures ok ==> notes == old(notes)[Target(p.records[p.at].source) := p.text]
      ensures old(trail) <= trail
      ensures forall k :: |old(trail)| <= k < |trail| ==>
                || trail[k] == old(State()).(notes := old(notes)[Target(p.records[p.at].source) := TornNote])
                || trail[k] == old(State()).(notes := old(notes)[Target(p.records[p.at].source) := p.text])
    {
      var target := Target(p.records[p.at].source);
      if TargetOpen in faults {
        return false;
      }
      notes := notes[target := TornNote];
      trail := trail + [State()];
      if TargetWrite in faults {
        return false;
      }
      notes := notes[target := p.text];
      assert notes == old(notes)[target := p.text];
      trail := trail + [State()];
      ok := true;
    }

    /** The failure path: the target is unlinked first, then the ledger is rewritten as it was loaded. */
    method RollBack(p: Plan, tag: nat, faults: set<Point>) returns (restored: bool)
      requires Tidy() && LedgerTemp(tag) !in scratch
      requires p.Plan? && p.at < |p.records| && Safe(p.records[p.at].source)
      modifies this`ledger, this`notes, this`scratch, this`trail
      ensures restored <==> faults !! RollbackPoints
      ensures notes == old(notes) - {Target(p.records[p.at].source)}
      ensures ledger == if restored then Some(p.records) else old(ledger)
      ensures Tidy() && scratch - {LedgerTemp(tag)} == old(scratch)
      ensures faults !! {RollbackTempWrite, RollbackReplace} ==> scratch == old(scratch)
      ensures old(trail) < trail && trail[|old(trail)|] == Core(old(ledger), notes)
      ensures forall k :: |old(trail)| <= k < |trail| ==>
                trail[k] in {Core(old(ledger), notes), Core(Some(p.records), notes)}
    {
      notes := notes - {Target(p.records[p.at].source)};
      trail := trail + [State()];
      restored := WriteLedger(p.records, tag, faults, true);
    }

    /** What `promote` does once it has its plan. */
    method Carry(p: Plan, evidence: string, tag: nat, tag': nat, faults: set<Point>, indexFaults: set<IndexPoint>)
      returns (outcome: Outcome, replaced: bool)
      requires Tidy() && LedgerTemp(tag) !in scratch && LedgerTemp(tag') !in scratch && tag != tag'
      requires p.Plan? && p.at < |p.records| && Safe(p.records[p.at].source) && Target(p.records[p.at].source) !in notes
      modifies this
      ensures
        var after := Forward(old(State()), p, evidence);
        if Commits(rules, after, Overall(faults, indexFaults, old(index).Some?, old(database).Some?)) then
          && outcome == Done(SourceUnlink in faults) && IndexedFor(after)
          && ledger == after.ledger
          && notes == if SourceUnlink in faults then after.notes else after.notes - {p.records[p.at].source}
        else
          && outcome == (if faults !! RollbackPoints then Failed else RollbackFailed)
          && index == old(index) && database == old(database) && notes == old(notes)
          && var kept := if replaced then after.ledger else old(ledger);
             ledger == if faults !! RollbackPoints then Some(p.records) else kept
      ensures replaced <==> TargetOpen !in faults && TargetWrite !in faults && faults !! LedgerPoints
      ensures Tidy() && scratch - {LedgerTemp(tag), LedgerTemp(tag')} == old(scratch)
      ensures faults !! {LedgerTempWrite, LedgerReplace, RollbackTempWrite, RollbackReplace} ==> scratch == old(scratch)
      ensures old(trail) <= trail
      ensures forall k :: |old(trail)| <= k < |trail| ==>
                trail[k] in Waypoints(old(State()), p, evidence)
                  || (replaced && !outcome.Done? && trail[k] == Gap(old(State()), p, evidence))
      ensures replaced && !outcome.Done? ==> Gap(old(State()), p, evidence) in trail[|old(trail)|..]
    {
      ghost var before, count := State(), |trail|;
      var ok;
      ok, replaced := GoForward(p, evidence, tag, faults, indexFaults);
      if !ok {
        ghost var gap := |trail|;
        var restored := RollBack(p, tag', faults);
        assert notes == before.notes;
        assert trail[gap] == trail[count..][gap - count];
        return if restored then Failed else RollbackFailed, replaced;
      }
      if SourceUnlink in faults {
        return Done(true), replaced;
      }
      notes := notes - {p.records[p.at].source};
      trail := trail + [State()];
      outcome := Done(false);
    }

    /** `promote` under the ledger's lock. When it does not happen, the index files are as they were and
        ledger and notes are what MemoryLedger.Promote says; the only trace is a temporary ledger file
        when writing or renaming it failed. The points it passes through are the way points, and the gap
        exactly when it rolls back after replacing the ledger. */
    method PromoteRecord(id: string, evidence: string, tag: nat, tag': nat,
                         faults: set<Point>, indexFaults: set<IndexPoint>)
      returns (outcome: Outcome, replaced: bool)
      requires Tidy() && LedgerTemp(tag) !in scratch && LedgerTemp(tag') !in scratch && tag != tag'
      modifies this
      ensures
        var overall := Overall(faults, indexFaults, old(index).Some?, old(database).Some?);
        (State(), outcome) == Promote(rules, old(State()), id, evidence, overall)
      ensures Tidy() && scratch - {LedgerTemp(tag), LedgerTemp(tag')} == old(scratch)
      ensures faults !! {LedgerTempWrite, LedgerReplace, RollbackTempWrite, RollbackReplace} ==> scratch == old(scratch)
      ensures !outcome.Done? ==> index == old(index) && database == old(database)
      ensures !outcome.Done? && faults !! RollbackPoints && Filed(old(State())) ==> State() == old(State())
      ensures old(trail) <= trail
      ensures
        var p := Prepare(rules, old(State()), id, evidence, faults);
        if p.NoPlan? then trail == old(trail) && !replaced
        else
          && (outcome.Done? ==> IndexedFor(Forward(old(State()), p, evidence)))
          && (forall k :: |old(trail)| <= k < |trail| ==>
                trail[k] in Waypoints(old(State()), p, evidence)
                  || (replaced && !outcome.Done? && trail[k] == Gap(old(State()), p, evidence)))
          && (replaced && !outcome.Done? ==> Gap(old(State()), p, evidence) in trail[|old(trail)|..])
    {
      var p := MakePlan(id, evidence, faults);
      PromoteInSteps(rules, State(), id, evidence, faults, indexFaults, index.Some?, database.Some?);
      ghost var overall := Overall(faults, indexFaults, index.Some?, database.Some?);
      ghost var done := Promote(rules, State(), id, evidence, overall).1.Done?;
      if Filed(State()) && faults !! RollbackPoints && !done {
        NotDoneIsNothing(rules, State(), id, evidence, overall);
      }
      if p.NoPlan? {
        return p.outcome, false;
      }
      outcome, replaced := Carry(p, evidence, tag, tag', faults, indexFaults);
    }
  }
}

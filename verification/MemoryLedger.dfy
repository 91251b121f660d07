/** The episodic memory's ledger and notes: what `retain` and `promote` do to them, with a failure
    possible at every system call. The two index files are module MemoryStore's. */
module MemoryLedger {
  import opened Prelude

  // ---- notes ----------------------------------------------------------------------------------------

  /** A line of a note, as the parser and the substitution in `promote` see it. A field line has a key and a
      value that is not empty; quotes around the value are stripped, and `plain` says that the line has
      neither quotes nor an indent. A bare line is a flush `key:` with nothing behind it. The text of any
      other line is trimmed. */
  datatype Line = Field(key: string, value: string, plain: bool) | Bare(key: string) | Blank | Other(text: string)

  datatype Note = Note(front: seq<Line>, body: seq<Line>)

  const EPISODIC := "episodic"
  const CANONICAL := "canonical"

  predicate Sets(line: Line, key: string) { line.Field? && line.key == key }

  predicate AnySets(lines: seq<Line>, key: string) { exists k | 0 <= k < |lines| :: Sets(lines[k], key) }

  /** The frontmatter's value for a key: the last field line that sets it. */
  function Meta(front: seq<Line>, key: string): string
    decreases |front|
  {
    if front == [] then ""
    else
      var last := front[|front| - 1];
      if Sets(last, key) then last.value else Meta(front[..|front| - 1], key)
  }

  predicate MarksEpisodic(line: Line) {
    Sets(line, "status") && line.value == EPISODIC && line.plain
  }

  /** How many blank lines `lines` starts with. */
  function Blanks(lines: seq<Line>): (n: nat)
    ensures n <= |lines|
    decreases |lines|
  {
    if lines == [] || !lines[0].Blank? then 0 else 1 + Blanks(lines[1..])
  }

  /** How many lines the pattern `^status:\s*episodic\s*$` spans from the first one on, 0 when it does not
      match there. Its white space runs over line ends, so a bare `status:` matches together with a later
      line that says only `episodic`. */
  function Matched(lines: seq<Line>): (n: nat)
    ensures n <= |lines|
  {
    if lines == [] then 0
    else if MarksEpisodic(lines[0]) then 1
    else if lines[0] == Bare("status") then
      var n := 1 + Blanks(lines[1..]);
      if n < |lines| && lines[n] == Other(EPISODIC) then n + 1 else 0
    else 0
  }

  const Promoted := Field("status", CANONICAL, true)

  /** The substitution changes the first match of the text, wherever that is, and takes the blank lines
      behind it along. */
  function Substitute(lines: seq<Line>): Option<seq<Line>>
    decreases |lines|
  {
    if lines == [] then None
    else if Matched(lines) > 0 then Some([Promoted] + AfterMatch(lines, 0))
    else
      match Substitute(lines[1..])
      case None => None
      case Some(rest) => Some([lines[0]] + rest)
  }

  /** What stays behind a match at line i. */
  function AfterMatch(lines: seq<Line>, i: nat): seq<Line>
    requires i <= |lines|
  {
    var rest := lines[i + Matched(lines[i..])..];
    rest[Blanks(rest)..]
  }

  function PromotedText(note: Note): Option<Note> {
    match Substitute(note.front)
    case Some(front) => Some(Note(front, note.body))
    case None =>
      match Substitute(note.body)
      case Some(body) => Some(Note(note.front, body))
      case None => None
  }

  predicate FirstMatchAt(lines: seq<Line>, i: nat) {
    && i < |lines| && Matched(lines[i..]) > 0
    && forall k :: 0 <= k < i ==> Matched(lines[k..]) == 0
  }

  /** The first match of the text is in the frontmatter, and no line behind it sets the status. */
  predicate StatusLineIsFirst(note: Note) {
    exists i: nat | i < |note.front| :: FirstMatchAt(note.front, i) && !AnySets(AfterMatch(note.front, i), "status")
  }

  lemma MatchWithoutTheFirstLine(lines: seq<Line>, i: nat)
    requires 0 < i && FirstMatchAt(lines, i)
    ensures Matched(lines) == 0
    ensures FirstMatchAt(lines[1..], i - 1) && AfterMatch(lines[1..], i - 1) == AfterMatch(lines, i)
  {
    assert lines[0..] == lines;
    assert forall k :: 0 <= k < i ==> lines[1..][k..] == lines[k + 1..];
    var n := Matched(lines[i..]);
    assert lines[1..][i - 1 + n..] == lines[i + n..];
  }

  lemma {:induction false} SubstituteAt(lines: seq<Line>, i: nat)
    requires FirstMatchAt(lines, i)
    ensures Substitute(lines) == Some(lines[..i] + [Promoted] + AfterMatch(lines, i))
    decreases i
  {
    if i == 0 {
      SubstituteHere(lines);
    } else {
      MatchWithoutTheFirstLine(lines, i);
      SubstituteAt(lines[1..], i - 1);
      SubstituteLater(lines, i, AfterMatch(lines, i));
    }
  }

  lemma SubstituteHere(lines: seq<Line>)
    requires FirstMatchAt(lines, 0)
    ensures Substitute(lines) == Some(lines[..0] + [Promoted] + AfterMatch(lines, 0))
  {
    assert lines[0..] == lines;
    assert lines[..0] + [Promoted] == [Promoted];
  }

  lemma SubstituteLater(lines: seq<Line>, i: nat, rest: seq<Line>)
    requires 0 < i < |lines| && Matched(lines) == 0
    requires Substitute(lines[1..]) == Some(lines[1..][..i - 1] + [Promoted] + rest)
    ensures Substitute(lines) == Some(lines[..i] + [Promoted] + rest)
  {
    Prefixed(lines, i, [Promoted], rest);
  }

  lemma Prefixed(lines: seq<Line>, i: nat, b: seq<Line>, c: seq<Line>)
    requires 0 < i < |lines|
    ensures [lines[0]] + (lines[1..][..i - 1] + b + c) == lines[..i] + b + c
  {
  }

  lemma {:induction false} SubstituteFails(lines: seq<Line>)
    ensures Substitute(lines).None? <==> forall k :: 0 <= k < |lines| ==> Matched(lines[k..]) == 0
    decreases |lines|
  {
    if lines != [] {
      assert lines[0..] == lines;
      SubstituteFails(lines[1..]);
      assert forall k :: 0 <= k < |lines| - 1 ==> lines[1..][k..] == lines[k + 1..];
      assert forall k :: 1 <= k < |lines| ==> lines[k..] == lines[1..][k - 1..];
    }
  }

  lemma FirstMatch(lines: seq<Line>) returns (i: nat)
    requires Substitute(lines).Some?
    ensures FirstMatchAt(lines, i)
  {
    SubstituteFails(lines);
    i := 0;
    while Matched(lines[i..]) == 0
      invariant i < |lines|
      invariant exists k :: i <= k < |lines| && Matched(lines[k..]) != 0
      invariant forall k :: 0 <= k < i ==> Matched(lines[k..]) == 0
      decreases |lines| - i
    {
      i := i + 1;
    }
  }

  /** The last setter decides, wherever a text is cut in two. */
  lemma {:induction false} MetaAppend(a: seq<Line>, b: seq<Line>, key: string)
    ensures Meta(a + b, key) == if AnySets(b, key) then Meta(b, key) else Meta(a, key)
    decreases |b|
  {
    if b == [] {
      assert a + b == a;
    } else {
      var n := |b| - 1;
      assert (a + b)[..|a| + n] == a + b[..n];
      MetaAppend(a, b[..n], key);
      assert AnySets(b, key) <==> AnySets(b[..n], key) || Sets(b[n], key) by {
        if AnySets(b[..n], key) {
          var k :| 0 <= k < n && Sets(b[..n][k], key);
          assert Sets(b[k], key);
        }
        if AnySets(b, key) && !Sets(b[n], key) {
          var k :| 0 <= k < |b| && Sets(b[k], key);
          assert Sets(b[..n][k], key);
        }
      }
    }
  }

  lemma {:induction false} BlanksAreBlank(lines: seq<Line>)
    ensures forall k :: 0 <= k < Blanks(lines) ==> lines[k].Blank?
    decreases |lines|
  {
    if lines != [] && lines[0].Blank? {
      BlanksAreBlank(lines[1..]);
      assert forall k :: 1 <= k < Blanks(lines) ==> lines[k] == lines[1..][k - 1];
    }
  }

  /** What the substitution takes out sets nothing but the status. */
  lemma TakenOutSetsOnlyStatus(lines: seq<Line>, i: nat) returns (gap: seq<Line>)
    requires FirstMatchAt(lines, i)
    ensures lines == lines[..i] + (gap + AfterMatch(lines, i))
    ensures forall k :: 0 <= k < |gap| && gap[k].Field? ==> gap[k].key == "status"
  {
    var tail := lines[i..];
    var n := Matched(tail);
    var rest := lines[i + n..];
    gap := tail[..n] + rest[..Blanks(rest)];
    assert tail[n..] == rest;
    Reassemble(lines, i, tail[..n], rest, Blanks(rest));
    MatchSetsOnlyStatus(tail);
    BlanksAreBlank(rest);
  }

  lemma Reassemble(lines: seq<Line>, i: nat, matched: seq<Line>, rest: seq<Line>, blanks: nat)
    requires i <= |lines| && lines[i..] == matched + rest && blanks <= |rest|
    ensures lines == lines[..i] + ((matched + rest[..blanks]) + rest[blanks..])
  {
  }

  lemma MatchSetsOnlyStatus(lines: seq<Line>)
    ensures forall k :: 0 <= k < Matched(lines) && lines[k].Field? ==> lines[k].key == "status"
  {
    if lines != [] && !MarksEpisodic(lines[0]) {
      BlanksAreBlank(lines[1..]);
      assert forall k :: 1 <= k <= Blanks(lines[1..]) ==> lines[k] == lines[1..][k - 1];
    }
  }

  lemma MetaAroundAMatch(lines: seq<Line>, i: nat, key: string)
    requires FirstMatchAt(lines, i)
    ensures
      var rest := AfterMatch(lines, i);
      var after := lines[..i] + [Promoted] + rest;
      && (AnySets(rest, key) ==> Meta(lines, key) == Meta(rest, key) && Meta(after, key) == Meta(rest, key))
      && (!AnySets(rest, key) ==>
            if key == "status" then Meta(after, key) == CANONICAL else Meta(after, key) == Meta(lines, key))
  {
    var rest := AfterMatch(lines, i);
    var gap := TakenOutSetsOnlyStatus(lines, i);
    assert lines[..i] + (gap + rest) == (lines[..i] + gap) + rest;
    MetaAppend(lines[..i] + gap, rest, key);
    MetaAppend(lines[..i], gap, key);
    MetaAppend(lines[..i] + [Promoted], rest, key);
    MetaAppend(lines[..i], [Promoted], key);
    assert Meta([Promoted], key) == if key == "status" then CANONICAL else "" by {
      assert [Promoted][..0] == [];
    }
    if key == "status" { assert Sets([Promoted][0], key); }
  }

  /** What the pattern matches: a flush, plain `status: episodic` line; or a bare `status:` line, any number of
      blank ones, and a line that says only `episodic`. `n` is how many lines the match spans. */
  lemma {:induction false} MatchedIff(lines: seq<Line>, n: nat)
    requires n > 0
    ensures Matched(lines) == n <==>
      || (n == 1 && lines != [] && lines[0] == Field("status", "episodic", true))
      || (2 <= n <= |lines| && lines[0] == Bare("status") && lines[n - 1] == Other("episodic")
          && forall k :: 1 <= k < n - 1 ==> lines[k] == Blank)
  {
    if lines != [] && lines[0] == Bare("status") {
      BlanksIff(lines[1..]);
      assert forall k :: 1 <= k < |lines| ==> lines[k] == lines[1..][k - 1];
    }
  }

  lemma {:induction false} BlanksIff(lines: seq<Line>)
    ensures forall k :: 0 <= k < Blanks(lines) ==> lines[k] == Blank
    ensures Blanks(lines) < |lines| ==> lines[Blanks(lines)] != Blank
    decreases |lines|
  {
    if lines != [] && lines[0].Blank? {
      BlanksIff(lines[1..]);
      assert forall k :: 1 <= k < |lines| ==> lines[k] == lines[1..][k - 1];
    }
  }

  /** What stays behind a match is the rest of the text without the blank lines that follow it. */
  lemma AfterMatchIs(lines: seq<Line>, i: nat, n: nat)
    requires FirstMatchAt(lines, i) && n == Matched(lines[i..])
    ensures exists blanks: seq<Line> ::
              && lines[i + n..] == blanks + AfterMatch(lines, i) && (forall line :: line in blanks ==> line == Blank)
              && (AfterMatch(lines, i) != [] ==> AfterMatch(lines, i)[0] != Blank)
  {
    var rest := lines[i + n..];
    BlanksIff(rest);
    assert rest == rest[..Blanks(rest)] + AfterMatch(lines, i);
  }

  /** `after` is the text with its first match, wherever that is, replaced by one plain canonical line; what is
      before it and the other part of the note are untouched. */
  ghost predicate Substituted(before: Note, after: Note) {
    if exists i: nat :: FirstMatchAt(before.front, i) then
      && after.body == before.body
      && exists i: nat :: FirstMatchAt(before.front, i) && after.front == Rewritten(before.front, i)
    else
      && after.front == before.front
      && exists i: nat :: FirstMatchAt(before.body, i) && after.body == Rewritten(before.body, i)
  }

  function Rewritten(lines: seq<Line>, i: nat): seq<Line>
    requires i <= |lines|
  {
    lines[..i] + [Field("status", "canonical", true)] + AfterMatch(lines, i)
  }

  /** The substitution rewrites the first match of the whole text and nothing else; it fails exactly when there
      is no match. */
  lemma {:induction false} PromotedTextIs(note: Note)
    ensures PromotedText(note).Some? ==> Substituted(note, PromotedText(note).value)
    ensures PromotedText(note).None? <==>
      (forall i: nat :: !FirstMatchAt(note.front, i)) && (forall i: nat :: !FirstMatchAt(note.body, i))
  {
    SubstituteIs(note.front);
    SubstituteIs(note.body);
  }

  lemma SubstituteIs(lines: seq<Line>)
    ensures Substitute(lines).None? <==> forall i: nat :: !FirstMatchAt(lines, i)
    ensures Substitute(lines).Some? ==>
              exists i: nat :: FirstMatchAt(lines, i) && Substitute(lines).value == Rewritten(lines, i)
  {
    SubstituteFails(lines);
    if Substitute(lines).Some? {
      var i := FirstMatch(lines);
      SubstituteAt(lines, i);
      assert Substitute(lines).value == Rewritten(lines, i);
    }
  }

  /** Promotion keeps every other field, and leaves the note canonical if and only if no line behind the
      one it changes decides the status. */
  lemma {:induction false} PromotionTakesIffStatusLineIsFirst(note: Note)
    requires Meta(note.front, "status") == EPISODIC && PromotedText(note).Some?
    ensures
      var after := PromotedText(note).value;
      && (Meta(after.front, "status") == CANONICAL <==> StatusLineIsFirst(note))
      && (forall key :: key != "status" ==> Meta(after.front, key) == Meta(note.front, key))
  {
    if Substitute(note.front).Some? {
      var i := FirstMatch(note.front);
      SubstituteAt(note.front, i);
      forall key {
        MetaAroundAMatch(note.front, i, key);
      }
      assert forall j: nat :: j < |note.front| && FirstMatchAt(note.front, j) ==> i <= j <= i;
    } else {
      SubstituteFails(note.front);
    }
  }

  /** A note whose quoted status is followed by the plain line in its body is promoted in the ledger and
      stays episodic in its file. */
  lemma AQuotedStatusStaysEpisodic()
    ensures
      var note := Note([Field("status", EPISODIC, false)], [Field("status", EPISODIC, true)]);
      && Meta(note.front, "status") == EPISODIC
      && PromotedText(note).Some?
      && Meta(PromotedText(note).value.front, "status") == EPISODIC
  {
    var front, body := [Field("status", EPISODIC, false)], [Field("status", EPISODIC, true)];
    assert front[0..] == front && body[0..] == body;
    SubstituteFails(front);
    SubstituteAt(body, 0);
    assert Meta(front, "status") == EPISODIC;
  }

  // ---- the ledger -----------------------------------------------------------------------------------

  /** Where a record says its note is. Absolute paths and paths that leave the two directories are all
      `Outside`. */
  datatype Path =
    | Episodes(dir: string, name: string)
    | Canonicals(dir: string, name: string)
    | Outside(path: string)

  predicate Safe(p: Path) { !p.Outside? }

  datatype Record = Record(
    id: string, changeId: string, status: string, summary: string, createdAt: string,
    source: Path, evidence: Option<string>)

  /** The durable part: the ledger's lines, and the notes. */
  datatype Core = Core(ledger: Option<seq<Record>>, notes: map<Path, Note>)

  /** The text rules, as parameters: `blank` evidence, and text that must not be stored. */
  datatype Rules = Rules(
    blank: string -> bool,
    sensitive: string -> bool,
    sensitiveNote: Note -> bool)

  /** A character at which Python splits lines and which JSON leaves as it is. A record that holds one is
      written on several lines, the first of which does not parse. */
  predicate TearsLine(text: string) {
    exists k | 0 <= k < |text| :: text[k] in {'\U{0085}', '\U{2028}', '\U{2029}'}
  }

  predicate TearsPath(p: Path) {
    match p
    case Episodes(dir, name) => TearsLine(dir) || TearsLine(name)
    case Canonicals(dir, name) => TearsLine(dir) || TearsLine(name)
    case Outside(path) => TearsLine(path)
  }

  /** The record's line can be read back. Its other fields are values of single frontmatter lines. */
  predicate Readable(r: Record) {
    !TearsPath(r.source) && (r.evidence.Some? ==> !TearsLine(r.evidence.value))
  }

  /** `load_ledger`: a line that does not parse raises, an unsafe source is skipped. */
  function Load(rules: Rules, core: Core): Option<seq<Record>> {
    if core.ledger.None? then Some([])
    else if exists r | r in core.ledger.value :: !Readable(r) then None
    else Some(SafeOnes(core.ledger.value))
  }

  function SafeOnes(records: seq<Record>): seq<Record>
    decreases |records|
  {
    if records == [] then []
    else (if Safe(records[0].source) then [records[0]] else []) + SafeOnes(records[1..])
  }

  function Without(records: seq<Record>, id: string): seq<Record>
    decreases |records|
  {
    if records == [] then []
    else (if records[0].id == id then [] else [records[0]]) + Without(records[1..], id)
  }

  /** The first record with this id; |records| when there is none. */
  function IndexOf(records: seq<Record>, id: string): (i: nat)
    ensures i <= |records|
    ensures i < |records| ==> records[i].id == id
    ensures forall k :: 0 <= k < i ==> records[k].id != id
    decreases |records|
  {
    if records == [] || records[0].id == id then 0 else 1 + IndexOf(records[1..], id)
  }

  predicate ValidNote(rules: Rules, note: Note) {
    && Meta(note.front, "id") != "" && Meta(note.front, "change_id") != "" && Meta(note.front, "status") != ""
    && Meta(note.front, "created_at") != "" && Meta(note.front, "summary") != ""
    && !rules.sensitiveNote(note)
    && Meta(note.front, "status") in {EPISODIC, CANONICAL}
  }

  // ---- failures -------------------------------------------------------------------------------------

  /** The system calls that can fail; `IndexRebuild` stands for those of `_rebuild`. The last three rewrite
      the ledger during a roll-back; the other clean-up calls of the source are taken to succeed. */
  datatype Point =
    | LedgerTempOpen | LedgerTempWrite | LedgerReplace
    | IndexRebuild
    | CanonicalMkdir | SourceRead | TargetOpen | TargetWrite | SourceUnlink
    | RollbackTempOpen | RollbackTempWrite | RollbackReplace

  const LedgerPoints := {LedgerTempOpen, LedgerTempWrite, LedgerReplace}
  const RollbackPoints := {RollbackTempOpen, RollbackTempWrite, RollbackReplace}

  datatype Outcome = Done(warned: bool) | Refused | Failed | RollbackFailed | Raised

  predicate RebuildWorks(rules: Rules, core: Core, faults: set<Point>) {
    Load(rules, core).Some? && IndexRebuild !in faults
  }

  // ---- retain and promote ---------------------------------------------------------------------------

  /** The record of a newly retained note. */
  function RecordOf(note: Note, source: Path): (r: Record)
    ensures r.id == Meta(note.front, "id") && r.changeId == Meta(note.front, "change_id")
    ensures r.summary == Meta(note.front, "summary") && r.createdAt == Meta(note.front, "created_at")
    ensures r.status == "episodic" && r.source == source && r.evidence.None?
  {
    Record(Meta(note.front, "id"), Meta(note.front, "change_id"), EPISODIC, Meta(note.front, "summary"),
           Meta(note.front, "created_at"), source, None)
  }

  predicate Retainable(rules: Rules, core: Core, source: Path) {
    && source.Episodes? && source in core.notes
    && ValidNote(rules, core.notes[source])
    && Meta(core.notes[source].front, "status") == EPISODIC
  }

  /** What `retain` does to ledger and notes. A rebuild that fails is not rolled back. */
  function Retain(rules: Rules, core: Core, source: Path, faults: set<Point>): (Core, Outcome) {
    if !Retainable(rules, core, source) then (core, Refused)
    else
      var record := RecordOf(core.notes[source], source);
      match Load(rules, core)
      case None => (core, Raised)
      case Some(records) =>
        if exists r | r in records :: r.id == record.id && r.status == CANONICAL then (core, Refused)
        else if !(faults !! LedgerPoints) then (core, Raised)
        else
          var after := core.(ledger := Some(Without(records, record.id) + [record]));
          (after, if RebuildWorks(rules, after, faults) then Done(false) else Raised)
  }

  function Target(source: Path): Path
    requires Safe(source)
  {
    Canonicals("", source.name)
  }

  /** What `promote` has to find before it touches anything: the record's place in the loaded ledger and
      the text of the canonical note. */
  datatype Plan = Plan(records: seq<Record>, at: nat, text: Note) | NoPlan(outcome: Outcome)

  function Prepare(rules: Rules, core: Core, id: string, evidence: string, faults: set<Point>): (p: Plan)
    ensures p.Plan? ==> p.at < |p.records| && p.records[p.at].id == id && Safe(p.records[p.at].source)
    ensures p.Plan? ==> Load(rules, core) == Some(p.records)
    ensures p.Plan? ==> p.records[p.at].source in core.notes && Target(p.records[p.at].source) !in core.notes
  {
    if rules.blank(evidence) || rules.sensitive(evidence) then NoPlan(Refused)
    else
      match Load(rules, core)
      case None => NoPlan(Raised)
      case Some(records) =>
        var at := IndexOf(records, id);
        if at == |records| || records[at].status != EPISODIC || !Safe(records[at].source) then NoPlan(Refused)
        else if CanonicalMkdir in faults || Target(records[at].source) in core.notes then NoPlan(Refused)
        else if records[at].source !in core.notes || SourceRead in faults then NoPlan(Raised)
        else
          match PromotedText(core.notes[records[at].source])
          case None => NoPlan(Refused)
          case Some(text) => Plan(records, at, text)
  }

  /** The ledger with the record at `at` promoted. */
  function PromotedRecords(p: Plan, evidence: string): seq<Record>
    requires p.Plan? && p.at < |p.records| && Safe(p.records[p.at].source)
  {
    var r := p.records[p.at];
    p.records[p.at := r.(status := CANONICAL, evidence := Some(evidence), source := Target(r.source))]
  }

  /** The forward path worked: target written, ledger replaced, both index files rebuilt. */
  predicate Commits(rules: Rules, after: Core, faults: set<Point>) {
    TargetOpen !in faults && TargetWrite !in faults && faults !! LedgerPoints && RebuildWorks(rules, after, faults)
  }

  /** Ledger and notes with target and ledger in place, the source still there. */
  function Forward(core: Core, p: Plan, evidence: string): Core
    requires p.Plan? && p.at < |p.records| && Safe(p.records[p.at].source)
  {
    Core(Some(PromotedRecords(p, evidence)), core.notes[Target(p.records[p.at].source) := p.text])
  }

  /** What `promote` does to ledger and notes. */
  function Promote(rules: Rules, core: Core, id: string, evidence: string, faults: set<Point>): (Core, Outcome) {
    var p := Prepare(rules, core, id, evidence, faults);
    if p.NoPlan? then (core, p.outcome)
    else
      var after := Forward(core, p, evidence);
      if Commits(rules, after, faults) then
        if SourceUnlink in faults then (after, Done(true))
        else (after.(notes := after.notes - {p.records[p.at].source}), Done(false))
      else if faults !! RollbackPoints then (core.(ledger := Some(p.records)), Failed)
      else
        // The target is gone; the ledger stays as the forward path left it.
        var replaced := TargetOpen !in faults && TargetWrite !in faults && faults !! LedgerPoints;
        (if replaced then core.(ledger := after.ledger) else core, RollbackFailed)
  }

  // ---- what every run keeps -------------------------------------------------------------------------

  ghost predicate UniqueIds(records: seq<Record>) {
    forall i, j :: 0 <= i < j < |records| ==> records[i].id != records[j].id
  }

  ghost predicate UniqueSources(records: seq<Record>) {
    forall i, j :: 0 <= i < j < |records| ==> records[i].source != records[j].source
  }

  /** A record and its note agree. */
  ghost predicate Backed(core: Core, r: Record) {
    && r.source in core.notes
    && Meta(core.notes[r.source].front, "id") == r.id
    && (r.status == EPISODIC ==> r.source.Episodes?)
    && (r.status == CANONICAL ==> r.source.Canonicals?)
    && r.status in {EPISODIC, CANONICAL}
    && Meta(core.notes[r.source].front, "status") == r.status
  }

  ghost predicate Consistent(rules: Rules, core: Core) {
    core.ledger.Some? ==>
      var records := core.ledger.value;
      && UniqueIds(records) && UniqueSources(records)
      && (forall r :: r in records ==> Safe(r.source) && Readable(r) && Backed(core, r))
  }

  /** Episodic records name episodes and canonical ones canonical notes; there are no others. */
  predicate Kinded(r: Record) {
    (r.status == EPISODIC && r.source.Episodes?) || (r.status == CANONICAL && r.source.Canonicals?)
  }

  /** What no event can break: unique ids, and sources that loading never skips. */
  ghost predicate Filed(core: Core) {
    core.ledger.Some? ==> UniqueIds(core.ledger.value) && forall r :: r in core.ledger.value ==> Kinded(r)
  }

  lemma ConsistentIsFiled(rules: Rules, core: Core)
    requires Consistent(rules, core)
    ensures Filed(core)
  {
    if core.ledger.Some? {
      assert forall r :: r in core.ledger.value ==> Backed(core, r);
    }
  }

  /** Loading such a ledger gives all of it or raises. */
  lemma {:induction false} LoadsAllOrNothing(rules: Rules, core: Core)
    requires Filed(core)
    ensures Load(rules, core).Some? ==>
              Load(rules, core) == Some(if core.ledger.Some? then core.ledger.value else [])
  {
    if core.ledger.Some? {
      SafeOnesKeepsAll(core.ledger.value);
    }
  }

  /** Episodic notes that the substitution matches at all are changed where their status is decided. */
  ghost predicate WellWritten(core: Core) {
    forall p :: p in core.notes && p.Episodes? ==> StatusFollows(core.notes[p])
  }

  predicate StatusFollows(note: Note) {
    Meta(note.front, "status") == EPISODIC && PromotedText(note).Some? ==> StatusLineIsFirst(note)
  }

  lemma {:induction false} SafeOnesKeepsAll(records: seq<Record>)
    requires forall r :: r in records ==> Safe(r.source)
    ensures SafeOnes(records) == records
    decreases |records|
  {
    if records != [] {
      SafeOnesKeepsAll(records[1..]);
    }
  }

  lemma {:induction false} SafeOnesAreMembers(records: seq<Record>)
    ensures forall r :: r in SafeOnes(records) <==> r in records && Safe(r.source)
    decreases |records|
  {
    if records != [] {
      SafeOnesAreMembers(records[1..]);
      assert records == [records[0]] + records[1..];
    }
  }

  /** `load_ledger` returns every record a consistent ledger holds. */
  lemma {:induction false} LoadDropsNothing(rules: Rules, core: Core)
    requires Consistent(rules, core)
    ensures Load(rules, core) == Some(if core.ledger.Some? then core.ledger.value else [])
  {
    if core.ledger.Some? {
      SafeOnesKeepsAll(core.ledger.value);
    }
  }

  lemma PrependUniqueIds(head: Record, tail: seq<Record>)
    ensures UniqueIds([head] + tail) <==> UniqueIds(tail) && forall r :: r in tail ==> r.id != head.id
  {
    var all := [head] + tail;
    if UniqueIds(all) {
      forall i, j | 0 <= i < j < |tail| ensures tail[i].id != tail[j].id {
        assert all[i + 1].id != all[j + 1].id;
      }
      forall r | r in tail ensures r.id != head.id {
        var i :| 0 <= i < |tail| && tail[i] == r;
        assert all[0].id != all[i + 1].id;
      }
    }
    if UniqueIds(tail) && forall r :: r in tail ==> r.id != head.id {
      forall i, j | 0 <= i < j < |all| ensures all[i].id != all[j].id {
        assert all[j] == tail[j - 1];
        assert i == 0 || all[i] == tail[i - 1];
      }
    }
  }

  lemma PrependUniqueSources(head: Record, tail: seq<Record>)
    ensures UniqueSources([head] + tail) <==> UniqueSources(tail) && forall r :: r in tail ==> r.source != head.source
  {
    var all := [head] + tail;
    if UniqueSources(all) {
      forall i, j | 0 <= i < j < |tail| ensures tail[i].source != tail[j].source {
        assert all[i + 1].source != all[j + 1].source;
      }
      forall r | r in tail ensures r.source != head.source {
        var i :| 0 <= i < |tail| && tail[i] == r;
        assert all[0].source != all[i + 1].source;
      }
    }
    if UniqueSources(tail) && forall r :: r in tail ==> r.source != head.source {
      forall i, j | 0 <= i < j < |all| ensures all[i].source != all[j].source {
        assert all[j] == tail[j - 1];
        assert i == 0 || all[i] == tail[i - 1];
      }
    }
  }

  lemma {:induction false} WithoutMembers(records: seq<Record>, id: string)
    ensures forall r :: r in Without(records, id) <==> r in records && r.id != id
    decreases |records|
  {
    if records != [] {
      WithoutMembers(records[1..], id);
      assert records == [records[0]] + records[1..];
    }
  }

  lemma {:induction false} WithoutKeepsIds(records: seq<Record>, id: string)
    requires UniqueIds(records)
    ensures UniqueIds(Without(records, id))
    decreases |records|
  {
    if records != [] {
      assert records == [records[0]] + records[1..];
      PrependUniqueIds(records[0], records[1..]);
      WithoutKeepsIds(records[1..], id);
      WithoutMembers(records[1..], id);
      PrependUniqueIds(records[0], Without(records[1..], id));
    }
  }

  lemma {:induction false} WithoutKeepsSources(records: seq<Record>, id: string)
    requires UniqueSources(records)
    ensures UniqueSources(Without(records, id))
    decreases |records|
  {
    if records != [] {
      assert records == [records[0]] + records[1..];
      PrependUniqueSources(records[0], records[1..]);
      WithoutKeepsSources(records[1..], id);
      WithoutMembers(records[1..], id);
      PrependUniqueSources(records[0], Without(records[1..], id));
    }
  }

  lemma AppendUniqueId(records: seq<Record>, last: Record)
    requires UniqueIds(records) && forall r :: r in records ==> r.id != last.id
    ensures UniqueIds(records + [last])
  {
  }

  lemma AppendUniqueSource(records: seq<Record>, last: Record)
    requires UniqueSources(records) && forall r :: r in records ==> r.source != last.source
    ensures UniqueSources(records + [last])
  {
  }

  /** What a retain writes, past its refusals: the other records and the new one. */
  function Retained(rules: Rules, core: Core, source: Path): Core
    requires source in core.notes && Load(rules, core).Some?
  {
    var record := RecordOf(core.notes[source], source);
    core.(ledger := Some(Without(Load(rules, core).value, record.id) + [record]))
  }

  lemma {:induction false} RetainedLoadsIff(rules: Rules, core: Core, source: Path)
    requires source in core.notes && Load(rules, core).Some?
    ensures Load(rules, Retained(rules, core, source)).Some? <==> !TearsPath(source)
  {
    var record := RecordOf(core.notes[source], source);
    var loaded := Load(rules, core).value;
    var written := Retained(rules, core, source).ledger.value;
    WithoutMembers(loaded, record.id);
    if core.ledger.Some? { SafeOnesAreMembers(core.ledger.value); }
    assert forall r :: r in loaded ==> Readable(r);
    assert record in written && (Readable(record) <==> !TearsPath(source));
    assert forall r :: r in written && r != record ==> r in loaded;
  }

  /** Every note that `retain` does not refuse is written, whatever its name; and the ledger it leaves can
      be loaded again if and only if that name does not tear its line. */
  lemma {:induction false} RetainLoadsIffTheNameIsPlain(rules: Rules, core: Core, source: Path, faults: set<Point>)
    requires Load(rules, core).Some?
    requires Retain(rules, core, source, faults).1 != Refused && faults !! LedgerPoints
    ensures
      var (after, outcome) := Retain(rules, core, source, faults);
      && after == Retained(rules, core, source)
      && source.Episodes?
      && (Load(rules, after).Some? <==> PlainText(source.dir) && PlainText(source.name))
      && (outcome.Done? <==> PlainText(source.dir) && PlainText(source.name) && IndexRebuild !in faults)
  {
    RetainedLoadsIff(rules, core, source);
  }

  /** None of the characters at which Python splits lines and which JSON leaves as they are. */
  predicate PlainText(text: string) {
    '\U{0085}' !in text && '\U{2028}' !in text && '\U{2029}' !in text
  }

  /** Every retain's outcome and effect. It refuses what is no valid, episodic note under episodes/, and an id
      that is canonical already; past that, what it writes is every other loaded record, in order, and one
      that holds the note's own fields, each under its own name. */
  lemma {:induction false} RetainDoes(rules: Rules, core: Core, source: Path, faults: set<Point>)
    ensures
      var (after, outcome) := Retain(rules, core, source, faults);
      var loaded := Load(rules, core);
      if !Valid(rules, core, source) then after == core && outcome == Refused
      else if loaded.None? then after == core && outcome == Raised
      else
        var record := RecordOf(core.notes[source], source);
        if exists r | r in loaded.value :: r.id == record.id && r.status == "canonical" then
          after == core && outcome == Refused
        else if LedgerTempOpen in faults || LedgerTempWrite in faults || LedgerReplace in faults then
          after == core && outcome == Raised
        else
          && after.notes == core.notes
          && after.ledger == Some(Without(loaded.value, record.id) + [record])
          && (outcome == Raised || outcome == Done(false))
  {
  }

  /** A note that `retain` takes: under episodes/, all five fields there, nothing sensitive, status episodic. */
  predicate Valid(rules: Rules, core: Core, source: Path) {
    && source.Episodes? && source in core.notes
    && var note := core.notes[source];
       && Meta(note.front, "id") != "" && Meta(note.front, "change_id") != "" && Meta(note.front, "created_at") != ""
       && Meta(note.front, "summary") != "" && Meta(note.front, "status") == "episodic"
       && !rules.sensitiveNote(note)
  }

  /** Leaving out an id goes record by record, and keeps the order. */
  lemma {:induction false} WithoutGoesByRecord(a: seq<Record>, b: seq<Record>, r: Record, id: string)
    ensures Without(a + b, id) == Without(a, id) + Without(b, id)
    ensures Without([r], id) == if r.id == id then [] else [r]
    ensures Without([], id) == []
    decreases |a|
  {
    assert [r][1..] == [];
    if a == [] {
      assert a + b == b;
    } else {
      assert (a + b)[1..] == a[1..] + b;
      WithoutGoesByRecord(a[1..], b, r, id);
      Regroup(if a[0].id == id then [] else [a[0]], Without(a[1..], id), Without(b, id));
    }
  }

  /** So does skipping unsafe sources. */
  lemma {:induction false} SafeOnesGoByRecord(a: seq<Record>, b: seq<Record>, r: Record)
    ensures SafeOnes(a + b) == SafeOnes(a) + SafeOnes(b)
    ensures SafeOnes([r]) == if r.source.Outside? then [] else [r]
    ensures SafeOnes([]) == []
    decreases |a|
  {
    assert [r][1..] == [];
    if a == [] {
      assert a + b == b;
    } else {
      assert (a + b)[1..] == a[1..] + b;
      SafeOnesGoByRecord(a[1..], b, r);
      Regroup(if Safe(a[0].source) then [a[0]] else [], SafeOnes(a[1..]), SafeOnes(b));
    }
  }

  /** A ledger that cannot be loaded stays as it is, whatever is retained or promoted. */
  lemma {:induction false} ATornLedgerIsStuck(rules: Rules, core: Core, es: seq<Event>)
    requires Load(rules, core).None?
    ensures Run(rules, core, es).ledger == core.ledger && Load(rules, Run(rules, core, es)).None?
    decreases |es|
  {
    if es != [] {
      assert Step(rules, core, es[0]).ledger == core.ledger;
      ATornLedgerIsStuck(rules, Step(rules, core, es[0]), es[1..]);
    }
  }

  /** A valid note with a next-line, line or paragraph separator in its directory or name is retained, and
      from then on nothing can be loaded, retained or promoted. */
  lemma {:induction false} ATornNameStopsTheLedger(
      rules: Rules, note: Note, dir: string, name: string, k: nat, es: seq<Event>)
    requires ValidNote(rules, note) && Meta(note.front, "status") == EPISODIC
    requires k < |dir + name| && (dir + name)[k] in {'\U{0085}', '\U{2028}', '\U{2029}'}
    ensures
      var path := Episodes(dir, name);
      var (after, outcome) := Retain(rules, Core(None, map[path := note]), path, {});
      && outcome == Raised
      && Load(rules, Run(rules, after, es)).None?
      && Run(rules, after, es).ledger == Some([RecordOf(note, path)])
  {
    var path := Episodes(dir, name);
    var core := Core(None, map[path := note]);
    assert TearsLine(dir) || TearsLine(name) by {
      if k < |dir| { assert dir[k] == (dir + name)[k]; } else { assert name[k - |dir|] == (dir + name)[k]; }
    }
    var record := RecordOf(note, path);
    assert Without([], record.id) + [record] == [record];
    assert core.notes[path] == note;
    RetainedLoadsIff(rules, core, path);
    ATornLedgerIsStuck(rules, Retained(rules, core, path), es);
  }

  /** The name U+2028 in the middle of an ordinary one will do. */
  lemma ATornName(rules: Rules, note: Note)
    requires ValidNote(rules, note) && Meta(note.front, "status") == EPISODIC
    ensures
      var path := Episodes("", "a\U{2028}b.md");
      Retain(rules, Core(None, map[path := note]), path, {}).1 == Raised
  {
    ATornNameStopsTheLedger(rules, note, "", "a\U{2028}b.md", 1, []);
  }

  /** Retaining keeps ledger and notes consistent, for any failures, if and only if it wrote nothing or the
      note's name does not tear its line. */
  lemma {:induction false} RetainKeeps(rules: Rules, core: Core, source: Path, faults: set<Point>)
    requires Consistent(rules, core)
    ensures
      var after := Retain(rules, core, source, faults).0;
      Consistent(rules, after) <==> after == core || !TearsPath(source)
  {
    LoadDropsNothing(rules, core);
    if Retainable(rules, core, source) && Retain(rules, core, source, faults).0 != core {
      if TearsPath(source) {
        RetainedLoadsIff(rules, core, source);
        if Consistent(rules, Retained(rules, core, source)) {
          LoadDropsNothing(rules, Retained(rules, core, source));
        }
      } else {
        RetainedKeeps(rules, core, source);
      }
    }
  }

  lemma {:induction false} RetainedKeeps(rules: Rules, core: Core, source: Path)
    requires Consistent(rules, core) && Retainable(rules, core, source) && !TearsPath(source)
    requires Load(rules, core).Some?
    requires forall r :: r in Load(rules, core).value && r.id == Meta(core.notes[source].front, "id") ==>
               r.status != CANONICAL
    ensures Consistent(rules, Retained(rules, core, source))
  {
    LoadDropsNothing(rules, core);
    var record := RecordOf(core.notes[source], source);
    var kept := Without(Load(rules, core).value, record.id);
    WithoutMembers(Load(rules, core).value, record.id);
    WithoutKeepsIds(Load(rules, core).value, record.id);
    WithoutKeepsSources(Load(rules, core).value, record.id);
    KeptAreBacked(rules, core, Load(rules, core).value, kept);
    AppendUniqueId(kept, record);
    AppendUniqueSource(kept, record);
    var after := Retained(rules, core, source);
    forall r | r in kept + [record]
      ensures Safe(r.source) && Readable(r) && Backed(after, r)
    {
      if r in kept { assert Backed(core, r); }
    }
  }

  lemma KeptAreBacked(rules: Rules, core: Core, records: seq<Record>, kept: seq<Record>)
    requires Consistent(rules, core) && records == if core.ledger.Some? then core.ledger.value else []
    requires forall r :: r in kept ==> r in records
    ensures forall r :: r in kept ==> Safe(r.source) && Readable(r) && Backed(core, r)
  {
  }

  /** A plan for the first record of a loadable ledger that a promotion found. */
  predicate Planned(core: Core, p: Plan) {
    && p.Plan? && p.at < |p.records| && core.ledger == Some(p.records)
    && var r := p.records[p.at];
       && r.status == EPISODIC && Safe(r.source) && r.source in core.notes && Target(r.source) !in core.notes
       && PromotedText(core.notes[r.source]) == Some(p.text)
  }

  lemma PlansArePlanned(rules: Rules, core: Core, id: string, evidence: string, faults: set<Point>)
    requires Filed(core)
    ensures var p := Prepare(rules, core, id, evidence, faults); p.Plan? ==> Planned(core, p)
  {
    LoadsAllOrNothing(rules, core);
  }

  /** The notes of a promotion, before and after its source is unlinked. */
  function NotesAfter(notes: map<Path, Note>, r: Record, text: Note, sourceStays: bool): map<Path, Note>
    requires Safe(r.source)
  {
    if sourceStays then notes[Target(r.source) := text] else notes[Target(r.source) := text] - {r.source}
  }

  /** Every record but the promoted one still has its note where it was. */
  lemma OthersStayBacked(core: Core, p: Plan, sourceStays: bool, r: Record)
    requires Planned(core, p)
    requires Backed(core, r) && r.source != p.records[p.at].source
    ensures Backed(core.(notes := NotesAfter(core.notes, p.records[p.at], p.text, sourceStays)), r)
    ensures r.source != Target(p.records[p.at].source)
  {
  }

  /** Ledger and notes agree once the ledger names the target, if and only if the evidence does not tear its
      line and the substitution has changed the line that decides the status. */
  lemma {:induction false} CommitKeepsIff(rules: Rules, core: Core, p: Plan, evidence: string, sourceStays: bool)
    requires Consistent(rules, core) && Planned(core, p)
    ensures
      var notes := NotesAfter(core.notes, p.records[p.at], p.text, sourceStays);
      Consistent(rules, Core(Some(PromotedRecords(p, evidence)), notes)) <==>
        !TearsLine(evidence) && StatusLineIsFirst(core.notes[p.records[p.at].source])
  {
    var r, after := p.records[p.at], PromotedRecords(p, evidence);
    var core' := Core(Some(after), NotesAfter(core.notes, r, p.text, sourceStays));
    PromotedIsBackedIff(core, p, evidence, sourceStays);
    assert after[p.at] in after;
    forall k | 0 <= k < |after| && k != p.at
      ensures Safe(after[k].source) && Readable(after[k]) && Backed(core', after[k])
      ensures after[k].source != after[p.at].source && after[k] == p.records[k]
    {
      assert p.records[k] in p.records;
      OthersStayBacked(core, p, sourceStays, p.records[k]);
    }
  }

  lemma PromotedIsBackedIff(core: Core, p: Plan, evidence: string, sourceStays: bool)
    requires Planned(core, p)
    requires Backed(core, p.records[p.at]) && Readable(p.records[p.at])
    ensures
      var r := PromotedRecords(p, evidence)[p.at];
      && Safe(r.source)
      && (Readable(r) <==> !TearsLine(evidence))
      && var notes := NotesAfter(core.notes, p.records[p.at], p.text, sourceStays);
         Backed(Core(Some(PromotedRecords(p, evidence)), notes), r) <==>
           StatusLineIsFirst(core.notes[p.records[p.at].source])
  {
    PromotionTakesIffStatusLineIsFirst(core.notes[p.records[p.at].source]);
  }

  /** The note of the record with this id has its first match where its status is decided. */
  predicate StatusWillChange(core: Core, id: string) {
    && core.ledger.Some?
    && var at := IndexOf(core.ledger.value, id);
       && at < |core.ledger.value| && core.ledger.value[at].source in core.notes
       && StatusLineIsFirst(core.notes[core.ledger.value[at].source])
  }

  /** A promotion whose roll-back, if any, succeeds keeps ledger and notes consistent if and only if it does
      not happen or the substitution changes the line that decides its note's status. */
  lemma {:induction false} PromoteKeeps(rules: Rules, core: Core, id: string, evidence: string, faults: set<Point>)
    requires Consistent(rules, core) && Promote(rules, core, id, evidence, faults).1 != RollbackFailed
    ensures
      var (after, outcome) := Promote(rules, core, id, evidence, faults);
      Consistent(rules, after) <==> !outcome.Done? || StatusWillChange(core, id)
  {
    ConsistentIsFiled(rules, core);
    PlansArePlanned(rules, core, id, evidence, faults);
    LoadDropsNothing(rules, core);
    if Promote(rules, core, id, evidence, faults).1.Done? {
      var p := PlanOf(rules, core, id, evidence, faults);
      if TearsLine(evidence) {
        TornEvidenceIsNotDone(rules, core, id, evidence, faults);
      }
      CommitKeepsIff(rules, core, p, evidence, SourceUnlink in faults);
    }
  }

  // ---- when a promotion is refused, and how it ends -------------------------------------------------------

  /** The first of `records` with this id. */
  predicate FirstWith(records: seq<Record>, id: string, at: nat) {
    at < |records| && records[at].id == id && forall k :: 0 <= k < at ==> records[k].id != id
  }

  /** What is refused, and what raises, before anything is written. */
  lemma {:induction false} PromoteRefuses(rules: Rules, core: Core, id: string, evidence: string, faults: set<Point>)
    ensures
      var result, loaded := Promote(rules, core, id, evidence, faults), Load(rules, core);
      && (rules.blank(evidence) || rules.sensitive(evidence) ==> result == (core, Refused))
      && (!rules.blank(evidence) && !rules.sensitive(evidence) ==>
            && (loaded.None? ==> result == (core, Raised))
            && (loaded.Some? && (forall r :: r in loaded.value ==> r.id != id) ==> result == (core, Refused))
            && (loaded.Some? ==> forall at: nat :: FirstWith(loaded.value, id, at) ==>
                  var r := loaded.value[at];
                  if r.status != "episodic" || r.source.Outside? || CanonicalMkdir in faults
                     || Canonicals("", r.source.name) in core.notes then result == (core, Refused)
                  else if r.source !in core.notes || SourceRead in faults then result == (core, Raised)
                  else PromotedText(core.notes[r.source]).None? ==> result == (core, Refused)))
  {
    if Load(rules, core).Some? {
      var records := Load(rules, core).value;
      assert forall at: nat :: FirstWith(records, id, at) ==> at == IndexOf(records, id);
      assert IndexOf(records, id) < |records| ==> records[IndexOf(records, id)] in records;
    }
  }

  lemma TearsIff(text: string)
    ensures TearsLine(text) <==> !PlainText(text)
  {
  }

  /** How a promotion ends that is past all that: it is done exactly when no call of its forward path fails and
      the evidence is plain, with a warning exactly when its source could not be unlinked; else it has failed,
      or its roll-back has. */
  lemma {:induction false} PromoteEnds(
      rules: Rules, core: Core, id: string, evidence: string, faults: set<Point>, at: nat)
    requires !rules.blank(evidence) && !rules.sensitive(evidence)
    requires Load(rules, core).Some? && FirstWith(Load(rules, core).value, id, at)
    requires
      var r := Load(rules, core).value[at];
      && r.status == "episodic" && !r.source.Outside? && CanonicalMkdir !in faults && SourceRead !in faults
      && Canonicals("", r.source.name) !in core.notes && r.source in core.notes
      && PromotedText(core.notes[r.source]).Some?
    ensures
      var outcome := Promote(rules, core, id, evidence, faults).1;
      if && TargetOpen !in faults && TargetWrite !in faults && LedgerTempOpen !in faults && LedgerTempWrite !in faults
         && LedgerReplace !in faults && IndexRebuild !in faults && PlainText(evidence)
      then outcome == Done(SourceUnlink in faults)
      else if RollbackTempOpen in faults || RollbackTempWrite in faults || RollbackReplace in faults
      then outcome == RollbackFailed
      else outcome == Failed
  {
    var p := Prepare(rules, core, id, evidence, faults);
    assert at == IndexOf(Load(rules, core).value, id);
    PromotedLoadsIff(rules, core, p, evidence);
    TearsIff(evidence);
  }

  lemma PromotedLoadsIff(rules: Rules, core: Core, p: Plan, evidence: string)
    requires p.Plan? && p.at < |p.records| && Safe(p.records[p.at].source) && Load(rules, core) == Some(p.records)
    ensures Load(rules, Forward(core, p, evidence)).Some? <==> !TearsLine(evidence)
  {
    var after := PromotedRecords(p, evidence);
    if core.ledger.Some? { SafeOnesAreMembers(core.ledger.value); }
    assert forall k :: 0 <= k < |after| && k != p.at ==> after[k] == p.records[k] && Readable(p.records[k]);
    assert p.records[p.at] in p.records && (Readable(after[p.at]) <==> !TearsLine(evidence));
    assert after[p.at] in after;
  }

  // ---- all or nothing -------------------------------------------------------------------------------

  lemma {:induction false} SafeOnesEqual(records: seq<Record>)
    ensures SafeOnes(records) == records <==> forall r :: r in records ==> Safe(r.source)
    decreases |records|
  {
    SafeOnesAreMembers(records);
    if forall r :: r in records ==> Safe(r.source) {
      SafeOnesKeepsAll(records);
    }
  }

  /** For any failures in the forward path, a promotion that does not happen leaves ledger and notes as
      they were, if and only if it stopped before writing or the ledger held no unsafe line: rolling back
      rewrites what was loaded, so unsafe lines are gone. */
  lemma {:induction false} PromoteIsAllOrNothing(
      rules: Rules, core: Core, id: string, evidence: string, faults: set<Point>)
    requires faults !! RollbackPoints
    ensures
      var (after, outcome) := Promote(rules, core, id, evidence, faults);
      && outcome != RollbackFailed
      && (!outcome.Done? ==>
            (after == core <==>
              outcome != Failed || (core.ledger.Some? && forall r :: r in core.ledger.value ==> Safe(r.source))))
      && (!outcome.Done? ==> after.notes == core.notes)
  {
    if core.ledger.Some? {
      SafeOnesEqual(core.ledger.value);
    }
  }

  /** What a promotion that happens does: the record moves to the canonical note, which is the promoted
      text of its source; every other record and note is untouched. */
  lemma {:induction false} PromoteDoes(rules: Rules, core: Core, id: string, evidence: string, faults: set<Point>)
    requires Filed(core)
    requires Promote(rules, core, id, evidence, faults).1.Done?
    ensures core.ledger.Some?
    ensures
      var after := Promote(rules, core, id, evidence, faults).0;
      var before := core.ledger.value;
      var at := IndexOf(before, id);
      && at < |before| && before[at].status == EPISODIC
      && after.ledger.Some? && |after.ledger.value| == |before|
      && (forall k :: 0 <= k < |before| && k != at ==> after.ledger.value[k] == before[k])
      && MovedTo(core.notes, after.notes, before[at], after.ledger.value[at], evidence)
      && (before[at].source in after.notes <==> SourceUnlink in faults)
  {
    LoadsAllOrNothing(rules, core);
    var p := PlanOf(rules, core, id, evidence, faults);
    assert core.ledger.Some?;
    var r := p.records[p.at];
    assert Kinded(r);
    PromotedTextIs(core.notes[r.source]);
    CommitMoves(core.notes, r, PromotedRecords(p, evidence)[p.at], p.text, evidence, SourceUnlink in faults);
  }

  /** A promotion that happens had a plan, and leaves what the forward path made of it. */
  lemma PlanOf(rules: Rules, core: Core, id: string, evidence: string, faults: set<Point>) returns (p: Plan)
    requires Promote(rules, core, id, evidence, faults).1.Done?
    ensures p.Plan? && p.at < |p.records| && Load(rules, core) == Some(p.records) && p.at == IndexOf(p.records, id)
    ensures
      var r := p.records[p.at];
      && r.status == EPISODIC && Safe(r.source) && r.source in core.notes && Target(r.source) !in core.notes
      && PromotedText(core.notes[r.source]) == Some(p.text)
      && Promote(rules, core, id, evidence, faults).0 ==
           Core(Some(PromotedRecords(p, evidence)), NotesAfter(core.notes, r, p.text, SourceUnlink in faults))
  {
    p := Prepare(rules, core, id, evidence, faults);
  }

  lemma CommitMoves(notes: map<Path, Note>, r: Record, r': Record, text: Note, evidence: string, sourceStays: bool)
    requires r.source.Episodes? && r.source in notes && Target(r.source) !in notes
    requires Substituted(notes[r.source], text)
    requires r' == r.(status := CANONICAL, evidence := Some(evidence), source := Target(r.source))
    ensures MovedTo(notes, NotesAfter(notes, r, text, sourceStays), r, r', evidence)
    ensures r.source in NotesAfter(notes, r, text, sourceStays) <==> sourceStays
  {
    var notes' := NotesAfter(notes, r, text, sourceStays);
    OtherNotesStay(notes, r, text, sourceStays);
    assert Substituted(notes[r.source], notes'[r'.source]);
  }

  lemma OtherNotesStay(notes: map<Path, Note>, r: Record, text: Note, sourceStays: bool)
    requires r.source.Episodes? && Target(r.source) !in notes
    ensures
      var notes' := NotesAfter(notes, r, text, sourceStays);
      && Target(r.source) in notes' && notes'[Target(r.source)] == text
      && (forall q :: q in notes && q != r.source ==> q in notes' && notes'[q] == notes[q])
      && (forall q :: q in notes' && q != Target(r.source) ==> q in notes)
      && (r.source in notes ==> (r.source in notes' <==> sourceStays))
  {
  }

  ghost predicate MovedTo(notes: map<Path, Note>, notes': map<Path, Note>, r: Record, r': Record, evidence: string) {
    && r' == r.(status := CANONICAL, evidence := Some(evidence), source := r'.source)
    && r.source.Episodes? && r'.source == Canonicals("", r.source.name)
    && r'.source !in notes && r'.source in notes'
    && r.source in notes && Substituted(notes[r.source], notes'[r'.source])
    && (forall q :: q in notes && q != r.source ==> q in notes' && notes'[q] == notes[q])
    && (forall q :: q in notes' && q != r'.source ==> q in notes)
  }

  lemma TornEvidenceIsNotDone(rules: Rules, core: Core, id: string, evidence: string, faults: set<Point>)
    requires TearsLine(evidence)
    ensures !Promote(rules, core, id, evidence, faults).1.Done?
  {
    var p := Prepare(rules, core, id, evidence, faults);
    if p.Plan? {
      assert !Readable(PromotedRecords(p, evidence)[p.at]);
    }
  }

  /** Evidence that would tear its ledger line never gets in: the rebuild cannot read the ledger back,
      and the promotion is rolled back. */
  lemma {:induction false} TornEvidenceIsRolledBack(
      rules: Rules, core: Core, id: string, evidence: string, faults: set<Point>)
    requires Filed(core) && TearsLine(evidence) && faults !! RollbackPoints
    ensures !Promote(rules, core, id, evidence, faults).1.Done?
    ensures Promote(rules, core, id, evidence, faults).0 == core
  {
    TornEvidenceIsNotDone(rules, core, id, evidence, faults);
    PlansArePlanned(rules, core, id, evidence, faults);
  }

  /** When the roll-back itself cannot rewrite the ledger, ledger and notes still agree if and only if
      the forward path had not replaced the ledger yet. */
  lemma {:induction false} FailedRollback(rules: Rules, core: Core, id: string, evidence: string, faults: set<Point>)
    requires Consistent(rules, core)
    requires Promote(rules, core, id, evidence, faults).1 == RollbackFailed
    ensures Consistent(rules, Promote(rules, core, id, evidence, faults).0)
            <==> TargetOpen in faults || TargetWrite in faults || !(faults !! LedgerPoints)
  {
    LoadDropsNothing(rules, core);
    var p := Prepare(rules, core, id, evidence, faults);
    var promoted := PromotedRecords(p, evidence)[p.at];
    assert promoted in PromotedRecords(p, evidence);
    assert promoted.source !in core.notes;
  }

  // ---- runs -----------------------------------------------------------------------------------------

  datatype Event =
    | WriteNote(path: Path, note: Note)      // an author adds a new episode
    | RetainNote(path: Path, faults: set<Point>)
    | PromoteRecord(id: string, evidence: string, faults: set<Point>)

  function Step(rules: Rules, core: Core, e: Event): Core {
    match e
    case WriteNote(path, note) =>
      if path.Episodes? && path !in core.notes then core.(notes := core.notes[path := note]) else core
    case RetainNote(path, faults) => Retain(rules, core, path, faults).0
    case PromoteRecord(id, evidence, faults) => Promote(rules, core, id, evidence, faults).0
  }

  function Run(rules: Rules, core: Core, es: seq<Event>): Core
    decreases |es|
  {
    if es == [] then core else Run(rules, Step(rules, core, es[0]), es[1..])
  }

  const Fresh := Core(None, map[])

  /** An author adds a note under episodes/ where there is none, and does nothing else. */
  lemma AuthorsOnlyAdd(rules: Rules, core: Core, path: Path, note: Note)
    ensures
      var after := Step(rules, core, WriteNote(path, note));
      && after.ledger == core.ledger
      && after.notes == if path.Episodes? && path !in core.notes then core.notes[path := note] else core.notes
  {
  }

  /** The event does not part ledger and notes: a retain that writes is of a plainly named note, a promotion
      that happens changes the line that decides the status, and a roll-back that fails had nothing to
      restore. */
  predicate Orderly(rules: Rules, core: Core, e: Event) {
    match e
    case WriteNote(_, _) => true
    case RetainNote(path, faults) => !TearsPath(path) || Retain(rules, core, path, faults).0 == core
    case PromoteRecord(id, evidence, faults) =>
      match Promote(rules, core, id, evidence, faults).1
      case Done(_) => StatusWillChange(core, id)
      case RollbackFailed => TargetOpen in faults || TargetWrite in faults || !(faults !! LedgerPoints)
      case _ => true
  }

  lemma {:induction false} StepKeepsIff(rules: Rules, core: Core, e: Event)
    requires Consistent(rules, core)
    ensures Consistent(rules, Step(rules, core, e)) <==> Orderly(rules, core, e)
  {
    match e
    case WriteNote(path, note) =>
      if core.ledger.Some? {
        assert forall r :: r in core.ledger.value ==> Backed(core, r);
      }
    case RetainNote(path, faults) => RetainKeeps(rules, core, path, faults);
    case PromoteRecord(id, evidence, faults) =>
      if Promote(rules, core, id, evidence, faults).1 == RollbackFailed {
        FailedRollback(rules, core, id, evidence, faults);
      } else {
        PromoteKeeps(rules, core, id, evidence, faults);
      }
  }

  predicate AllOrderly(rules: Rules, core: Core, es: seq<Event>)
    decreases |es|
  {
    es == [] || (Orderly(rules, core, es[0]) && AllOrderly(rules, Step(rules, core, es[0]), es[1..]))
  }

  /** Ledger and notes are consistent after every event of a run if and only if every event is orderly. */
  lemma {:induction false} RunsStayConsistentIff(rules: Rules, core: Core, es: seq<Event>)
    requires Consistent(rules, core)
    ensures AllOrderly(rules, core, es) <==> forall k :: 0 <= k <= |es| ==> Consistent(rules, Run(rules, core, es[..k]))
    decreases |es|
  {
    if es == [] {
      assert forall k :: 0 <= k <= |es| ==> es[..k] == [];
    } else {
      var next := Step(rules, core, es[0]);
      StepKeepsIff(rules, core, es[0]);
      ShiftedRuns(rules, core, es);
      if Consistent(rules, next) {
        RunsStayConsistentIff(rules, next, es[1..]);
      } else {
        assert Run(rules, next, es[1..][..0]) == next;
      }
      assert es[..0] == [];
    }
  }

  lemma ShiftedRuns(rules: Rules, core: Core, es: seq<Event>)
    requires es != []
    ensures
      var next := Step(rules, core, es[0]);
      (forall k :: 0 <= k <= |es| - 1 ==> Consistent(rules, Run(rules, next, es[1..][..k]))) <==>
        forall k :: 1 <= k <= |es| ==> Consistent(rules, Run(rules, core, es[..k]))
  {
    var next := Step(rules, core, es[0]);
    forall k | 1 <= k <= |es|
      ensures Run(rules, core, es[..k]) == Run(rules, next, es[1..][..k - 1])
    {
      assert es[..k][1..] == es[1..][..k - 1];
    }
    if forall k :: 1 <= k <= |es| ==> Consistent(rules, Run(rules, core, es[..k])) {
      forall k | 0 <= k <= |es| - 1
        ensures Consistent(rules, Run(rules, next, es[1..][..k]))
      {
        assert Run(rules, core, es[..k + 1]) == Run(rules, next, es[1..][..k + 1 - 1]);
      }
    }
  }

  /** What authors and failures have to keep to, whatever is retained and promoted when: notes that the
      substitution changes, if at all, where their status is decided, names that do not tear their line,
      and roll-backs that can rewrite the ledger. */
  predicate Plain(e: Event) {
    match e
    case WriteNote(_, note) => StatusFollows(note)
    case RetainNote(path, _) => !TearsPath(path)
    case PromoteRecord(_, _, faults) => faults !! RollbackPoints
  }

  lemma StepStaysPlain(rules: Rules, core: Core, e: Event)
    requires Consistent(rules, core) && WellWritten(core) && Plain(e)
    ensures Orderly(rules, core, e) && WellWritten(Step(rules, core, e))
  {
    if e.PromoteRecord? && Promote(rules, core, e.id, e.evidence, e.faults).1.Done? {
      var p := PlanOf(rules, core, e.id, e.evidence, e.faults);
      ConsistentIsFiled(rules, core);
      PlansArePlanned(rules, core, e.id, e.evidence, e.faults);
      LoadDropsNothing(rules, core);
      assert Backed(core, p.records[p.at]);
    }
  }

  /** Plain runs are orderly. */
  lemma {:induction false} PlainRunsAreOrderly(rules: Rules, core: Core, es: seq<Event>)
    requires Consistent(rules, core) && WellWritten(core)
    requires forall k :: 0 <= k < |es| ==> Plain(es[k])
    ensures AllOrderly(rules, core, es)
    decreases |es|
  {
    if es != [] {
      assert Plain(es[0]);
      StepStaysPlain(rules, core, es[0]);
      StepKeepsIff(rules, core, es[0]);
      PlainRunsAreOrderly(rules, Step(rules, core, es[0]), es[1..]);
    }
  }

  // ---- what every run keeps, orderly or not ---------------------------------------------------------

  lemma {:induction false} StepKeepsFiled(rules: Rules, core: Core, e: Event)
    requires Filed(core)
    ensures Filed(Step(rules, core, e))
  {
    match e
    case WriteNote(_, _) =>
    case RetainNote(path, faults) =>
      if Retainable(rules, core, path) && Load(rules, core).Some? { RetainedIsFiled(rules, core, path); }
    case PromoteRecord(id, evidence, faults) =>
      PlansArePlanned(rules, core, id, evidence, faults);
      var p := Prepare(rules, core, id, evidence, faults);
      if p.Plan? {
        PromotedIsFiled(core, p, evidence);
        EndsOfAPromotion(rules, core, id, evidence, faults);
      }
  }

  lemma RetainedIsFiled(rules: Rules, core: Core, source: Path)
    requires Filed(core) && Retainable(rules, core, source) && Load(rules, core).Some?
    ensures Filed(Retained(rules, core, source))
  {
    var loaded, record := Load(rules, core).value, RecordOf(core.notes[source], source);
    LoadsAllOrNothing(rules, core);
    WithoutMembers(loaded, record.id);
    WithoutKeepsIds(loaded, record.id);
    AppendUniqueId(Without(loaded, record.id), record);
  }

  lemma PromotedIsFiled(core: Core, p: Plan, evidence: string)
    requires Filed(core) && Planned(core, p)
    ensures Filed(Core(Some(PromotedRecords(p, evidence)), core.notes))
  {
    var after := PromotedRecords(p, evidence);
    assert forall k :: 0 <= k < |after| ==> after[k].id == p.records[k].id;
    assert forall k :: 0 <= k < |after| && k != p.at ==> after[k] in p.records;
  }

  lemma {:induction false} RunsStayFiled(rules: Rules, core: Core, es: seq<Event>)
    requires Filed(core)
    ensures Filed(Run(rules, core, es))
    decreases |es|
  {
    if es != [] {
      StepKeepsFiled(rules, core, es[0]);
      RunsStayFiled(rules, Step(rules, core, es[0]), es[1..]);
    }
  }

  /** Over every run from an empty ledger, with any names, notes, evidence and failures: ids are unique, every
      source is safe, and loading the ledger gives all of it or raises. If the run is orderly, loading does
      not raise, sources are unique, and every record names an existing note with its id and its status. */
  lemma {:induction false} LedgerStaysSound(rules: Rules, es: seq<Event>)
    ensures
      var core := Run(rules, Fresh, es);
      core.ledger.Some? ==>
        var records := core.ledger.value;
        && (forall i, j :: 0 <= i < j < |records| ==> records[i].id != records[j].id)
        && (forall r :: r in records ==> Safe(r.source) && Kinded(r))
        && (Load(rules, core).Some? ==> Load(rules, core) == Some(records))
        && (AllOrderly(rules, Fresh, es) ==>
              && Load(rules, core).Some?
              && (forall i, j :: 0 <= i < j < |records| ==> records[i].source != records[j].source)
              && (forall r :: r in records ==>
                    && r.source in core.notes
                    && Meta(core.notes[r.source].front, "id") == r.id
                    && Meta(core.notes[r.source].front, "status") == r.status))
  {
    var core := Run(rules, Fresh, es);
    RunsStayFiled(rules, Fresh, es);
    LoadsAllOrNothing(rules, core);
    if AllOrderly(rules, Fresh, es) {
      OrderlyEndsConsistent(rules, es);
      LoadDropsNothing(rules, core);
      if core.ledger.Some? {
        assert forall r :: r in core.ledger.value ==> Backed(core, r);
      }
    }
  }

  lemma OrderlyEndsConsistent(rules: Rules, es: seq<Event>)
    requires AllOrderly(rules, Fresh, es)
    ensures Consistent(rules, Run(rules, Fresh, es))
  {
    RunsStayConsistentIff(rules, Fresh, es);
    assert es[..|es|] == es;
  }

  ghost predicate Holds(core: Core, r: Record, note: Note) {
    core.ledger.Some? && r in core.ledger.value && r.source in core.notes && core.notes[r.source] == note
  }

  lemma {:induction false} StepKeepsCanonical(rules: Rules, core: Core, e: Event, r: Record, note: Note)
    requires Filed(core)
    requires Holds(core, r, note) && r.status == CANONICAL
    ensures Holds(Step(rules, core, e), r, note)
  {
    LoadsAllOrNothing(rules, core);
    match e
    case WriteNote(path, added) =>
    case RetainNote(path, faults) =>
      if Retainable(rules, core, path) {
        WithoutMembers(core.ledger.value, Meta(core.notes[path].front, "id"));
      }
    case PromoteRecord(id, evidence, faults) => PromoteKeepsCanonical(rules, core, id, evidence, faults, r, note);
  }

  lemma {:induction false} PromoteKeepsCanonical(
      rules: Rules, core: Core, id: string, evidence: string, faults: set<Point>, r: Record, note: Note)
    requires Filed(core)
    requires Holds(core, r, note) && r.status == CANONICAL
    ensures Holds(Promote(rules, core, id, evidence, faults).0, r, note)
  {
    PlansArePlanned(rules, core, id, evidence, faults);
    var p := Prepare(rules, core, id, evidence, faults);
    if p.Plan? {
      OthersStay(p, evidence, r);
      var promoted := p.records[p.at];
      assert promoted in core.ledger.value && Kinded(promoted) && Kinded(r);
      EndsOfAPromotion(rules, core, id, evidence, faults);
    }
  }

  lemma OthersStay(p: Plan, evidence: string, r: Record)
    requires p.Plan? && p.at < |p.records| && Safe(p.records[p.at].source) && p.records[p.at].status == EPISODIC
    requires r in p.records && r.status == CANONICAL
    ensures r in PromotedRecords(p, evidence)
  {
    var k :| 0 <= k < |p.records| && p.records[k] == r;
    assert PromotedRecords(p, evidence)[k] == r;
  }

  /** The ledger and the notes that a promotion with a plan can leave. */
  lemma EndsOfAPromotion(rules: Rules, core: Core, id: string, evidence: string, faults: set<Point>)
    requires Prepare(rules, core, id, evidence, faults).Plan?
    ensures
      var p := Prepare(rules, core, id, evidence, faults);
      var after := Promote(rules, core, id, evidence, faults).0;
      && (after.ledger == core.ledger || after.ledger == Some(p.records)
          || after.ledger == Some(PromotedRecords(p, evidence)))
      && (after.notes == core.notes || after.notes == NotesAfter(core.notes, p.records[p.at], p.text, true)
          || after.notes == NotesAfter(core.notes, p.records[p.at], p.text, false))
  {
  }

  lemma {:induction false} FiledCanonicalIsForever(rules: Rules, core: Core, es: seq<Event>, r: Record, note: Note)
    requires Filed(core)
    requires Holds(core, r, note) && r.status == CANONICAL
    ensures Holds(Run(rules, core, es), r, note)
    decreases |es|
  {
    if es != [] {
      StepKeepsFiled(rules, core, es[0]);
      StepKeepsCanonical(rules, core, es[0], r, note);
      FiledCanonicalIsForever(rules, Step(rules, core, es[0]), es[1..], r, note);
    }
  }

  /** In every run from an empty ledger, with any names, notes, evidence and failures, a canonical record and
      its note are never replaced, demoted or lost. */
  lemma {:induction false} CanonicalIsForever(
      rules: Rules, es: seq<Event>, more: seq<Event>, r: Record, note: Note)
    requires
      var core := Run(rules, Fresh, es);
      core.ledger.Some? && r in core.ledger.value && r.status == "canonical"
      && r.source in core.notes && core.notes[r.source] == note
    ensures
      var later := Run(rules, Run(rules, Fresh, es), more);
      && later.ledger.Some? && r in later.ledger.value
      && r.source in later.notes && later.notes[r.source] == note
  {
    RunsStayFiled(rules, Fresh, es);
    FiledCanonicalIsForever(rules, Run(rules, Fresh, es), more, r, note);
  }
}

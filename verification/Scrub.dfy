/** Rewriting a record that another process may still be appending to: line by line, an atomic
    replacement, and a bounded drain of what arrived at the replaced file. */
module Scrub {
  import opened Prelude

  newtype Byte = b: int | 0 <= b < 256

  const NL: Byte := 10

  /** What the per-line rules say of one line, its terminator included. */
  datatype LineResult = Kept | Rewritten(line: seq<Byte>) | Undecodable

  /** The rules that other packages supply: which lines are blank, and what becomes of the rest. */
  datatype Rules = Rules(blank: seq<Byte> -> bool, rewrite: seq<Byte> -> LineResult)

  predicate EndsInNL(data: seq<Byte>) { data != [] && data[|data| - 1] == NL }

  /** The rewrite contract: it keeps the line's terminator and adds no newline. */
  ghost predicate KeepsLines(rules: Rules) {
    forall line: seq<Byte> :: rules.rewrite(line).Rewritten? ==>
      var next := rules.rewrite(line).line;
      && EndsInNL(next) == EndsInNL(line)
      && Newlines(next) == Newlines(line)
  }

  function Newlines(data: seq<Byte>): nat
    decreases |data|
  {
    if data == [] then 0 else Newlines(data[..|data| - 1]) + if data[|data| - 1] == NL then 1 else 0
  }

  datatype Scrubbed = Scrubbed(out: seq<Byte>, lines: nat, rewrite: nat, broken: nat)

  const Nothing := Scrubbed([], 0, 0, 0)

  function Plus(a: Scrubbed, b: Scrubbed): Scrubbed {
    Scrubbed(a.out + b.out, a.lines + b.lines, a.rewrite + b.rewrite, a.broken + b.broken)
  }

  /** One line; blank lines are copied and not counted. */
  function ScrubLine(rules: Rules, line: seq<Byte>): Scrubbed {
    if rules.blank(line) then Scrubbed(line, 0, 0, 0)
    else
      match rules.rewrite(line)
      case Kept => Scrubbed(line, 1, 0, 0)
      case Rewritten(next) => Scrubbed(next, 1, if next == line then 0 else 1, 0)
      case Undecodable => Scrubbed(line, 1, 0, 1)
  }

  /** The length of the first line, terminator included. */
  function FirstLine(data: seq<Byte>): (n: nat)
    requires data != []
    ensures 1 <= n <= |data|
    decreases |data|
  {
    if data[0] == NL || |data| == 1 then 1 else 1 + FirstLine(data[1..])
  }

  lemma {:induction false} FirstLineFacts(data: seq<Byte>)
    requires data != []
    ensures forall i :: 0 <= i < FirstLine(data) - 1 ==> data[i] != NL
    ensures FirstLine(data) < |data| ==> data[FirstLine(data) - 1] == NL
    decreases |data|
  {
    if data[0] != NL && |data| > 1 {
      FirstLineFacts(data[1..]);
    }
  }

  function ScrubAll(rules: Rules, data: seq<Byte>): Scrubbed
    decreases |data|
  {
    if data == [] then Nothing
    else
      var n := FirstLine(data);
      Plus(ScrubLine(rules, data[..n]), ScrubAll(rules, data[n..]))
  }

  /** The loop over a block of bytes, as the source consumes it. */
  method ScrubLines(rules: Rules, block: seq<Byte>) returns (out: seq<Byte>, lines: nat, rewrite: nat, broken: nat)
    ensures Scrubbed(out, lines, rewrite, broken) == ScrubAll(rules, block)
  {
    out, lines, rewrite, broken := [], 0, 0, 0;
    var data := block;
    while data != []
      invariant Plus(Scrubbed(out, lines, rewrite, broken), ScrubAll(rules, data)) == ScrubAll(rules, block)
      decreases |data|
    {
      var n := FirstLine(data);
      var line := data[..n];
      ghost var before := Scrubbed(out, lines, rewrite, broken);
      PlusAssociates(before, ScrubLine(rules, line), ScrubAll(rules, data[n..]));
      data := data[n..];
      if rules.blank(line) {
        out := out + line;
        continue;
      }
      lines := lines + 1;
      match rules.rewrite(line) {
        case Kept =>
          out := out + line;
        case Rewritten(next) =>
          if next != line {
            rewrite := rewrite + 1;
          }
          out := out + next;
        case Undecodable =>
          broken := broken + 1;
          out := out + line;
      }
    }
  }

  lemma PlusAssociates(a: Scrubbed, b: Scrubbed, c: Scrubbed)
    ensures Plus(Plus(a, b), c) == Plus(a, Plus(b, c))
  {
  }

  // ---- what becomes of the lines ----------------------------------------------------------------------

  /** A single line: nothing but its last byte may be a newline. */
  predicate IsLine(line: seq<Byte>) {
    line != [] && forall i :: 0 <= i < |line| - 1 ==> line[i] != NL
  }

  lemma {:induction false} FirstLineOfLine(line: seq<Byte>)
    requires IsLine(line)
    ensures FirstLine(line) == |line|
    decreases |line|
  {
    if |line| > 1 {
      assert line[0] != NL;
      FirstLineOfLine(line[1..]);
    }
  }

  /** One line: a blank one is copied and not counted, a kept one is copied and counted, a rewritten one is
      replaced and counted as such if that changes it, and one that cannot be decoded is copied and counted
      as broken. Nothing comes of nothing. */
  lemma {:induction false} OneLineIsScrubbed(rules: Rules, line: seq<Byte>)
    requires IsLine(line)
    ensures rules.blank(line) ==> ScrubAll(rules, line) == Scrubbed(line, 0, 0, 0)
    ensures !rules.blank(line) ==>
              match rules.rewrite(line)
              case Kept => ScrubAll(rules, line) == Scrubbed(line, 1, 0, 0)
              case Rewritten(next) =>
                ScrubAll(rules, line) == if next == line then Scrubbed(line, 1, 0, 0) else Scrubbed(next, 1, 1, 0)
              case Undecodable => ScrubAll(rules, line) == Scrubbed(line, 1, 0, 1)
    ensures ScrubAll(rules, []) == Scrubbed([], 0, 0, 0)
  {
    FirstLineOfLine(line);
    assert line + [] == line;
    PeelLine(rules, line, []);
    assert ScrubLine(rules, line).out + [] == ScrubLine(rules, line).out;
  }

  /** The lines of a block, terminators included. */
  function LinesOf(data: seq<Byte>): seq<seq<Byte>>
    decreases |data|
  {
    if data == [] then [] else [data[..FirstLine(data)]] + LinesOf(data[FirstLine(data)..])
  }

  function Concat(lines: seq<seq<Byte>>): seq<Byte>
    decreases |lines|
  {
    if lines == [] then [] else lines[0] + Concat(lines[1..])
  }

  /** They are the block cut behind every newline: all of it, in order, each one line, each but the last with
      its newline. */
  lemma {:induction false} LinesMakeTheBlock(data: seq<Byte>)
    ensures Concat(LinesOf(data)) == data
    ensures forall k :: 0 <= k < |LinesOf(data)| ==> IsLine(LinesOf(data)[k])
    ensures forall k :: 0 <= k < |LinesOf(data)| - 1 ==> EndsInNL(LinesOf(data)[k])
    decreases |data|
  {
    if data != [] {
      var n := FirstLine(data);
      FirstLineFacts(data);
      LinesMakeTheBlock(data[n..]);
      assert data == data[..n] + data[n..];
      LinesBehind(data[..n], data[n..], LinesOf(data[n..]));
    }
  }

  lemma LinesBehind(line: seq<Byte>, rest: seq<Byte>, lines: seq<seq<Byte>>)
    requires IsLine(line) && (rest != [] ==> EndsInNL(line)) && (rest == [] ==> lines == [])
    requires Concat(lines) == rest
    requires forall k :: 0 <= k < |lines| ==> IsLine(lines[k]) && (k < |lines| - 1 ==> EndsInNL(lines[k]))
    ensures
      var all := [line] + lines;
      && Concat(all) == line + rest
      && forall k :: 0 <= k < |all| ==> IsLine(all[k]) && (k < |all| - 1 ==> EndsInNL(all[k]))
  {
    assert ([line] + lines)[1..] == lines;
  }

  function CountOf(lines: seq<seq<Byte>>, p: seq<Byte> -> bool): nat
    decreases |lines|
  {
    if lines == [] then 0 else (if p(lines[0]) then 1 else 0) + CountOf(lines[1..], p)
  }

  /** What the three counts say of a block's lines: how many are not blank, how many of those are changed, and
      how many cannot be decoded. */
  lemma {:induction false} CountsAreOfTheLines(rules: Rules, data: seq<Byte>)
    ensures
      var s, lines := ScrubAll(rules, data), LinesOf(data);
      && s.lines == CountOf(lines, line => !rules.blank(line))
      && s.rewrite == CountOf(lines, line => !rules.blank(line) && Changes(rules, line))
      && s.broken == CountOf(lines, line => !rules.blank(line) && rules.rewrite(line) == Undecodable)
    decreases |data|
  {
    if data != [] {
      var line, rest := data[..FirstLine(data)], data[FirstLine(data)..];
      CountsAreOfTheLines(rules, rest);
      assert LinesOf(data)[0] == line && LinesOf(data)[1..] == LinesOf(rest);
    }
  }

  predicate Changes(rules: Rules, line: seq<Byte>) {
    rules.rewrite(line).Rewritten? && rules.rewrite(line).line != line
  }

  /** The output is the lines' own outputs in order; a line that is blank, kept or undecodable stays as it is. */
  lemma {:induction false} OutputIsOfTheLines(rules: Rules, data: seq<Byte>, outs: seq<seq<Byte>>)
    requires |outs| == |LinesOf(data)|
    requires forall k :: 0 <= k < |outs| ==>
               var line := LinesOf(data)[k];
               outs[k] == if !rules.blank(line) && rules.rewrite(line).Rewritten? then rules.rewrite(line).line
                          else line
    ensures ScrubAll(rules, data).out == Concat(outs)
    decreases |data|
  {
    if data != [] {
      var line, rest := data[..FirstLine(data)], data[FirstLine(data)..];
      assert LinesOf(data)[0] == line && LinesOf(data)[1..] == LinesOf(rest);
      forall k | 0 <= k < |outs| - 1
        ensures outs[1..][k] == outs[k + 1] && LinesOf(rest)[k] == LinesOf(data)[k + 1]
      {
      }
      OutputIsOfTheLines(rules, rest, outs[1..]);
    }
  }

  /** So a block none of whose lines is changed, torn lines included, comes out as it went in. */
  lemma {:induction false} UnchangedLinesStay(rules: Rules, data: seq<Byte>)
    requires forall k :: 0 <= k < |LinesOf(data)| ==>
               rules.blank(LinesOf(data)[k]) || !Changes(rules, LinesOf(data)[k])
    ensures ScrubAll(rules, data).out == data && ScrubAll(rules, data).rewrite == 0
  {
    LinesMakeTheBlock(data);
    OutputIsOfTheLines(rules, data, LinesOf(data));
    CountsAreOfTheLines(rules, data);
    NoneCounts(LinesOf(data), line => !rules.blank(line) && Changes(rules, line));
  }

  lemma {:induction false} NoneCounts(lines: seq<seq<Byte>>, p: seq<Byte> -> bool)
    requires forall k :: 0 <= k < |lines| ==> !p(lines[k])
    ensures CountOf(lines, p) == 0
    decreases |lines|
  {
    if lines != [] {
      assert !p(lines[0]);
      NoneCounts(lines[1..], p);
    }
  }

  // ---- newline boundaries ---------------------------------------------------------------------------

  predicate AtBoundary(data: seq<Byte>) { data == [] || EndsInNL(data) }

  lemma {:induction false} FirstLineOfAppended(a: seq<Byte>, b: seq<Byte>)
    requires EndsInNL(a)
    ensures FirstLine(a + b) == FirstLine(a)
    decreases |a|
  {
    if a[0] != NL {
      assert (a + b)[1..] == a[1..] + b;
      FirstLineOfAppended(a[1..], b);
    }
  }

  lemma PeelLine(rules: Rules, line: seq<Byte>, rest: seq<Byte>)
    requires line != [] && FirstLine(line + rest) == |line|
    ensures ScrubAll(rules, line + rest) == Plus(ScrubLine(rules, line), ScrubAll(rules, rest))
  {
    assert (line + rest)[..|line|] == line && (line + rest)[|line|..] == rest;
  }

  /** Scrubbing distributes over concatenation at a newline boundary, in output and in counts. */
  lemma {:induction false} ScrubDistributes(rules: Rules, a: seq<Byte>, b: seq<Byte>)
    requires AtBoundary(a)
    ensures ScrubAll(rules, a + b) == Plus(ScrubAll(rules, a), ScrubAll(rules, b))
    ensures
      var (x, y, whole) := (ScrubAll(rules, a), ScrubAll(rules, b), ScrubAll(rules, a + b));
      && whole.out == x.out + y.out && whole.lines == x.lines + y.lines
      && whole.rewrite == x.rewrite + y.rewrite && whole.broken == x.broken + y.broken
    decreases |a|
  {
    if a == [] {
      AppendToNothing(rules, a, b);
    } else {
      var line, rest := CutFirstLine(a, b);
      ScrubDistributes(rules, rest, b);
      DistributeLine(rules, a, line, rest, b);
    }
  }

  lemma AppendToNothing(rules: Rules, a: seq<Byte>, b: seq<Byte>)
    requires a == []
    ensures ScrubAll(rules, a + b) == Plus(ScrubAll(rules, a), ScrubAll(rules, b))
  {
    assert a + b == b;
    PlusNothing(ScrubAll(rules, b));
  }

  lemma PlusNothing(a: Scrubbed)
    ensures Plus(Nothing, a) == a
  {
  }

  lemma DistributeLine(rules: Rules, a: seq<Byte>, line: seq<Byte>, rest: seq<Byte>, b: seq<Byte>)
    requires a == line + rest && a + b == line + (rest + b)
    requires line != [] && FirstLine(a) == |line| && FirstLine(a + b) == |line|
    requires ScrubAll(rules, rest + b) == Plus(ScrubAll(rules, rest), ScrubAll(rules, b))
    ensures ScrubAll(rules, a + b) == Plus(ScrubAll(rules, a), ScrubAll(rules, b))
  {
    PeelLine(rules, line, rest);
    PeelLine(rules, line, rest + b);
    PlusAssociates(ScrubLine(rules, line), ScrubAll(rules, rest), ScrubAll(rules, b));
  }

  lemma CutFirstLine(a: seq<Byte>, b: seq<Byte>) returns (line: seq<Byte>, rest: seq<Byte>)
    requires EndsInNL(a)
    ensures line != [] && a == line + rest && a + b == line + (rest + b)
    ensures FirstLine(a) == |line| && FirstLine(a + b) == |line|
    ensures AtBoundary(rest)
  {
    var n := FirstLine(a);
    FirstLineFacts(a);
    FirstLineOfAppended(a, b);
    line, rest := a[..n], a[n..];
  }

  /** Rules under which every line grows by one byte, so that a line cut in two shows. */
  function Stamping(): Rules {
    Rules(_ => false, (line: seq<Byte>) => Rewritten([65] + line))
  }

  lemma {:induction false} NewlinesAppend(a: seq<Byte>, b: seq<Byte>)
    ensures Newlines(a + b) == Newlines(a) + Newlines(b)
    decreases |b|
  {
    if b == [] {
      assert a + b == a;
    } else {
      assert (a + b)[..|a + b| - 1] == a + b[..|b| - 1];
      NewlinesAppend(a, b[..|b| - 1]);
    }
  }

  lemma StampingKeepsLines()
    ensures KeepsLines(Stamping())
  {
    forall line: seq<Byte>
      ensures Newlines([65] + line) == Newlines(line) && EndsInNL([65] + line) == EndsInNL(line)
    {
      NewlinesAppend([65], line);
      assert Newlines([65]) == 0 by { assert [65 as Byte][..0] == []; }
    }
  }

  lemma {:induction false} StampedLength(data: seq<Byte>)
    ensures |ScrubAll(Stamping(), data).out| == |data| + ScrubAll(Stamping(), data).lines
    decreases |data|
  {
    if data != [] {
      StampedLength(data[FirstLine(data)..]);
    }
  }

  lemma {:induction false} StampedLines(data: seq<Byte>)
    ensures ScrubAll(Stamping(), data).lines == Newlines(data) + if AtBoundary(data) then 0 else 1
    decreases |data|
  {
    if data != [] {
      var n := FirstLine(data);
      FirstLineFacts(data);
      assert data[..n] + data[n..] == data;
      NewlinesAppend(data[..n], data[n..]);
      OneLineHasOneNewline(data[..n]);
      StampedLines(data[n..]);
    }
  }

  lemma {:induction false} OneLineHasOneNewline(line: seq<Byte>)
    requires line != [] && forall i :: 0 <= i < |line| - 1 ==> line[i] != NL
    ensures Newlines(line) == if EndsInNL(line) then 1 else 0
  {
    NoNewlines(line[..|line| - 1]);
  }

  lemma {:induction false} NoNewlines(data: seq<Byte>)
    requires forall i :: 0 <= i < |data| ==> data[i] != NL
    ensures Newlines(data) == 0
    decreases |data|
  {
    if data != [] {
      NoNewlines(data[..|data| - 1]);
    }
  }

  /** The boundary is exactly what the two-piece rewrite needs: for every rule set that keeps lines and
      every tail, the output of the pieces is the output of the whole, if and only if the first piece is
      empty or ends in a newline. */
  lemma {:induction false} PiecesNeedABoundary(a: seq<Byte>)
    ensures AtBoundary(a) <==>
      forall rules: Rules, b: seq<Byte> :: KeepsLines(rules) ==>
        ScrubAll(rules, a + b).out == ScrubAll(rules, a).out + ScrubAll(rules, b).out
  {
    if AtBoundary(a) {
      forall rules: Rules, b: seq<Byte> | KeepsLines(rules)
        ensures ScrubAll(rules, a + b).out == ScrubAll(rules, a).out + ScrubAll(rules, b).out
      {
        ScrubDistributes(rules, a, b);
      }
    } else {
      StampingKeepsLines();
      var b := [NL];
      var rules := Stamping();
      StampedLength(a);
      StampedLength(b);
      StampedLength(a + b);
      StampedLines(a);
      StampedLines(b);
      StampedLines(a + b);
      NewlinesAppend(a, b);
      assert |ScrubAll(rules, a + b).out| != |ScrubAll(rules, a).out + ScrubAll(rules, b).out|;
    }
  }

  // ---- draining the replaced file -------------------------------------------------------------------

  /** Which system call of one round fails; a failed append may have written some of its bytes. */
  datatype Fault = NoFault | StatFails | ReadFails | OpenFails | AppendFails(written: nat)

  /** One round of watching: what the writer appended to the replaced file before this look. */
  datatype Poll = Poll(grown: seq<Byte>, fault: Fault)

  datatype DrainError = KeptGrowing | Unwatchable | UnreadableTail | NotOpened | NotAppended

  /** The replaced file after the writer's first k appends. */
  function Grown(replaced: seq<Byte>, polls: seq<Poll>, k: nat): (grown: seq<Byte>)
    requires k <= |polls|
    ensures |replaced| <= |grown|
  {
    if k == 0 then replaced else Grown(replaced, polls, k - 1) + polls[k - 1].grown
  }

  /** One look finds what the writer appended before it, behind everything before that. */
  lemma OneLookGrows(replaced: seq<Byte>, poll: Poll)
    ensures Grown(replaced, [poll], 1) == replaced + poll.grown && Grown(replaced, [poll], 0) == replaced
  {
  }

  lemma {:induction false} LooksFollow(replaced: seq<Byte>, polls: seq<Poll>, j: nat, k: nat)
    requires j <= k <= |polls|
    ensures Grown(replaced, polls, k) == Grown(Grown(replaced, polls, j), polls[j..], k - j)
    decreases k
  {
    if j < k {
      LooksFollow(replaced, polls, j, k - 1);
    }
  }

  lemma {:induction false} GrownExtends(replaced: seq<Byte>, polls: seq<Poll>, k: nat)
    requires k <= |polls|
    ensures replaced <= Grown(replaced, polls, k)
  {
    if k > 0 {
      GrownExtends(replaced, polls, k - 1);
    }
  }

  /** `bytes.LastIndexByte(tail, '\n') + 1`: the length of the complete lines. */
  function CompleteLength(tail: seq<Byte>): (n: nat)
    ensures n <= |tail| && AtBoundary(tail[..n])
    ensures forall i :: n <= i < |tail| ==> tail[i] != NL
    decreases |tail|
  {
    if tail == [] then 0
    else if EndsInNL(tail) then |tail|
    else
      var n := CompleteLength(tail[..|tail| - 1]);
      assert tail[..|tail| - 1][..n] == tail[..n];
      n
  }

  lemma Drained(rules: Rules, replaced: seq<Byte>, size: nat, offset: nat, offset': nat)
    requires size <= offset <= offset' <= |replaced| && AtBoundary(replaced[size..offset])
    ensures ScrubAll(rules, replaced[size..offset']).out
         == ScrubAll(rules, replaced[size..offset]).out + ScrubAll(rules, replaced[offset..offset']).out
  {
    var a, b := replaced[size..offset], replaced[offset..offset'];
    assert replaced[size..offset'] == a + b;
    ScrubDistributes(rules, a, b);
  }
  lemma TailFacts(replaced: seq<Byte>, size: nat, offset: nat, end: nat)
    requires size <= offset < |replaced| && AtBoundary(replaced[size..offset])
    requires end == CompleteLength(replaced[offset..])
    ensures offset + end <= |replaced|
    ensures offset + end == |replaced| <==> AtBoundary(replaced[size..])
    ensures AtBoundary(replaced[size..offset + end])
  {
    var tail := replaced[offset..];
    if end > 0 {
      assert tail[..end][end - 1] == replaced[size..offset + end][offset + end - size - 1];
    }
    assert replaced[size..][|replaced| - size - 1] == tail[|tail| - 1];
    assert end == |tail| ==> tail[..end] == tail;
  }

  predicate Faultless(polls: seq<Poll>) {
    forall k :: 0 <= k < |polls| ==> polls[k].fault == NoFault
  }

  /** The writer says nothing more after round `quiet`, and left a complete last line. */
  predicate StopsOnALineEnd(atRename: seq<Byte>, size: nat, polls: seq<Poll>, quiet: nat)
    requires size <= |atRename|
  {
    && quiet + 3 <= |polls|
    && (forall k :: quiet < k < |polls| ==> polls[k].grown == [])
    && AtBoundary(Grown(atRename, polls, quiet + 1)[size..])
  }

  /** The writer says nothing more after the first round, and left its last line unfinished. */
  predicate StopsInsideALine(atRename: seq<Byte>, size: nat, polls: seq<Poll>)
    requires size <= |atRename|
  {
    && 1 <= |polls|
    && (forall k :: 0 < k < |polls| ==> polls[k].grown == [])
    && !AtBoundary(Grown(atRename, polls, 1)[size..])
  }

  lemma UpToTheEnd(replaced: seq<Byte>, size: nat, offset: nat)
    requires size <= offset == |replaced|
    ensures replaced[size..offset] == replaced[size..]
  {
  }

  /** How far the drain has got: what it appended is the scrub of the lines up to `offset`. */
  ghost predicate Sound(rules: Rules, replaced: seq<Byte>, size: nat, offset: nat,
                        published: seq<Byte>, file: seq<Byte>) {
    && size <= offset <= |replaced| && AtBoundary(replaced[size..offset])
    && file == published + ScrubAll(rules, replaced[size..offset]).out
  }

  lemma StaysSound(rules: Rules, before: seq<Byte>, after: seq<Byte>, size: nat, offset: nat,
                   published: seq<Byte>, file: seq<Byte>)
    requires Sound(rules, before, size, offset, published, file) && before <= after
    ensures Sound(rules, after, size, offset, published, file)
  {
    assert after[size..offset] == before[size..offset];
  }

  lemma MovingIsSound(rules: Rules, replaced: seq<Byte>, size: nat, offset: nat, offset': nat,
                      published: seq<Byte>, file: seq<Byte>, file': seq<Byte>)
    requires Sound(rules, replaced, size, offset, published, file)
    requires offset <= offset' <= |replaced| && AtBoundary(replaced[size..offset'])
    requires file' == file + ScrubAll(rules, replaced[offset..offset']).out
    ensures Sound(rules, replaced, size, offset', published, file')
  {
    Drained(rules, replaced, size, offset, offset');
    Regroup(published, ScrubAll(rules, replaced[size..offset]).out, ScrubAll(rules, replaced[offset..offset']).out);
  }

  ghost predicate NoNewlineFrom(data: seq<Byte>, end: nat) {
    forall i :: end <= i < |data| ==> data[i] != NL
  }

  /** What has been appended is at most the scrub of the lines up to `end`, cut short anywhere. */
  ghost predicate Within(rules: Rules, replaced: seq<Byte>, size: nat, end: nat,
                         published: seq<Byte>, file: seq<Byte>) {
    && size <= end <= |replaced| && AtBoundary(replaced[size..end])
    && file <= published + ScrubAll(rules, replaced[size..end]).out
  }

  lemma TornIsWithin(rules: Rules, replaced: seq<Byte>, size: nat, end: nat, published: seq<Byte>,
                     file: seq<Byte>, moved: seq<Byte>, n: nat)
    requires Sound(rules, replaced, size, end, published, file + moved) && n <= |moved|
    ensures Within(rules, replaced, size, end, published, file + moved[..n])
  {
    assert file + moved[..n] <= file + moved;
  }

  /** Where the complete lines of the tail end. */
  method LastLineEnd(replaced: seq<Byte>, size: nat, offset: nat) returns (end: nat)
    requires size <= offset < |replaced| && AtBoundary(replaced[size..offset])
    ensures offset <= end <= |replaced| && AtBoundary(replaced[size..end])
    ensures end == |replaced| <==> AtBoundary(replaced[size..])
    ensures NoNewlineFrom(replaced, end)
  {
    var length := CompleteLength(replaced[offset..]);
    TailFacts(replaced, size, offset, length);
    end := offset + length;
  }

  /** One block of the tail: the complete lines past `offset`, up to `end`, are scrubbed and appended. */
  method MoveCompleteLines(rules: Rules, replaced: seq<Byte>, size: nat, offset: nat,
                           ghost published: seq<Byte>, file: seq<Byte>, fault: Fault)
    returns (error: Option<DrainError>, file': seq<Byte>, offset': nat, ghost end: nat)
    requires Sound(rules, replaced, size, offset, published, file) && offset < |replaced|
    ensures file <= file' && offset <= end && Within(rules, replaced, size, end, published, file')
    ensures error.Some? ==> !fault.NoFault? && error.value != KeptGrowing && offset' == offset
    ensures error.Some? && error.value != NotAppended ==> file' == file
    // Each failure is told as what it is, and none is passed over.
    ensures error == Some(UnreadableTail) <==> fault.ReadFails?
    ensures error == Some(NotOpened) ==> fault.OpenFails?
    ensures error == Some(NotAppended) ==> fault.AppendFails?
    ensures error.None? && (fault.OpenFails? || fault.AppendFails?) ==> offset' == offset
    ensures error != Some(Unwatchable)
    ensures error.None? ==>
              && offset' == end && NoNewlineFrom(replaced, end)
              && Sound(rules, replaced, size, offset', published, file')
              && (offset' == |replaced| <==> AtBoundary(replaced[size..]))
  {
    if fault.ReadFails? {
      return Some(UnreadableTail), file, offset, offset;
    }
    var lineEnd := LastLineEnd(replaced, size, offset);
    if lineEnd == offset {
      return None, file, offset, offset;
    }
    var moved, _, _, _ := ScrubLines(rules, replaced[offset..lineEnd]);
    if fault.OpenFails? {
      return Some(NotOpened), file, offset, offset;
    }
    MovingIsSound(rules, replaced, size, offset, lineEnd, published, file, file + moved);
    if fault.AppendFails? {
      var n := if fault.written < |moved| then fault.written else |moved|;
      TornIsWithin(rules, replaced, size, lineEnd, published, file, moved, n);
      return Some(NotAppended), file + moved[..n], offset, lineEnd;
    }
    return None, file + moved, lineEnd, lineEnd;
  }

  lemma {:induction false} Silence(atRename: seq<Byte>, polls: seq<Poll>, from: nat, to: nat)
    requires from <= to <= |polls|
    requires forall k :: from <= k < to ==> polls[k].grown == []
    ensures Grown(atRename, polls, to) == Grown(atRename, polls, from)
  {
    if from < to {
      Silence(atRename, polls, from, to - 1);
    }
  }

  /** What has been appended is at least the scrub of the lines up to `offset`, and at most that of the lines
      up to `end`, cut short anywhere. */
  ghost predicate Between(rules: Rules, replaced: seq<Byte>, size: nat, offset: nat, end: nat,
                          published: seq<Byte>, file: seq<Byte>) {
    && size <= offset <= end <= |replaced| && AtBoundary(replaced[size..offset])
    && published + ScrubAll(rules, replaced[size..offset]).out <= file
    && Within(rules, replaced, size, end, published, file)
  }

  lemma SoundIsBetween(rules: Rules, replaced: seq<Byte>, size: nat, offset: nat, published: seq<Byte>, file: seq<Byte>)
    requires Sound(rules, replaced, size, offset, published, file)
    ensures Between(rules, replaced, size, offset, offset, published, file)
  {
  }

  /** How a round's failure is told. */
  function Told(fault: Fault): DrainError {
    match fault
    case StatFails => Unwatchable
    case ReadFails => UnreadableTail
    case OpenFails => NotOpened
    case _ => NotAppended
  }

  /** The rest of one round, after the replaced file has been watched to be as long as it now is. */
  method Look(rules: Rules, replaced: seq<Byte>, size: nat, offset: nat,
              ghost published: seq<Byte>, file: seq<Byte>, stable: nat, fault: Fault)
    returns (error: Option<DrainError>, file': seq<Byte>, offset': nat, stable': nat, ghost end: nat)
    requires Sound(rules, replaced, size, offset, published, file)
    ensures Between(rules, replaced, size, offset', end, published, file')
    ensures error != Some(NotAppended) ==> Sound(rules, replaced, size, offset', published, file')
    ensures stable' == if |replaced| == offset && error.None? then stable + 1 else 0
    ensures stable' > 0 ==> offset' == offset
    ensures error.Some? ==> !fault.NoFault? && offset' == offset && error == Some(Told(fault))
    ensures error == Some(Unwatchable) <==> fault.StatFails?
    ensures error == Some(UnreadableTail) <==> fault.ReadFails? && |replaced| != offset
    ensures error == Some(NotOpened) ==> fault.OpenFails?
    ensures error == Some(NotAppended) ==> fault.AppendFails?
    ensures error.None? && (fault.OpenFails? || fault.AppendFails?) ==> offset' == offset
    ensures error.None? ==> (offset' == |replaced| <==> AtBoundary(replaced[size..]))
  {
    SoundIsBetween(rules, replaced, size, offset, published, file);
    file', offset', stable', end := file, offset, 0, offset;
    if fault.StatFails? {
      return Some(Unwatchable), file, offset, 0, offset;
    }
    if |replaced| == offset {
      UpToTheEnd(replaced, size, offset);
      return None, file, offset, stable + 1, offset;
    }
    error, file', offset', end := MoveCompleteLines(rules, replaced, size, offset, published, file, fault);
  }

  /** What the looks find: the replaced file as it is before the first round and at every round's look. The
      writer only appends. */
  ghost predicate Growing(looks: seq<seq<Byte>>, rounds: nat, size: nat) {
    && |looks| == rounds + 1 && size <= |looks[0]|
    && forall k | 0 <= k < rounds :: Grows(looks, k)
  }

  ghost predicate Grows(looks: seq<seq<Byte>>, k: nat)
    requires k + 1 < |looks|
  {
    looks[k] <= looks[k + 1]
  }

  /** Whether the writer's last line is complete at a look. */
  ghost predicate Whole(looks: seq<seq<Byte>>, size: nat, k: nat)
    requires k < |looks|
  {
    size <= |looks[k]| && AtBoundary(looks[k][size..])
  }

  /** From the look after round `quiet` on, the file stays as it is and ends with a line. */
  ghost predicate EndsQuietly(looks: seq<seq<Byte>>, size: nat, quiet: nat) {
    quiet + 3 < |looks| && forall k | quiet < k < |looks| :: QuietAt(looks, size, quiet, k)
  }

  ghost predicate QuietAt(looks: seq<seq<Byte>>, size: nat, quiet: nat, k: nat)
    requires quiet + 1 < |looks| && k < |looks|
  {
    Whole(looks, size, k) && |looks[k]| == |looks[quiet + 1]|
  }

  /** At every look the last line is unfinished. */
  ghost predicate EndsTorn(looks: seq<seq<Byte>>, size: nat) {
    1 < |looks| && forall k | 0 < k < |looks| :: TornAt(looks, size, k)
  }

  ghost predicate TornAt(looks: seq<seq<Byte>>, size: nat, k: nat)
    requires k < |looks|
  {
    !Whole(looks, size, k)
  }

  lemma {:induction false} GrownIsGrowing(atRename: seq<Byte>, polls: seq<Poll>, size: nat, looks: seq<seq<Byte>>)
    requires size <= |atRename| && |looks| == |polls| + 1
    requires forall k :: 0 <= k <= |polls| ==> looks[k] == Grown(atRename, polls, k)
    ensures Growing(looks, |polls|, size)
  {
    forall k | 0 <= k < |polls|
      ensures Grows(looks, k)
    {
      assert looks[k + 1] == looks[k] + polls[k].grown;
    }
  }

  lemma {:induction false} QuietLooks(
      atRename: seq<Byte>, polls: seq<Poll>, size: nat, looks: seq<seq<Byte>>, quiet: nat)
    requires size <= |atRename| && |looks| == |polls| + 1
    requires forall k :: 0 <= k <= |polls| ==> looks[k] == Grown(atRename, polls, k)
    requires StopsOnALineEnd(atRename, size, polls, quiet)
    ensures EndsQuietly(looks, size, quiet)
  {
    forall k | quiet < k <= |polls|
      ensures QuietAt(looks, size, quiet, k)
    {
      Silence(atRename, polls, quiet + 1, k);
      assert looks[k] == looks[quiet + 1] == Grown(atRename, polls, quiet + 1);
    }
  }

  lemma {:induction false} TornLooks(atRename: seq<Byte>, polls: seq<Poll>, size: nat, looks: seq<seq<Byte>>)
    requires size <= |atRename| && |looks| == |polls| + 1
    requires forall k :: 0 <= k <= |polls| ==> looks[k] == Grown(atRename, polls, k)
    requires StopsInsideALine(atRename, size, polls)
    ensures EndsTorn(looks, size)
  {
    forall k | 0 < k <= |polls|
      ensures TornAt(looks, size, k)
    {
      Silence(atRename, polls, 1, k);
      assert looks[k] == Grown(atRename, polls, 1);
    }
  }

  /** How far a drain without faults has come when the writer stops. */
  ghost predicate Progress(looks: seq<seq<Byte>>, size: nat, quiet: nat, used: nat, offset: nat, stable: nat)
    requires used < |looks|
  {
    && (stable > 0 ==> offset == |looks[used]|)
    && (EndsQuietly(looks, size, quiet) && used > quiet ==> offset == |looks[used]| && stable + quiet + 1 >= used)
    && (EndsTorn(looks, size) && used >= 1 ==> offset < |looks[used]|)
  }

  lemma Progresses(looks: seq<seq<Byte>>, size: nat, quiet: nat, used: nat,
                   offset: nat, stable: nat, offset': nat, stable': nat)
    requires 0 < used < |looks| && size <= |looks[used]| && offset' <= |looks[used]|
    requires Progress(looks, size, quiet, used - 1, offset, stable)
    requires offset' == |looks[used]| <==> AtBoundary(looks[used][size..])
    requires stable' == if |looks[used]| == offset then stable + 1 else 0
    requires stable' > 0 ==> offset' == offset
    ensures Progress(looks, size, quiet, used, offset', stable')
  {
    if EndsQuietly(looks, size, quiet) && used > quiet {
      assert QuietAt(looks, size, quiet, used);
      assert used > quiet + 1 ==> QuietAt(looks, size, quiet, used - 1);
    }
    if EndsTorn(looks, size) {
      assert TornAt(looks, size, used);
    }
  }

  lemma FullyProgressed(looks: seq<seq<Byte>>, size: nat, quiet: nat, used: nat, offset: nat, stable: nat)
    requires used + 1 == |looks| && Progress(looks, size, quiet, used, offset, stable) && stable < 2
    ensures !EndsQuietly(looks, size, quiet)
  {
  }

  lemma TwiceStable(looks: seq<seq<Byte>>, size: nat, quiet: nat, used: nat, offset: nat, stable: nat)
    requires 0 < used < |looks| && Progress(looks, size, quiet, used, offset, stable) && stable >= 2
    ensures !EndsTorn(looks, size)
  {
  }

  /** The drain loop over what its looks find. It never takes more rounds than there are `faults`, the source's
      cap. */
  method DrainLooks(rules: Rules, looks: seq<seq<Byte>>, faults: seq<Fault>, size: nat, published: seq<Byte>,
                    ghost quiet: nat)
    returns (error: Option<DrainError>, file: seq<Byte>, used: nat, offset: nat, ghost end: nat)
    requires Growing(looks, |faults|, size)
    ensures used <= |faults| && Between(rules, looks[used], size, offset, end, published, file)
    ensures error != Some(NotAppended) ==> Sound(rules, looks[used], size, offset, published, file)
    ensures error.None? ==> used >= 2 && offset == |looks[used]|
    ensures error == Some(KeptGrowing) ==> used == |faults|
    ensures error.Some? && error != Some(KeptGrowing) ==>
              used > 0 && !faults[used - 1].NoFault? && error == Some(Told(faults[used - 1]))
    ensures error == Some(KeptGrowing) ==> !EndsQuietly(looks, size, quiet)
    ensures error.None? ==> !EndsTorn(looks, size)
  {
    var stable := 0;
    error, file, used, offset, end := None, published, 0, size, size;
    while stable < 2
      invariant error.None? && used <= |faults| && stable <= used
      invariant Sound(rules, looks[used], size, offset, published, file)
      invariant stable > 0 ==> offset == |looks[used]|
      invariant Progress(looks, size, quiet, used, offset, stable)
      decreases |faults| - used
    {
      SoundIsBetween(rules, looks[used], size, offset, published, file);
      if used >= |faults| {
        FullyProgressed(looks, size, quiet, used, offset, stable);
        return Some(KeptGrowing), file, used, offset, offset;
      }
      assert Grows(looks, used);
      StaysSound(rules, looks[used], looks[used + 1], size, offset, published, file);
      used := used + 1;
      ghost var offset0, stable0 := offset, stable;
      error, file, offset, stable, end :=
        Look(rules, looks[used], size, offset, published, file, stable, faults[used - 1]);
      if error.Some? {
        return;
      }
      Progresses(looks, size, quiet, used, offset0, stable0, offset, stable);
    }
    SoundIsBetween(rules, looks[used], size, offset, published, file);
    TwiceStable(looks, size, quiet, used, offset, stable);
    end := offset;
  }

  /** The drain loop. `size` is what the plan read; the bytes of the replaced file from there on are the
      tail. `used` rounds were taken and `offset` is how far the drain got.

      Without an error the appended bytes are exactly the scrub of the whole tail as of the last look, in
      order and once, and no partial line is left behind. With one, they are at least the scrub of the lines
      up to `offset` and at most that of the lines up to `end`, cut short anywhere. The loop never takes more
      rounds than `polls` has, the source's cap; a writer that stops on a line end two rounds before that is fully
      drained, and one that stops inside a line is never taken for finished. */
  method DrainReplacedTail(rules: Rules, atRename: seq<Byte>, size: nat, published: seq<Byte>, polls: seq<Poll>,
                           ghost quiet: nat)
    returns (error: Option<DrainError>, file: seq<Byte>, used: nat, offset: nat, replaced: seq<Byte>, ghost end: nat)
    requires size <= |atRename|
    ensures used <= |polls| && replaced == Grown(atRename, polls, used)
    ensures Between(rules, replaced, size, offset, end, published, file)
    ensures error != Some(NotAppended) ==> Sound(rules, replaced, size, offset, published, file)
    ensures error.None? ==>
              used >= 2 && offset == |replaced| && file == published + ScrubAll(rules, replaced[size..]).out
    ensures error == Some(KeptGrowing) ==> used == |polls|
    ensures error.Some? && error != Some(KeptGrowing) ==> used > 0 && error == Some(Told(polls[used - 1].fault))
    ensures Faultless(polls) && StopsOnALineEnd(atRename, size, polls, quiet) ==> error.None?
    ensures Faultless(polls) && StopsInsideALine(atRename, size, polls) ==> error == Some(KeptGrowing)
  {
    var looks := seq(|polls| + 1, k requires 0 <= k <= |polls| => Grown(atRename, polls, k));
    var faults := seq(|polls|, k requires 0 <= k < |polls| => polls[k].fault);
    GrownIsGrowing(atRename, polls, size, looks);
    if StopsOnALineEnd(atRename, size, polls, quiet) { QuietLooks(atRename, polls, size, looks, quiet); }
    if StopsInsideALine(atRename, size, polls) { TornLooks(atRename, polls, size, looks); }
    error, file, used, offset, end := DrainLooks(rules, looks, faults, size, published, quiet);
    replaced := looks[used];
    if error.None? {
      UpToTheEnd(replaced, size, offset);
    }
  }

  // ---- the whole rewrite ----------------------------------------------------------------------------

  lemma {:induction false} NothingToRewrite(rules: Rules, data: seq<Byte>)
    requires ScrubAll(rules, data).rewrite == 0
    ensures ScrubAll(rules, data).out == data
    decreases |data|
  {
    if data != [] {
      var line, rest := Lines(rules, data);
      NothingToRewrite(rules, rest);
    }
  }

  lemma Lines(rules: Rules, data: seq<Byte>) returns (line: seq<Byte>, rest: seq<Byte>)
    requires data != []
    ensures data == line + rest && |rest| < |data|
    ensures ScrubAll(rules, data) == Plus(ScrubLine(rules, line), ScrubAll(rules, rest))
  {
    var n := FirstLine(data);
    line, rest := data[..n], data[n..];
  }

  lemma WholeScrub(rules: Rules, planned: seq<Byte>, whole: seq<Byte>)
    requires planned <= whole
    ensures AtBoundary(planned) ==>
              ScrubAll(rules, whole).out == ScrubAll(rules, planned).out + ScrubAll(rules, whole[|planned|..]).out
  {
    if AtBoundary(planned) {
      assert whole == planned + whole[|planned|..];
      ScrubDistributes(rules, planned, whole[|planned|..]);
    }
  }

  /** What the writer and the machine do between the plan's read and the rename. `touched` says that the
      modification time moved without the size. */
  datatype Window = Window(
    stagingFails: bool,
    beforeStat: seq<Byte>, statFails: bool, touched: bool,
    beforeRename: seq<Byte>, renameFails: bool)

  datatype ReplaceError = NotStaged | Changed | NotReplaced | Draining(error: DrainError)

  /** What the path holds and, once it has been replaced, what the old file holds. */
  datatype Disk = Untouched(file: seq<Byte>) | Replaced(file: seq<Byte>, original: seq<Byte>)

  /** `planScrub` and `replaceScrubbed`: `planned` is what the plan read. A run that ends well has put at
      the path the scrub of the old file as a whole, everything the writer had added to it by the last
      look included, as long as the plan stopped at a line end. A run that refuses has changed nothing. */
  method ReplaceScrubbed(rules: Rules, planned: seq<Byte>, window: Window, polls: seq<Poll>)
    returns (error: Option<ReplaceError>, disk: Disk)
    ensures disk.Untouched? ==> planned <= disk.file <= planned + (window.beforeStat + window.beforeRename)
    ensures window.beforeStat != [] || window.touched ==> disk.Untouched?
    // Each refusal is told as what it is.
    ensures error == Some(NotStaged) <==>
              ScrubAll(rules, planned).rewrite > 0 && (window.stagingFails || window.statFails)
    ensures error == Some(Changed) <==>
              && ScrubAll(rules, planned).rewrite > 0 && !window.stagingFails && !window.statFails
              && (window.beforeStat != [] || window.touched)
    ensures error == Some(NotReplaced) <==>
              && ScrubAll(rules, planned).rewrite > 0 && !window.stagingFails && !window.statFails
              && window.beforeStat == [] && !window.touched && window.renameFails
    ensures error.None? && disk.Untouched? <==> ScrubAll(rules, planned).rewrite == 0
    ensures error.None? && disk.Untouched? ==> disk.file == planned == ScrubAll(rules, planned).out
    ensures disk.Replaced? ==> planned <= disk.original && ScrubAll(rules, planned).out <= disk.file
    ensures error.None? && disk.Replaced? ==>
              && AtBoundary(disk.original[|planned|..])
              && (AtBoundary(planned) ==> disk.file == ScrubAll(rules, disk.original).out)
    ensures disk.Replaced? <==> if error.None? then ScrubAll(rules, planned).rewrite > 0 else error.value.Draining?
  {
    var out, _, rewrite, _ := ScrubLines(rules, planned);
    if rewrite == 0 {
      NothingToRewrite(rules, planned);
      return None, Untouched(planned);
    }
    if window.stagingFails {
      return Some(NotStaged), Untouched(planned);
    }
    var now := planned + window.beforeStat;
    assert now + window.beforeRename == planned + (window.beforeStat + window.beforeRename);
    if window.statFails {
      return Some(NotStaged), Untouched(now);
    }
    if |now| != |planned| || window.touched {
      return Some(Changed), Untouched(now);
    }
    var atRename := now + window.beforeRename;
    if window.renameFails {
      return Some(NotReplaced), Untouched(atRename);
    }
    var failed, file, original := AfterRename(rules, planned, out, atRename, polls);
    error, disk := if failed.Some? then Some(Draining(failed.value)) else None, Replaced(file, original);
  }

  method AfterRename(rules: Rules, planned: seq<Byte>, out: seq<Byte>, atRename: seq<Byte>, polls: seq<Poll>)
    returns (failed: Option<DrainError>, file: seq<Byte>, original: seq<Byte>)
    requires out == ScrubAll(rules, planned).out && planned <= atRename
    ensures planned <= original && out <= file
    ensures failed.None? ==>
              && AtBoundary(original[|planned|..])
              && (AtBoundary(planned) ==> file == ScrubAll(rules, original).out)
  {
    var used, offset;
    ghost var end;
    failed, file, used, offset, original, end := DrainReplacedTail(rules, atRename, |planned|, out, polls, 0);
    GrownExtends(atRename, polls, used);
    WholeScrub(rules, planned, original);
  }
}

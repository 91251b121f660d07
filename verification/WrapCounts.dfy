/** The greedy folding of a row of counts, and how few lines it needs.

    Columns are characters; Go's `len` of the separator and of the mark counts bytes, and the middle dot
    is two bytes, so the source budgets one column more for each than they take. */
module WrapCounts {

  const REPORT_WIDTH := 80
  const SEP := " · "
  const MARK := " ·"
  const SEP_BYTES := 4
  const MARK_BYTES := 3

  function Spaces(n: nat): (s: string)
    ensures |s| == n && forall k :: 0 <= k < n ==> s[k] == ' '
  {
    seq(n, _ => ' ')
  }

  function Join(parts: seq<string>): string
    requires parts != []
    decreases |parts|
  {
    if |parts| == 1 then parts[0] else Join(parts[..|parts| - 1]) + SEP + parts[|parts| - 1]
  }

  /** A row reads from its first part to its last, one separator between any two. */
  lemma {:induction false} JoinReadsInOrder(a: seq<string>, b: seq<string>, part: string)
    requires a != [] && b != []
    ensures Join([part]) == part
    ensures Join(a + b) == Join(a) + " · " + Join(b)
    decreases |b|
  {
    var n := |b| - 1;
    assert (a + b)[..|a| + n] == a + b[..n];
    if n == 0 {
      assert a + b[..0] == a && b == [b[0]];
    } else {
      JoinReadsInOrder(a, b[..n], part);
      assert Join(a) + " · " + (Join(b[..n]) + " · " + b[n]) == (Join(a) + " · " + Join(b[..n])) + " · " + b[n];
    }
  }

  /** The columns of parts[i..j] joined. */
  function Columns(parts: seq<string>, i: nat, j: nat): nat
    requires i < j <= |parts|
    decreases j
  {
    if j == i + 1 then |parts[i]| else Columns(parts, i, j - 1) + 3 + |parts[j - 1]|
  }

  lemma {:induction false} JoinColumns(parts: seq<string>, i: nat, j: nat)
    requires i < j <= |parts|
    ensures |Join(parts[i..j])| == Columns(parts, i, j)
    decreases j
  {
    if j > i + 1 {
      JoinColumns(parts, i, j - 1);
      assert parts[i..j][..j - i - 1] == parts[i..j - 1];
    }
  }

  /** A width rule: how wide a line of several parts may be before its mark, inside the row and at its
      end. A part that is alone on its line is never refused. */
  datatype Rule = Rule(inner: int, last: int)

  /** The rule the source's arithmetic applies. */
  const Applied := Rule(REPORT_WIDTH - MARK_BYTES - 1, REPORT_WIDTH - 1)

  /** The rule its comment states: eighty columns, the two of the mark included. */
  const Documented := Rule(REPORT_WIDTH - |MARK|, REPORT_WIDTH)

  predicate LineFits(rule: Rule, indent: nat, parts: seq<string>, i: nat, j: nat)
    requires i < j <= |parts|
  {
    j == i + 1 || indent + Columns(parts, i, j) <= if j == |parts| then rule.last else rule.inner
  }

  /** `ends` cuts parts[from..] into consecutive nonempty lines: the k-th line ends before ends[k]. */
  predicate Cuts(parts: seq<string>, from: nat, ends: seq<nat>)
    decreases |ends|
  {
    && ends != [] && from < ends[0] <= |parts|
    && (if |ends| == 1 then ends[0] == |parts| else Cuts(parts, ends[0], ends[1..]))
  }

  /** A folding of parts[from..] that obeys the rule on every line. */
  predicate Folding(rule: Rule, indent: nat, parts: seq<string>, from: nat, ends: seq<nat>)
    decreases |ends|
  {
    && Cuts(parts, from, ends)
    && LineFits(rule, indent, parts, from, ends[0])
    && (|ends| > 1 ==> Folding(rule, indent, parts, ends[0], ends[1..]))
  }

  /** Where the greedy line that already holds parts[i..j] ends. */
  function Extend(rule: Rule, indent: nat, parts: seq<string>, i: nat, j: nat): (e: nat)
    requires i < j <= |parts|
    ensures j <= e <= |parts|
    decreases |parts| - j
  {
    if j < |parts| && LineFits(rule, indent, parts, i, j + 1) then Extend(rule, indent, parts, i, j + 1) else j
  }

  /** The rest of the greedy folding, from a line that holds parts[i..j]. */
  function GreedyFrom(rule: Rule, indent: nat, parts: seq<string>, i: nat, j: nat): seq<nat>
    requires i < j <= |parts|
    decreases |parts| - i
  {
    var e := Extend(rule, indent, parts, i, j);
    [e] + (if e == |parts| then [] else GreedyFrom(rule, indent, parts, e, e + 1))
  }

  function Text(title: string, parts: seq<string>, from: nat, to: nat): string
    requires from < to <= |parts|
  {
    (if from == 0 then title else Spaces(|title|)) + Join(parts[from..to])
  }

  /** The lines of a folding: continuations are indented to the label, every line but the last is marked. */
  function Render(title: string, parts: seq<string>, from: nat, ends: seq<nat>): (lines: seq<string>)
    requires Cuts(parts, from, ends)
    ensures |lines| == |ends|
    decreases |ends|
  {
    if |ends| == 1 then [Text(title, parts, from, ends[0])]
    else [Text(title, parts, from, ends[0]) + MARK] + Render(title, parts, ends[0], ends[1..])
  }

  lemma {:induction false} GreedyCuts(rule: Rule, indent: nat, parts: seq<string>, i: nat, j: nat)
    requires i < j <= |parts|
    ensures Cuts(parts, i, GreedyFrom(rule, indent, parts, i, j))
    decreases |parts| - i
  {
    var e := Extend(rule, indent, parts, i, j);
    FirstCut(rule, indent, parts, i, j);
    if e < |parts| {
      GreedyCuts(rule, indent, parts, e, e + 1);
      CutBefore(parts, i, e, GreedyFrom(rule, indent, parts, e, e + 1));
    } else {
      LastCut(parts, i);
    }
  }

  lemma FirstCut(rule: Rule, indent: nat, parts: seq<string>, i: nat, j: nat)
    requires i < j <= |parts|
    ensures
      var e := Extend(rule, indent, parts, i, j);
      var rest := if e == |parts| then [] else GreedyFrom(rule, indent, parts, e, e + 1);
      GreedyFrom(rule, indent, parts, i, j) == [e] + rest
  {
  }

  lemma CutBefore(parts: seq<string>, from: nat, first: nat, ends: seq<nat>)
    requires from < first <= |parts| && Cuts(parts, first, ends)
    ensures Cuts(parts, from, [first] + ends)
  {
    assert ([first] + ends)[1..] == ends;
  }

  lemma LastCut(parts: seq<string>, from: nat)
    requires from < |parts|
    ensures Cuts(parts, from, [|parts|] + [])
  {
  }

  // ---- greedy is optimal --------------------------------------------------------------------------

  /** Shortening a line that fits, at either end, leaves a line that fits. It needs the rule to charge an
      interior line at most a separator more than the last line. */
  predicate Sensible(rule: Rule) { rule.inner <= rule.last <= rule.inner + 3 }

  lemma {:induction false} ColumnsShrink(parts: seq<string>, i: nat, j: nat, i': nat, j': nat)
    requires i <= i' < j' <= j <= |parts|
    ensures Columns(parts, i', j') + 3 * ((j - j') + (i' - i)) <= Columns(parts, i, j)
    decreases j
  {
    if j' < j {
      ColumnsShrink(parts, i, j - 1, i', j');
    } else if i < i' && i' + 1 < j {
      ColumnsShrink(parts, i, j - 1, i', j - 1);
    } else if i < i' {
      ColumnsShrink(parts, i, j - 1, i, i + 1);
    }
  }

  lemma {:induction false} PartsOfFittingLinesFit(
      rule: Rule, indent: nat, parts: seq<string>, i: nat, j: nat, i': nat, j': nat)
    requires Sensible(rule)
    requires i <= i' < j' <= j <= |parts| && LineFits(rule, indent, parts, i, j)
    ensures LineFits(rule, indent, parts, i', j')
  {
    ColumnsShrink(parts, i, j, i', j');
  }

  /** The greedy line from i reaches at least as far as any line from i that fits. */
  lemma {:induction false} ExtendReaches(rule: Rule, indent: nat, parts: seq<string>, i: nat, j: nat, e: nat)
    requires Sensible(rule)
    requires i < j <= e <= |parts| && LineFits(rule, indent, parts, i, e)
    ensures e <= Extend(rule, indent, parts, i, j)
    decreases e - j
  {
    if j < e {
      PartsOfFittingLinesFit(rule, indent, parts, i, e, i, j + 1);
      ExtendReaches(rule, indent, parts, i, j + 1, e);
    }
  }

  lemma {:induction false} ExtendFits(rule: Rule, indent: nat, parts: seq<string>, i: nat, j: nat)
    requires i < j <= |parts| && LineFits(rule, indent, parts, i, j)
    ensures LineFits(rule, indent, parts, i, Extend(rule, indent, parts, i, j))
    decreases |parts| - j
  {
    if j < |parts| && LineFits(rule, indent, parts, i, j + 1) {
      ExtendFits(rule, indent, parts, i, j + 1);
    }
  }

  lemma {:induction false} GreedyFolds(rule: Rule, indent: nat, parts: seq<string>, i: nat)
    requires i < |parts|
    ensures Folding(rule, indent, parts, i, GreedyFrom(rule, indent, parts, i, i + 1))
    decreases |parts| - i
  {
    var e := Extend(rule, indent, parts, i, i + 1);
    GreedyCuts(rule, indent, parts, i, i + 1);
    ExtendFits(rule, indent, parts, i, i + 1);
    if e < |parts| {
      GreedyFolds(rule, indent, parts, e);
      assert GreedyFrom(rule, indent, parts, i, i + 1)[1..] == GreedyFrom(rule, indent, parts, e, e + 1);
    }
  }

  /** How many lines the greedy folding of parts[i..] takes. */
  function GreedyCount(rule: Rule, indent: nat, parts: seq<string>, i: nat): nat
    requires i <= |parts|
  {
    if i == |parts| then 0 else |GreedyFrom(rule, indent, parts, i, i + 1)|
  }

  lemma OneLineThenTheRest(rule: Rule, indent: nat, parts: seq<string>, i: nat)
    requires i < |parts|
    ensures GreedyCount(rule, indent, parts, i)
         == 1 + GreedyCount(rule, indent, parts, Extend(rule, indent, parts, i, i + 1))
  {
  }

  lemma LaterStartReachesAsFar(rule: Rule, indent: nat, parts: seq<string>, i: nat, i': nat)
    requires Sensible(rule) && i <= i' < |parts|
    ensures Extend(rule, indent, parts, i, i + 1) <= Extend(rule, indent, parts, i', i' + 1)
  {
    var e := Extend(rule, indent, parts, i, i + 1);
    if e > i' {
      ExtendFits(rule, indent, parts, i, i + 1);
      PartsOfFittingLinesFit(rule, indent, parts, i, e, i', e);
      ExtendReaches(rule, indent, parts, i', i' + 1, e);
    }
  }

  /** Starting later never costs more lines. */
  lemma {:induction false} LaterStartIsNoWorse(rule: Rule, indent: nat, parts: seq<string>, i: nat, i': nat)
    requires Sensible(rule) && i <= i' <= |parts|
    ensures GreedyCount(rule, indent, parts, i') <= GreedyCount(rule, indent, parts, i)
    decreases |parts| - i
  {
    if i' < |parts| {
      LaterStartReachesAsFar(rule, indent, parts, i, i');
      OneLineThenTheRest(rule, indent, parts, i);
      OneLineThenTheRest(rule, indent, parts, i');
      LaterStartIsNoWorse(rule, indent, parts,
        Extend(rule, indent, parts, i, i + 1), Extend(rule, indent, parts, i', i' + 1));
    }
  }

  lemma FirstLine(rule: Rule, indent: nat, parts: seq<string>, from: nat, ends: seq<nat>)
    requires Folding(rule, indent, parts, from, ends)
    ensures from < ends[0] <= |parts| && LineFits(rule, indent, parts, from, ends[0])
    ensures |ends| > 1 ==> ends[0] < |parts| && Folding(rule, indent, parts, ends[0], ends[1..])
    ensures |ends| == 1 ==> ends[0] == |parts|
  {
  }

  /** No folding that obeys the rule has fewer lines than the greedy one. */
  lemma {:induction false} GreedyIsFewest(rule: Rule, indent: nat, parts: seq<string>, from: nat, ends: seq<nat>)
    requires Sensible(rule) && Folding(rule, indent, parts, from, ends)
    ensures GreedyCount(rule, indent, parts, from) <= |ends|
    decreases |ends|
  {
    FirstLine(rule, indent, parts, from, ends);
    ExtendReaches(rule, indent, parts, from, from + 1, ends[0]);
    if |ends| > 1 {
      GreedyIsFewest(rule, indent, parts, ends[0], ends[1..]);
    }
    OneLineThenTheRest(rule, indent, parts, from);
    LaterStartIsNoWorse(rule, indent, parts, ends[0], Extend(rule, indent, parts, from, from + 1));
  }

  // ---- the function -------------------------------------------------------------------------------

  /** The rendered rest of the greedy folding, from a line that holds parts[i..j]. */
  function Rest(title: string, parts: seq<string>, i: nat, j: nat): seq<string>
    requires i < j <= |parts|
  {
    GreedyCuts(Applied, |title|, parts, i, j);
    Render(title, parts, i, GreedyFrom(Applied, |title|, parts, i, j))
  }

  /** What the source's test decides: does the next part still fit? */
  lemma {:induction false} TheTestIsTheRule(title: string, parts: seq<string>, i: nat, j: nat)
    requires i < j < |parts|
    ensures
      var room := if j == |parts| - 1 then REPORT_WIDTH else REPORT_WIDTH - MARK_BYTES;
      |Text(title, parts, i, j)| + SEP_BYTES + |parts[j]| <= room <==> LineFits(Applied, |title|, parts, i, j + 1)
  {
    JoinColumns(parts, i, j);
  }

  lemma {:induction false} AppendPart(title: string, parts: seq<string>, i: nat, j: nat)
    requires i < j < |parts|
    ensures Text(title, parts, i, j + 1) == Text(title, parts, i, j) + SEP + parts[j]
  {
    assert parts[i..j + 1][..j - i] == parts[i..j];
  }

  lemma {:induction false} KeepOrFold(title: string, parts: seq<string>, i: nat, j: nat)
    requires i < j < |parts|
    ensures Rest(title, parts, i, j) ==
            if LineFits(Applied, |title|, parts, i, j + 1) then Rest(title, parts, i, j + 1)
            else [Text(title, parts, i, j) + MARK] + Rest(title, parts, j, j + 1)
  {
    if LineFits(Applied, |title|, parts, i, j + 1) {
      KeptCuts(|title|, parts, i, j);
    } else {
      FoldedCuts(|title|, parts, i, j);
      GreedyCuts(Applied, |title|, parts, j, j + 1);
      RenderedBefore(title, parts, i, j, GreedyFrom(Applied, |title|, parts, j, j + 1));
    }
  }

  lemma KeptCuts(indent: nat, parts: seq<string>, i: nat, j: nat)
    requires i < j < |parts| && LineFits(Applied, indent, parts, i, j + 1)
    ensures GreedyFrom(Applied, indent, parts, i, j) == GreedyFrom(Applied, indent, parts, i, j + 1)
  {
    FirstCut(Applied, indent, parts, i, j);
    FirstCut(Applied, indent, parts, i, j + 1);
  }

  lemma FoldedCuts(indent: nat, parts: seq<string>, i: nat, j: nat)
    requires i < j < |parts| && !LineFits(Applied, indent, parts, i, j + 1)
    ensures GreedyFrom(Applied, indent, parts, i, j) == [j] + GreedyFrom(Applied, indent, parts, j, j + 1)
  {
    FirstCut(Applied, indent, parts, i, j);
  }

  lemma RenderedBefore(title: string, parts: seq<string>, i: nat, j: nat, ends: seq<nat>)
    requires i < j <= |parts| && Cuts(parts, j, ends)
    ensures Cuts(parts, i, [j] + ends)
    ensures Render(title, parts, i, [j] + ends) == [Text(title, parts, i, j) + MARK] + Render(title, parts, j, ends)
  {
    assert ([j] + ends)[1..] == ends;
  }

  lemma Append(lines: seq<string>, line: string, rest: seq<string>)
    ensures lines + ([line] + rest) == (lines + [line]) + rest
  {
  }

  lemma LastLine(title: string, parts: seq<string>, i: nat)
    requires i < |parts|
    ensures Rest(title, parts, i, |parts|) == [Text(title, parts, i, |parts|)]
  {
    assert GreedyFrom(Applied, |title|, parts, i, |parts|) == [|parts|];
  }

  lemma StartOfLine(title: string, parts: seq<string>, i: nat)
    requires i < |parts|
    ensures Text(title, parts, i, i + 1) == (if i == 0 then title else Spaces(|title|)) + parts[i]
  {
    assert parts[i..i + 1] == [parts[i]];
  }

  /** The loop. The result renders a folding that keeps every part once and in order, obeys the applied
      rule, and has the fewest lines of all that do. */
  method WrapCounts(title: string, parts: seq<string>) returns (lines: seq<string>, ghost ends: seq<nat>)
    ensures parts == [] ==> lines == [title + "none"]
    ensures parts != [] ==>
              && Folding(Applied, |title|, parts, 0, ends)
              && lines == Render(title, parts, 0, ends)
              && forall other :: Folding(Applied, |title|, parts, 0, other) ==> |lines| <= |other|
  {
    ends := [];
    if parts == [] {
      return [title + "none"], [];
    }
    var indent := Spaces(|title|);
    lines := [];
    var line := title + parts[0];
    ghost var start := 0;
    StartOfLine(title, parts, 0);
    for k := 1 to |parts|
      invariant start < k <= |parts|
      invariant line == Text(title, parts, start, k)
      invariant lines + Rest(title, parts, start, k) == Rest(title, parts, 0, 1)
    {
      var room := if k == |parts| - 1 then REPORT_WIDTH else REPORT_WIDTH - MARK_BYTES;
      TheTestIsTheRule(title, parts, start, k);
      KeepOrFold(title, parts, start, k);
      if |line| + SEP_BYTES + |parts[k]| <= room {
        AppendPart(title, parts, start, k);
        line := line + SEP + parts[k];
      } else {
        Append(lines, line + MARK, Rest(title, parts, k, k + 1));
        lines := lines + [line + MARK];
        StartOfLine(title, parts, k);
        line := indent + parts[k];
        start := k;
      }
    }
    LastLine(title, parts, start);
    lines := lines + [line];
    ends := GreedyFrom(Applied, |title|, parts, 0, 1);
    GreedyIsBest(Applied, |title|, parts);
  }

  lemma GreedyIsBest(rule: Rule, indent: nat, parts: seq<string>)
    requires Sensible(rule) && parts != []
    ensures
      var ends := GreedyFrom(rule, indent, parts, 0, 1);
      && Folding(rule, indent, parts, 0, ends)
      && forall other :: Folding(rule, indent, parts, 0, other) ==> |ends| <= |other|
  {
    GreedyFolds(rule, indent, parts, 0);
    forall other | Folding(rule, indent, parts, 0, other)
      ensures GreedyCount(rule, indent, parts, 0) <= |other|
    {
      GreedyIsFewest(rule, indent, parts, 0, other);
    }
  }

  // ---- what the lines look like -------------------------------------------------------------------

  /** The parts on the k-th line of a folding. */
  function Group(parts: seq<string>, from: nat, ends: seq<nat>, k: nat): seq<string>
    requires Cuts(parts, from, ends) && k < |ends|
    decreases k
  {
    if k == 0 then parts[from..ends[0]] else Group(parts, ends[0], ends[1..], k - 1)
  }

  /** The first k lines of a folding hold its first parts, in order. */
  function Gathered(parts: seq<string>, from: nat, ends: seq<nat>, k: nat): seq<string>
    requires Cuts(parts, from, ends) && k <= |ends|
    decreases k
  {
    if k == 0 then [] else Gathered(parts, from, ends, k - 1) + Group(parts, from, ends, k - 1)
  }

  lemma {:induction false} GatheredShifts(parts: seq<string>, from: nat, ends: seq<nat>, k: nat)
    requires Cuts(parts, from, ends) && 1 <= k <= |ends|
    ensures Gathered(parts, from, ends, k)
         == parts[from..ends[0]] + (if k == 1 then [] else Gathered(parts, ends[0], ends[1..], k - 1))
    decreases k
  {
    if k > 1 {
      GatheredShifts(parts, from, ends, k - 1);
    }
  }

  /** Every part is on exactly one line and the lines read in the parts' order. */
  lemma {:induction false} FoldingKeepsEveryPart(parts: seq<string>, from: nat, ends: seq<nat>)
    requires Cuts(parts, from, ends)
    ensures Gathered(parts, from, ends, |ends|) == parts[from..]
    decreases |ends|
  {
    GatheredShifts(parts, from, ends, |ends|);
    if |ends| > 1 {
      FoldingKeepsEveryPart(parts, ends[0], ends[1..]);
      assert parts[from..] == parts[from..ends[0]] + parts[ends[0]..];
    }
  }

  /** A rendered line is its prefix, its parts, and a mark unless it is the last; one that holds several
      parts fits the report, mark included. */
  lemma {:induction false} LinesFitTheReport(title: string, parts: seq<string>, from: nat, ends: seq<nat>, k: nat)
    requires Folding(Applied, |title|, parts, from, ends) && k < |ends|
    ensures Group(parts, from, ends, k) != []
    ensures IsLine(title, Render(title, parts, from, ends)[k], Group(parts, from, ends, k),
                   from == 0 && k == 0, k == |ends| - 1)
    decreases k
  {
    FirstLine(Applied, |title|, parts, from, ends);
    if k > 0 {
      LaterRendered(title, parts, from, ends, k);
      LinesFitTheReport(title, parts, ends[0], ends[1..], k - 1);
    } else {
      FirstRendered(title, parts, from, ends);
      OneLineFits(title, parts, from, ends[0]);
    }
  }

  predicate IsLine(title: string, line: string, group: seq<string>, first: bool, last: bool)
    requires group != []
  {
    && line == (if first then title else Spaces(|title|)) + Join(group) + (if last then "" else " ·")
    && (|group| > 1 ==> |line| <= if last then REPORT_WIDTH - 1 else REPORT_WIDTH - 2)
  }

  lemma LaterRendered(title: string, parts: seq<string>, from: nat, ends: seq<nat>, k: nat)
    requires Cuts(parts, from, ends) && 0 < k < |ends|
    ensures Render(title, parts, from, ends)[k] == Render(title, parts, ends[0], ends[1..])[k - 1]
    ensures Group(parts, from, ends, k) == Group(parts, ends[0], ends[1..], k - 1)
  {
  }

  lemma FirstRendered(title: string, parts: seq<string>, from: nat, ends: seq<nat>)
    requires Cuts(parts, from, ends)
    ensures Render(title, parts, from, ends)[0]
         == Text(title, parts, from, ends[0]) + (if |ends| == 1 then "" else MARK)
  {
  }

  lemma OneLineFits(title: string, parts: seq<string>, i: nat, j: nat)
    requires i < j <= |parts| && LineFits(Applied, |title|, parts, i, j)
    ensures parts[i..j] != []
    ensures |parts[i..j]| > 1 ==>
              |Text(title, parts, i, j)| + (if j == |parts| then 0 else |MARK|)
                <= if j == |parts| then REPORT_WIDTH - 1 else REPORT_WIDTH - 2
  {
    JoinColumns(parts, i, j);
  }

  // ---- the documented width -----------------------------------------------------------------------

  /** The applied and the documented rule agree on a line exactly unless its width falls in the gap the
      byte counts open: two columns before a mark, one at the end of the row. */
  predicate InTheGap(indent: nat, parts: seq<string>, i: nat, j: nat)
    requires i < j <= |parts|
  {
    j > i + 1 &&
    if j == |parts| then indent + Columns(parts, i, j) == REPORT_WIDTH
    else REPORT_WIDTH - 4 < indent + Columns(parts, i, j) <= REPORT_WIDTH - 2
  }

  lemma RulesAgreeOutsideTheGap(indent: nat, parts: seq<string>, i: nat, j: nat)
    requires i < j <= |parts|
    ensures LineFits(Applied, indent, parts, i, j) != LineFits(Documented, indent, parts, i, j)
            <==> InTheGap(indent, parts, i, j)
  {
  }

  /** No line of the applied folding of parts[i..] ends where the documented rule would have gone on. */
  predicate NeverStopsInTheGap(indent: nat, parts: seq<string>, i: nat)
    requires i < |parts|
    decreases |parts| - i
  {
    var e := Extend(Applied, indent, parts, i, i + 1);
    e == |parts| || (!InTheGap(indent, parts, i, e + 1) && NeverStopsInTheGap(indent, parts, e))
  }

  /** A documented line reaches as far as the applied one, and ends with it unless the next part would have
      put it in the gap. */
  lemma {:induction false} LinesAgreeIff(indent: nat, parts: seq<string>, i: nat, j: nat)
    requires i < j <= |parts|
    ensures
      var e := Extend(Applied, indent, parts, i, j);
      Extend(Documented, indent, parts, i, j) == e <==> e == |parts| || !InTheGap(indent, parts, i, e + 1)
    decreases |parts| - j
  {
    if j < |parts| {
      RulesAgreeOutsideTheGap(indent, parts, i, j + 1);
      LinesAgreeIff(indent, parts, i, j + 1);
    }
  }

  /** The code folds a row as its comment says if and only if no line it makes stops in the gap. */
  lemma {:induction false} FoldsAsDocumentedIff(indent: nat, parts: seq<string>, i: nat)
    requires i < |parts|
    ensures GreedyFrom(Applied, indent, parts, i, i + 1) == GreedyFrom(Documented, indent, parts, i, i + 1)
            <==> NeverStopsInTheGap(indent, parts, i)
    decreases |parts| - i
  {
    var e := Extend(Applied, indent, parts, i, i + 1);
    LinesAgreeIff(indent, parts, i, i + 1);
    FirstCut(Applied, indent, parts, i, i + 1);
    FirstCut(Documented, indent, parts, i, i + 1);
    if Extend(Documented, indent, parts, i, i + 1) != e {
      assert GreedyFrom(Applied, indent, parts, i, i + 1)[0] == e;
    } else if e < |parts| {
      FoldsAsDocumentedIff(indent, parts, e);
      SameTails(e, GreedyFrom(Applied, indent, parts, e, e + 1), GreedyFrom(Documented, indent, parts, e, e + 1));
    }
  }

  lemma SameTails(first: nat, a: seq<nat>, b: seq<nat>)
    ensures [first] + a == [first] + b <==> a == b
  {
    assert ([first] + a)[1..] == a && ([first] + b)[1..] == b;
  }

  /** With no line that stops in the gap, the result is also the shortest under the documented columns. */
  lemma {:induction false} FewestUnderTheDocumentedRule(indent: nat, parts: seq<string>, other: seq<nat>)
    requires parts != [] && NeverStopsInTheGap(indent, parts, 0)
    requires Folding(Documented, indent, parts, 0, other)
    ensures GreedyCount(Applied, indent, parts, 0) <= |other|
  {
    FoldsAsDocumentedIff(indent, parts, 0);
    GreedyIsFewest(Documented, indent, parts, 0, other);
  }

  /** For any row, the result is shortest under the documented columns if and only if folding by the
      documented rule would take as many lines; it never takes fewer. */
  lemma {:induction false} FewestUnderTheDocumentedRuleIff(indent: nat, parts: seq<string>)
    requires parts != []
    ensures GreedyCount(Documented, indent, parts, 0) <= GreedyCount(Applied, indent, parts, 0)
    ensures (forall other :: Folding(Documented, indent, parts, 0, other) ==>
               GreedyCount(Applied, indent, parts, 0) <= |other|)
            <==> GreedyCount(Applied, indent, parts, 0) == GreedyCount(Documented, indent, parts, 0)
  {
    GreedyFolds(Applied, indent, parts, 0);
    AppliedFoldingsAreDocumented(indent, parts, 0, GreedyFrom(Applied, indent, parts, 0, 1));
    GreedyIsFewest(Documented, indent, parts, 0, GreedyFrom(Applied, indent, parts, 0, 1));
    GreedyIsBest(Documented, indent, parts);
  }

  lemma {:induction false} AppliedFoldingsAreDocumented(indent: nat, parts: seq<string>, from: nat, ends: seq<nat>)
    requires Folding(Applied, indent, parts, from, ends)
    ensures Folding(Documented, indent, parts, from, ends)
    decreases |ends|
  {
    if |ends| > 1 {
      AppliedFoldingsAreDocumented(indent, parts, ends[0], ends[1..]);
    }
  }

  /** The row stays on one line exactly up to 79 columns; the documented rule would allow 80. */
  lemma {:induction false} OneLineUpTo79(indent: nat, parts: seq<string>)
    requires |parts| > 1
    ensures GreedyCount(Applied, indent, parts, 0) == 1 <==> indent + Columns(parts, 0, |parts|) <= REPORT_WIDTH - 1
    ensures GreedyCount(Documented, indent, parts, 0) == 1 <==> indent + Columns(parts, 0, |parts|) <= REPORT_WIDTH
  {
    OneLineExactly(Applied, indent, parts);
    OneLineExactly(Documented, indent, parts);
  }

  lemma {:induction false} OneLineExactly(rule: Rule, indent: nat, parts: seq<string>)
    requires Sensible(rule) && |parts| > 1
    ensures GreedyCount(rule, indent, parts, 0) == 1 <==> indent + Columns(parts, 0, |parts|) <= rule.last
  {
    ExtendFits(rule, indent, parts, 0, 1);
    var e := Extend(rule, indent, parts, 0, 1);
    OneLineThenTheRest(rule, indent, parts, 0);
    if e < |parts| { OneLineThenTheRest(rule, indent, parts, e); }
    if indent + Columns(parts, 0, |parts|) <= rule.last {
      ExtendReaches(rule, indent, parts, 0, 1, |parts|);
    }
  }

  /** So the documented claim fails: this row of exactly eighty columns is folded. */
  lemma AnEightyColumnRowIsFolded()
    ensures
      var parts := [Spaces(38), Spaces(39)];
      && Folding(Documented, 0, parts, 0, [2])
      && GreedyCount(Applied, 0, parts, 0) == 2
  {
    var parts := [Spaces(38), Spaces(39)];
    assert Columns(parts, 0, 2) == 80;
    OneLineUpTo79(0, parts);
    assert Extend(Applied, 0, parts, 0, 1) == 1;
    assert Extend(Applied, 0, parts, 1, 2) == 2;
    assert GreedyFrom(Applied, 0, parts, 1, 2) == [2];
  }

  /** Rows that the two rules fold differently, into the same number of lines. */
  lemma DifferentFoldingsOfOneLength(parts: seq<string>)
    requires |parts| == 3 && |parts[0]| == 38 && |parts[1]| == 37 && |parts[2]| == 30
    ensures GreedyFrom(Applied, 0, parts, 0, 1) == [1, 3] && GreedyFrom(Documented, 0, parts, 0, 1) == [2, 3]
    ensures !NeverStopsInTheGap(0, parts, 0)
    ensures forall other :: Folding(Documented, 0, parts, 0, other) ==> GreedyCount(Applied, 0, parts, 0) <= |other|
  {
    assert Columns(parts, 0, 2) == 78 && Columns(parts, 0, 3) == 111 && Columns(parts, 1, 3) == 70;
    TwoLines(Applied, parts, 1);
    TwoLines(Documented, parts, 2);
    FoldsAsDocumentedIff(0, parts, 0);
    FewestUnderTheDocumentedRuleIff(0, parts);
  }

  lemma TwoLines(rule: Rule, parts: seq<string>, cut: nat)
    requires |parts| == 3 && 1 <= cut <= 2
    requires cut == 2 ==> LineFits(rule, 0, parts, 0, 2)
    requires !LineFits(rule, 0, parts, 0, cut + 1)
    requires cut == 1 ==> LineFits(rule, 0, parts, 1, 3)
    ensures GreedyFrom(rule, 0, parts, 0, 1) == [cut, 3]
  {
    assert Extend(rule, 0, parts, 0, cut) == cut;
    assert Extend(rule, 0, parts, 0, 1) == cut;
    assert Extend(rule, 0, parts, cut, 3) == 3;
    assert Extend(rule, 0, parts, cut, cut + 1) == 3;
    FirstCut(rule, 0, parts, 0, 1);
    FirstCut(rule, 0, parts, cut, cut + 1);
  }
}

/**
 * The orchestrator of `core/pipeline.py`: the error checks, the complexity
 * analysis, one of the two optimisers and the re-analysis of the optimised
 * code, gathered in a `PipelineResult` that is serialised to a dictionary.
 *
 * The stages are the other modules of this model; here they are taken as
 * functions (`Stages`), so that the gating of `run_pipeline` is stated for
 * whatever the stages return.
 */
module Pipeline {
  import opened Wrappers
  import opened Text
  import ErrorChecker
  import ComplexityChecker
  import LlmOptimizer

  // ------------------------------------------------ level-1 change notes

  const LineSuffix: string := " via dead-code elimination"

  /** The line-reduction note, with a plural "s" for more than one line. */
  function LineMessage(diff: nat): string {
    "Reduced code by " + NatToString(diff) + " line" + (if diff > 1 then "s" else "") + LineSuffix
  }

  // Long notes are written as concatenations so that their characters can be read off.
  const PatternChecks: seq<(string, string)> := [
    ("not not ", "Removed double negation (not not x → x)"),
    (" and True", "Removed redundant 'and True' " + "in boolean expression"),
    (" + 0", "Folded arithmetic identity (x + 0 → x)"),
    (" * 1", "Folded arithmetic identity (x * 1 → x)"),
    (".append(", "Converted append-loop " + "to list comprehension")]

  const LenMessage: string := "Replaced len(x) == 0 " + "with idiomatic 'not x'"
  const FallbackMessage: string := "Applied constant folding " + "and arithmetic simplification"
  const AlreadyOptimal: string := "No rule-based optimizations " + "applicable — code is already optimal"

  /** A row of the pattern table. */
  type Row = k: nat | k < 5

  /** What a change note says, before it is written out as text. */
  datatype Note =
    | LineReduction(diff: nat)
    | PatternNote(row: Row)
    | LenIdiom
    | ConstantFolding
    | AlreadyOptimalNote

  /** The text of a note. */
  function Render(n: Note): string {
    match n
    case LineReduction(d) => LineMessage(d)
    case PatternNote(k) => PatternChecks[k].1
    case LenIdiom => LenMessage
    case ConstantFolding => FallbackMessage
    case AlreadyOptimalNote => AlreadyOptimal
  }

  function RenderAll(ns: seq<Note>): seq<string> {
    seq(|ns|, i requires 0 <= i < |ns| => Render(ns[i]))
  }

  /** `sig in original and sig not in optimized`. */
  predicate Removed(sig: string, original: string, optimized: string) {
    Contains(original, sig) && !Contains(optimized, sig)
  }

  /** `len(s.strip().splitlines())`. */
  function LineCount(s: string): nat {
    |SplitLines(Strip(s))|
  }

  /** The line-reduction note, when the stripped optimised code has fewer lines. */
  function LineNotes(original: string, optimized: string): (ns: seq<Note>)
    ensures ns == [] || (|ns| == 1 && ns[0].LineReduction?)
  {
    if LineCount(optimized) < LineCount(original) then [LineReduction(LineCount(original) - LineCount(optimized))]
    else []
  }

  lemma LineNotesShrunk(original: string, optimized: string)
    requires LineCount(optimized) < LineCount(original)
    ensures LineNotes(original, optimized) == [LineReduction(LineCount(original) - LineCount(optimized))]
  {
  }

  /** The notes of the first `n` table rows whose signature the rewrite removed, in table order. */
  function PatternNotes(original: string, optimized: string, n: nat): (ns: seq<Note>)
    requires n <= |PatternChecks|
    ensures forall i :: 0 <= i < |ns| ==> ns[i].PatternNote? && ns[i].row < n
  {
    if n == 0 then []
    else
      PatternNotes(original, optimized, n - 1) + PatternRow(original, optimized, n - 1)
  }

  /** The note of one table row, when the rewrite removed its signature. */
  function PatternRow(original: string, optimized: string, k: Row): seq<Note> {
    if Removed(PatternChecks[k].0, original, optimized) then [PatternNote(k)] else []
  }

  /** The `len(` note: `len(` gone and `not ` present in the optimised code. */
  function LenNotes(original: string, optimized: string): (ns: seq<Note>)
    ensures ns == [] || ns == [LenIdiom]
  {
    if Removed("len(", original, optimized) && Contains(optimized, "not ") then [LenIdiom] else []
  }

  /** The notes found by the line count, the pattern table and the `len(` check, in that order. */
  function FoundNotes(original: string, optimized: string): seq<Note> {
    LineNotes(original, optimized) + PatternNotes(original, optimized, |PatternChecks|) + LenNotes(original, optimized)
  }

  /** The found notes, then the fallback when none was found and the code changed, then the sentinel when it did not. */
  function Assemble(found: seq<Note>, same: bool): seq<Note> {
    found + (if found == [] && !same then [ConstantFolding] else [])
          + (if same then [AlreadyOptimalNote] else [])
  }

  /** The notes of `_detect_l1_changes(original, optimized)`, in the order they are appended. */
  function L1Notes(original: string, optimized: string): seq<Note> {
    Assemble(FoundNotes(original, optimized), Strip(original) == Strip(optimized))
  }

  /** `_detect_l1_changes(original, optimized)`. */
  function L1Changes(original: string, optimized: string): seq<string> {
    RenderAll(L1Notes(original, optimized))
  }

  lemma RenderSnoc(ns: seq<Note>, n: Note)
    ensures RenderAll(ns + [n]) == RenderAll(ns) + [Render(n)]
  {
  }

  lemma RenderSingle(n: Note)
    ensures RenderAll([n]) == [Render(n)]
  {
  }

  lemma RenderAppend(a: seq<Note>, b: seq<Note>)
    ensures RenderAll(a + b) == RenderAll(a) + RenderAll(b)
  {
  }

  /** The texts of the assembled list: the found texts, then the fallback and the sentinel texts. */
  lemma RenderAssemble(found: seq<Note>, same: bool)
    ensures RenderAll(Assemble(found, same)) ==
            RenderAll(found) + (if found == [] && !same then [FallbackMessage] else [])
                             + (if same then [AlreadyOptimal] else [])
  {
    var fb := if found == [] && !same then [ConstantFolding] else [];
    var st := if same then [AlreadyOptimalNote] else [];
    RenderAppend(found + fb, st);
    RenderAppend(found, fb);
  }

  /** The loop over the pattern table of `_detect_l1_changes`. */
  method PatternChanges(original: string, optimized: string) returns (changes: seq<string>)
    ensures changes == RenderAll(PatternNotes(original, optimized, |PatternChecks|))
  {
    changes := [];
    for k := 0 to |PatternChecks|
      invariant changes == RenderAll(PatternNotes(original, optimized, k))
    {
      var step := PatternStep(original, optimized, k);
      RenderAppend(PatternNotes(original, optimized, k), PatternRow(original, optimized, k));
      changes := changes + step;
    }
  }

  /** One row of the pattern table: its note when the rewrite removed its signature. */
  method PatternStep(original: string, optimized: string, k: Row) returns (step: seq<string>)
    ensures step == RenderAll(PatternRow(original, optimized, k))
  {
    var sig, description := PatternChecks[k].0, PatternChecks[k].1;
    step := [];
    if Contains(original, sig) && !Contains(optimized, sig) {
      step := [description];
    }
  }

  /** The line-count step of `_detect_l1_changes`. */
  method LineChanges(original: string, optimized: string) returns (changes: seq<string>)
    ensures changes == RenderAll(LineNotes(original, optimized))
  {
    changes := [];
    var origLines := SplitLines(Strip(original));
    var optLines := SplitLines(Strip(optimized));
    if |optLines| < |origLines| {
      var diff := |origLines| - |optLines|;
      assert diff == LineCount(original) - LineCount(optimized);
      LineNotesShrunk(original, optimized);
      RenderSingle(LineReduction(diff));
      changes := [LineMessage(diff)];
    }
  }

  /** The `len(` step of `_detect_l1_changes`. */
  method LenChanges(original: string, optimized: string) returns (changes: seq<string>)
    ensures changes == RenderAll(LenNotes(original, optimized))
  {
    changes := [];
    if Contains(original, "len(") && !Contains(optimized, "len(") && Contains(optimized, "not ") {
      changes := [LenMessage];
    }
  }

  /** The line, pattern and `len(` steps of `_detect_l1_changes`. */
  method FoundChanges(original: string, optimized: string) returns (changes: seq<string>)
    ensures changes == RenderAll(FoundNotes(original, optimized))
  {
    ghost var lc, pc, len := LineNotes(original, optimized), PatternNotes(original, optimized, |PatternChecks|),
                             LenNotes(original, optimized);
    var lines := LineChanges(original, optimized);
    var patterns := PatternChanges(original, optimized);
    var lenNote := LenChanges(original, optimized);
    changes := lines + patterns + lenNote;
    RenderAppend(lc, pc);
    RenderAppend(lc + pc, len);
  }

  /** `_detect_l1_changes`, appending note by note. */
  method DetectL1Changes(original: string, optimized: string) returns (changes: seq<string>)
    ensures changes == L1Changes(original, optimized)
  {
    ghost var found := FoundNotes(original, optimized);
    changes := FoundChanges(original, optimized);
    var same := Strip(original) == Strip(optimized);
    if changes == [] && !same {
      changes := changes + [FallbackMessage];
    }
    if same {
      changes := changes + [AlreadyOptimal];
    }
    RenderAssemble(found, same);
  }

  // Notes, as values.

  /** A row's note is among the first `n` pattern notes exactly when `k < n` and its signature was removed. */
  lemma {:induction false} PatternNotesIff(original: string, optimized: string, n: nat, k: Row)
    requires n <= |PatternChecks|
    ensures PatternNote(k) in PatternNotes(original, optimized, n) <==>
            k < n && Removed(PatternChecks[k].0, original, optimized)
  {
    if n > 0 {
      PatternNotesIff(original, optimized, n - 1, k);
    }
  }

  /** Pattern notes come in the order of their table rows. */
  lemma {:induction false} PatternNotesOrdered(original: string, optimized: string, n: nat, i: nat, j: nat)
    requires n <= |PatternChecks| && i < j < |PatternNotes(original, optimized, n)|
    ensures PatternNotes(original, optimized, n)[i].row < PatternNotes(original, optimized, n)[j].row
  {
    var prev := PatternNotes(original, optimized, n - 1);
    var ns := PatternNotes(original, optimized, n);
    assert ns == prev + PatternRow(original, optimized, n - 1);
    assert ns[i] == prev[i];
    if j < |prev| {
      PatternNotesOrdered(original, optimized, n - 1, i, j);
    }
  }

  // The assembled list, for any found notes.

  /** The found notes lead the assembled list. */
  lemma AssemblePrefix(found: seq<Note>, same: bool)
    ensures var ns := Assemble(found, same);
      |found| <= |ns| && forall i :: 0 <= i < |found| ==> ns[i] == found[i]
  {
  }

  /** After the found notes come only the fallback and the sentinel. */
  lemma AssembleTail(found: seq<Note>, same: bool)
    ensures var ns := Assemble(found, same);
      forall i :: |found| <= i < |ns| ==> ns[i] == ConstantFolding || ns[i] == AlreadyOptimalNote
  {
  }

  /** The list is never empty, and holds the sentinel exactly when the code is unchanged. */
  lemma AssembleSentinel(found: seq<Note>, same: bool)
    requires AlreadyOptimalNote !in found
    ensures Assemble(found, same) != []
    ensures AlreadyOptimalNote in Assemble(found, same) <==> same
  {
    var ns := Assemble(found, same);
    if same {
      assert ns[|ns| - 1] == AlreadyOptimalNote;
    }
  }

  /** The fallback is there exactly when the code changed and nothing was found, and then it is alone. */
  lemma AssembleFallback(found: seq<Note>, same: bool)
    requires ConstantFolding !in found && AlreadyOptimalNote !in found
    ensures ConstantFolding in Assemble(found, same) <==> !same && Assemble(found, same) == [ConstantFolding]
  {
    var ns := Assemble(found, same);
    if ConstantFolding in ns {
      assert found == [] && !same;
    }
  }

  /** The parts of the found notes: at most one line-reduction note, pattern notes in row order, `len(` notes. */
  predicate Shaped(lc: seq<Note>, pc: seq<Note>, len: seq<Note>) {
    && |lc| <= 1 && (forall i :: 0 <= i < |lc| ==> lc[i].LineReduction?)
    && (forall i :: 0 <= i < |pc| ==> pc[i].PatternNote?)
    && Increasing(pc)
    && (forall i :: 0 <= i < |len| ==> len[i] == LenIdiom)
  }

  /** Pattern notes in strictly increasing row order. */
  predicate Increasing(pc: seq<Note>) {
    forall i, j :: 0 <= i < j < |pc| && pc[i].PatternNote? && pc[j].PatternNote? ==> pc[i].row < pc[j].row
  }

  /** Where each found note comes from. */
  lemma FoundIndex(lc: seq<Note>, pc: seq<Note>, len: seq<Note>, i: nat)
    requires i < |lc + pc + len|
    ensures (lc + pc + len)[i] ==
      (if i < |lc| then lc[i] else if i < |lc| + |pc| then pc[i - |lc|] else len[i - |lc| - |pc|])
  {
  }

  /** The found notes hold neither the fallback nor the sentinel. */
  lemma FoundKinds(lc: seq<Note>, pc: seq<Note>, len: seq<Note>)
    requires Shaped(lc, pc, len)
    ensures ConstantFolding !in lc + pc + len && AlreadyOptimalNote !in lc + pc + len
  {
    var found := lc + pc + len;
    forall i | 0 <= i < |found| ensures found[i] != ConstantFolding && found[i] != AlreadyOptimalNote {
      FoundIndex(lc, pc, len, i);
    }
  }

  /** Exactly the pattern part's pattern notes are in the list. */
  lemma AssemblePatterns(lc: seq<Note>, pc: seq<Note>, len: seq<Note>, same: bool, k: Row)
    requires Shaped(lc, pc, len)
    ensures PatternNote(k) in Assemble(lc + pc + len, same) <==> PatternNote(k) in pc
  {
    var found := lc + pc + len;
    var ns := Assemble(found, same);
    AssemblePrefix(found, same);
    AssembleTail(found, same);
    if PatternNote(k) in pc {
      var i :| 0 <= i < |pc| && pc[i] == PatternNote(k);
      FoundIndex(lc, pc, len, |lc| + i);
      assert ns[|lc| + i] == PatternNote(k);
    }
    if PatternNote(k) in ns {
      var i :| 0 <= i < |ns| && ns[i] == PatternNote(k);
      FoundIndex(lc, pc, len, i);
    }
  }

  /** Pattern notes in the list are in row order. */
  lemma AssembleOrder(lc: seq<Note>, pc: seq<Note>, len: seq<Note>, same: bool)
    requires Shaped(lc, pc, len)
    ensures var ns := Assemble(lc + pc + len, same);
      forall i, j :: 0 <= i < j < |ns| && ns[i].PatternNote? && ns[j].PatternNote? ==> ns[i].row < ns[j].row
  {
    var found := lc + pc + len;
    var ns := Assemble(found, same);
    AssemblePrefix(found, same);
    AssembleTail(found, same);
    forall i, j | 0 <= i < j < |ns| && ns[i].PatternNote? && ns[j].PatternNote?
      ensures ns[i].row < ns[j].row
    {
      FoundIndex(lc, pc, len, i);
      FoundIndex(lc, pc, len, j);
    }
  }

  /** A line-reduction note can only be first, and is first when the line part has one. */
  lemma AssembleLine(lc: seq<Note>, pc: seq<Note>, len: seq<Note>, same: bool)
    requires Shaped(lc, pc, len)
    ensures var ns := Assemble(lc + pc + len, same);
      && (forall i :: 0 <= i < |ns| && ns[i].LineReduction? ==> i == 0 && lc != [])
      && (lc != [] ==> ns[0] == lc[0])
  {
    var found := lc + pc + len;
    var ns := Assemble(found, same);
    AssemblePrefix(found, same);
    AssembleTail(found, same);
    forall i | 0 <= i < |ns| && ns[i].LineReduction? ensures i == 0 && lc != [] {
      FoundIndex(lc, pc, len, i);
    }
  }

  // The notes of `_detect_l1_changes`.

  /** The three found parts have their shape. */
  lemma L1Shaped(original: string, optimized: string)
    ensures Shaped(LineNotes(original, optimized), PatternNotes(original, optimized, |PatternChecks|),
                   LenNotes(original, optimized))
  {
    PatternNotesSorted(original, optimized, |PatternChecks|);
    ShapedIntro(LineNotes(original, optimized), PatternNotes(original, optimized, |PatternChecks|),
                LenNotes(original, optimized));
  }

  lemma ShapedIntro(lc: seq<Note>, pc: seq<Note>, len: seq<Note>)
    requires lc == [] || (|lc| == 1 && lc[0].LineReduction?)
    requires forall i :: 0 <= i < |pc| ==> pc[i].PatternNote?
    requires Increasing(pc)
    requires len == [] || len == [LenIdiom]
    ensures Shaped(lc, pc, len)
  {
  }

  /** Every pair of pattern notes is in table order. */
  lemma PatternNotesSorted(original: string, optimized: string, n: nat)
    requires n <= |PatternChecks|
    ensures Increasing(PatternNotes(original, optimized, n))
  {
    var ns := PatternNotes(original, optimized, n);
    forall i, j | 0 <= i < j < |ns| ensures ns[i].row < ns[j].row {
      PatternNotesOrdered(original, optimized, n, i, j);
    }
  }

  /** Never empty; the "already optimal" note exactly when the stripped texts are equal. */
  lemma L1NotesSentinel(original: string, optimized: string)
    ensures L1Notes(original, optimized) != []
    ensures AlreadyOptimalNote in L1Notes(original, optimized) <==> Strip(original) == Strip(optimized)
  {
    var lc, pc, len := LineNotes(original, optimized), PatternNotes(original, optimized, |PatternChecks|),
                       LenNotes(original, optimized);
    L1Shaped(original, optimized);
    FoundKinds(lc, pc, len);
    AssembleSentinel(lc + pc + len, Strip(original) == Strip(optimized));
  }

  /** The constant-folding fallback exactly when the stripped texts differ and nothing else was found; then it is alone. */
  lemma L1NotesFallback(original: string, optimized: string)
    ensures ConstantFolding in L1Notes(original, optimized) <==>
            Strip(original) != Strip(optimized) && L1Notes(original, optimized) == [ConstantFolding]
  {
    var lc, pc, len := LineNotes(original, optimized), PatternNotes(original, optimized, |PatternChecks|),
                       LenNotes(original, optimized);
    L1Shaped(original, optimized);
    FoundKinds(lc, pc, len);
    AssembleFallback(lc + pc + len, Strip(original) == Strip(optimized));
  }

  /** A pattern note exactly for a removed signature, in table order. */
  lemma L1NotesPatterns(original: string, optimized: string)
    ensures forall k: Row :: PatternNote(k) in L1Notes(original, optimized) <==>
                             Removed(PatternChecks[k].0, original, optimized)
    ensures var ns := L1Notes(original, optimized);
      forall i, j :: 0 <= i < j < |ns| && ns[i].PatternNote? && ns[j].PatternNote? ==> ns[i].row < ns[j].row
  {
    var lc, pc, len := LineNotes(original, optimized), PatternNotes(original, optimized, |PatternChecks|),
                       LenNotes(original, optimized);
    var same := Strip(original) == Strip(optimized);
    L1Shaped(original, optimized);
    forall k: Row ensures PatternNote(k) in L1Notes(original, optimized) <==>
                          Removed(PatternChecks[k].0, original, optimized) {
      PatternNotesIff(original, optimized, |PatternChecks|, k);
      AssemblePatterns(lc, pc, len, same, k);
    }
    AssembleOrder(lc, pc, len, same);
  }

  /** A line-reduction note only first, and first exactly when lines were removed. */
  lemma L1NotesLine(original: string, optimized: string)
    ensures var ns := L1Notes(original, optimized);
      && (forall i :: 0 <= i < |ns| && ns[i].LineReduction? ==>
            i == 0 && LineCount(optimized) < LineCount(original))
      && (LineCount(optimized) < LineCount(original) ==>
            |ns| > 0 && ns[0] == LineReduction(LineCount(original) - LineCount(optimized)))
  {
    var lc, pc, len := LineNotes(original, optimized), PatternNotes(original, optimized, |PatternChecks|),
                       LenNotes(original, optimized);
    L1Shaped(original, optimized);
    AssembleLine(lc, pc, len, Strip(original) == Strip(optimized));
  }

  // Notes, as text.

  /** The plural "s" is written exactly for a difference of more than one line. */
  lemma LineMessagePlural(diff: nat)
    requires diff >= 1
    ensures var m := LineMessage(diff);
      |m| > |LineSuffix| && (m[|m| - |LineSuffix| - 1] == 's' <==> diff > 1)
  {
    var m := LineMessage(diff);
    var head := "Reduced code by " + NatToString(diff) + " line" + (if diff > 1 then "s" else "");
    assert m == head + LineSuffix;
    assert m[|m| - |LineSuffix| - 1] == head[|head| - 1];
  }

  /**
   * A proof device, not part of the source: it exists only to prove that
   * the rendered notes differ. A line-reduction note starts "Reduced", so
   * its first character is 'R' and its third is 'd'; no other note starts
   * that way.
   */
  predicate IsLineNote(m: string) {
    |m| > 2 && m[0] == 'R' && m[2] == 'd'
  }

  /** A line-reduction note starts "Red". */
  lemma LineNoteShape(diff: nat)
    ensures IsLineNote(LineMessage(diff))
  {
    var m := LineMessage(diff);
    assert m == "Reduced code by " + (NatToString(diff) + " line" + (if diff > 1 then "s" else "") + LineSuffix);
  }

  /**
   * A proof device, not part of the source: it exists only to prove that
   * the rendered notes differ. It is the character at index 30 of each
   * note's text, and no two kinds of note share it.
   */
  function Key(n: Note): char {
    match n
    case LineReduction(_) => 'R'
    case PatternNote(k) => ['o', 'n', '+', '*', 'c'][k]
    case LenIdiom => 'm'
    case ConstantFolding => 'r'
    case AlreadyOptimalNote => 'p'
  }

  /** Every note other than a line reduction has its key at index 30 and is not read as a line note. */
  lemma RenderKey(n: Note)
    requires !n.LineReduction?
    ensures |Render(n)| > 30 && Render(n)[30] == Key(n) && !IsLineNote(Render(n))
  {
    if n.PatternNote? {
      PatternKey(n.row);
    }
  }

  lemma PatternKey(k: Row)
    ensures var m := PatternChecks[k].1;
      |m| > 30 && m[30] == ['o', 'n', '+', '*', 'c'][k] && !IsLineNote(m)
  {
  }

  /** Exactly the line-reduction notes read as line notes. */
  lemma LineNoteIff(n: Note)
    ensures IsLineNote(Render(n)) <==> n.LineReduction?
  {
    if n.LineReduction? {
      LineNoteShape(n.diff);
    } else {
      RenderKey(n);
    }
  }

  /** The texts of different notes differ, except that line-reduction notes are told apart only by their count. */
  lemma RenderDistinct(a: Note, b: Note)
    ensures IsLineNote(Render(a)) <==> a.LineReduction?
    ensures Render(a) == Render(b) && !a.LineReduction? ==> a == b
  {
    LineNoteIff(a);
    if !a.LineReduction? {
      RenderKey(a);
      LineNoteIff(b);
      if !b.LineReduction? {
        RenderKey(b);
      }
    }
  }

  /** A text is in the rendered list exactly when a note that renders to it is in the notes. */
  lemma RenderedIn(ns: seq<Note>, n: Note)
    requires !n.LineReduction?
    ensures Render(n) in RenderAll(ns) <==> n in ns
  {
    var r := RenderAll(ns);
    if Render(n) in r {
      var i :| 0 <= i < |r| && r[i] == Render(n);
      RenderDistinct(n, ns[i]);
    }
    if n in ns {
      var i :| 0 <= i < |ns| && ns[i] == n;
      assert r[i] == Render(n);
    }
  }

  /**
   * `_detect_l1_changes` never returns an empty list, and holds the "already
   * optimal" note exactly when the stripped texts are equal.
   */
  lemma L1AlreadyOptimalIff(original: string, optimized: string)
    ensures L1Changes(original, optimized) != []
    ensures AlreadyOptimal in L1Changes(original, optimized) <==> Strip(original) == Strip(optimized)
    ensures FallbackMessage in L1Changes(original, optimized) ==>
      Strip(original) != Strip(optimized) && L1Changes(original, optimized) == [FallbackMessage]
  {
    L1NotesSentinel(original, optimized);
    L1NotesFallback(original, optimized);
    RenderedEnds(L1Notes(original, optimized), Strip(original) == Strip(optimized));
  }

  /** The sentinel and fallback facts about a list of notes, carried over to their texts. */
  lemma RenderedEnds(ns: seq<Note>, same: bool)
    requires ns != [] && (AlreadyOptimalNote in ns <==> same)
    requires ConstantFolding in ns <==> !same && ns == [ConstantFolding]
    ensures RenderAll(ns) != []
    ensures AlreadyOptimal in RenderAll(ns) <==> same
    ensures FallbackMessage in RenderAll(ns) ==> !same && RenderAll(ns) == [FallbackMessage]
  {
    RenderedIn(ns, AlreadyOptimalNote);
    RenderedIn(ns, ConstantFolding);
  }

  /**
   * A pattern note is in the list exactly when its signature occurs in the
   * original and not in the optimised code, and pattern notes follow the
   * table's order.
   */
  lemma L1PatternIff(original: string, optimized: string, k: Row)
    ensures PatternChecks[k].1 in L1Changes(original, optimized) <==> Removed(PatternChecks[k].0, original, optimized)
    ensures var r := L1Changes(original, optimized);
      forall i, j, a: Row, b: Row :: 0 <= i < j < |r| && r[i] == PatternChecks[a].1 && r[j] == PatternChecks[b].1 ==> a < b
  {
    var ns := L1Notes(original, optimized);
    var r := L1Changes(original, optimized);
    L1NotesPatterns(original, optimized);
    RenderedIn(ns, PatternNote(k));
    forall i, j, a: Row, b: Row | 0 <= i < j < |r| && r[i] == PatternChecks[a].1 && r[j] == PatternChecks[b].1
      ensures a < b
    {
      RenderDistinct(PatternNote(a), ns[i]);
      RenderDistinct(PatternNote(b), ns[j]);
    }
  }

  /** A line-reduction note leads the list exactly when lines were removed; no other note looks like one. */
  lemma L1LineNote(original: string, optimized: string)
    ensures var r := L1Changes(original, optimized);
      && (LineCount(optimized) < LineCount(original) ==>
            r[0] == LineMessage(LineCount(original) - LineCount(optimized)))
      && (forall i :: 0 <= i < |r| && IsLineNote(r[i]) ==> i == 0 && LineCount(optimized) < LineCount(original))
  {
    L1NotesLine(original, optimized);
    RenderedLine(L1Notes(original, optimized), LineCount(optimized) < LineCount(original),
                 if LineCount(optimized) < LineCount(original) then LineCount(original) - LineCount(optimized) else 0);
  }

  /** The line-note facts about a list of notes, carried over to their texts. */
  lemma RenderedLine(ns: seq<Note>, shrunk: bool, diff: nat)
    requires forall i :: 0 <= i < |ns| && ns[i].LineReduction? ==> i == 0 && shrunk
    requires shrunk ==> |ns| > 0 && ns[0] == LineReduction(diff)
    ensures var r := RenderAll(ns);
      && (shrunk ==> |r| > 0 && r[0] == LineMessage(diff))
      && (forall i :: 0 <= i < |r| && IsLineNote(r[i]) ==> i == 0 && shrunk)
  {
    forall i | 0 <= i < |ns| ensures IsLineNote(Render(ns[i])) <==> ns[i].LineReduction? {
      LineNoteIff(ns[i]);
    }
  }

  // ------------------------------------------------------------ results

  /** The `"l2"` sub-dictionary of `_to_dict`. */
  datatype L2Dict = L2Dict(
    winningModel: string,
    score: real,
    confidence: real,
    risk: string,
    changesApplied: seq<string>,
    additionalSuggestions: seq<string>,
    rankedModels: seq<LlmOptimizer.RankedEntry>,
    syntaxValid: bool)

  /** The dictionary `_to_dict` returns; an empty payload dictionary is `None`. */
  datatype PipelineDict = PipelineDict(
    passedErrorCheck: bool,
    passedComplexity: bool,
    optimizationRan: bool,
    errorReport: Option<ErrorChecker.CheckReport>,
    originalAnalysis: Option<ComplexityChecker.SourceAnalysis>,
    optimizedAnalysis: Option<ComplexityChecker.SourceAnalysis>,
    originalCode: string,
    optimizedCode: string,
    optimizationLevel: string,
    l1Changes: seq<string>,
    l2: L2Dict,
    error: Option<string>)

  /** The dictionary of a freshly made `PipelineResult`: the dataclass defaults. */
  function InitialDict(code: string, level: string): PipelineDict {
    PipelineDict(false, false, false, None, None, None, code, "", level, [],
                 L2Dict("", 0.0, 0.0, "", [], [], [], false), None)
  }

  /** The `PipelineResult` dataclass, whose fields `run_pipeline` sets stage by stage. */
  class PipelineResult {
    var passedErrorCheck: bool
    var passedComplexity: bool
    var optimizationRan: bool
    var errorReport: Option<ErrorChecker.CheckReport>
    var originalAnalysis: Option<ComplexityChecker.SourceAnalysis>
    var optimizedAnalysis: Option<ComplexityChecker.SourceAnalysis>
    var originalCode: string
    var optimizedCode: string
    var optimizationLevel: string
    var l1Changes: seq<string>
    var l2WinningModel: string
    var l2Score: real
    var l2Confidence: real
    var l2Risk: string
    var l2ChangesApplied: seq<string>
    var l2AdditionalSuggestions: seq<string>
    var l2RankedModels: seq<LlmOptimizer.RankedEntry>
    var l2SyntaxValid: bool
    var error: Option<string>

    /** `PipelineResult(original_code=code, optimization_level=level)`. */
    constructor (code: string, level: string)
      ensures ToDict(this) == InitialDict(code, level)
    {
      passedErrorCheck, passedComplexity, optimizationRan := false, false, false;
      errorReport, originalAnalysis, optimizedAnalysis := None, None, None;
      originalCode, optimizedCode, optimizationLevel := code, "", level;
      l1Changes := [];
      l2WinningModel, l2Score, l2Confidence, l2Risk := "", 0.0, 0.0, "";
      l2ChangesApplied, l2AdditionalSuggestions, l2RankedModels, l2SyntaxValid := [], [], [], false;
      error := None;
    }
  }

  /** `_to_dict(result)`: the flat fields, with the level-2 ones gathered under `"l2"`. */
  function ToDict(r: PipelineResult): PipelineDict
    reads r
  {
    PipelineDict(r.passedErrorCheck, r.passedComplexity, r.optimizationRan, r.errorReport,
                 r.originalAnalysis, r.optimizedAnalysis, r.originalCode, r.optimizedCode,
                 r.optimizationLevel, r.l1Changes,
                 L2Dict(r.l2WinningModel, r.l2Score, r.l2Confidence, r.l2Risk, r.l2ChangesApplied,
                        r.l2AdditionalSuggestions, r.l2RankedModels, r.l2SyntaxValid),
                 r.error)
  }

  // ------------------------------------------------------------ the run

  /**
   * The stages: `run_all_checks`, `analyze_source`, the rule optimiser's
   * `optimize_code` (`None` when it raises) and the awaited LLM `optimize`
   * (which may raise too).
   */
  datatype Stages = Stages(
    checks: string -> ErrorChecker.CheckReport,
    analyze: string -> ComplexityChecker.SourceAnalysis,
    ruleOptimize: string -> Option<string>,
    llmOptimize: string -> LlmOptimizer.OptimizeOutcome)

  /** Python's `f"{x}"` of an optional string. */
  function Format(s: Option<string>): string {
    if s.Some? then s.value else "None"
  }

  const AnalysisFailedPrefix: string := "Complexity analysis failed: "
  const LlmFailedPrefix: string := "LLM optimization failed: "

  function L2Of(llm: LlmOptimizer.OptimizationResult): L2Dict {
    L2Dict(llm.winningModel, llm.score, llm.confidence, llm.risk, llm.changesApplied,
           llm.additionalSuggestions, llm.rankedModels, llm.syntaxValid)
  }

  /** Stage 4: the analysis of the optimised code, or the original's when it is unchanged or its analysis fails. */
  function Reanalysis(code: string, optimized: string, original: ComplexityChecker.SourceAnalysis,
                      st: Stages): ComplexityChecker.SourceAnalysis {
    var redone := st.analyze(optimized);
    if Strip(optimized) != Strip(code) && redone.Analysis? then redone else original
  }

  /** The dictionary with the optimised code and its analysis recorded. */
  function Reanalysed(d: PipelineDict, code: string, optimized: string,
                      original: ComplexityChecker.SourceAnalysis, st: Stages): PipelineDict {
    d.(optimizedCode := optimized, optimizedAnalysis := Some(Reanalysis(code, optimized, original, st)))
  }

  /** The dictionary once the error report is in and did not abort. */
  function Checked(code: string, level: string, report: ErrorChecker.CheckReport): PipelineDict {
    InitialDict(code, level).(errorReport := Some(report), passedErrorCheck := true)
  }

  /** The dictionary once the original code is analysed too. */
  function Analysed(code: string, level: string, report: ErrorChecker.CheckReport,
                    analysis: ComplexityChecker.SourceAnalysis): PipelineDict {
    Checked(code, level, report).(originalAnalysis := Some(analysis), passedComplexity := true)
  }

  /** The level-2 fields copied from the LLM result, and the error of an unsuccessful one; a successful one leaves the error as it was. */
  function WithLlm(d: PipelineDict, llm: LlmOptimizer.OptimizationResult): PipelineDict {
    d.(l2 := L2Of(llm), optimizationRan := true,
       error := if llm.success then d.error else Some(LlmFailedPrefix + Format(llm.error)))
  }

  /** Stages 3 and 4 at level 1, once the rule optimiser returned `rewritten`. */
  function Level1Result(analysed: PipelineDict, code: string, rewritten: string,
                        analysis: ComplexityChecker.SourceAnalysis, st: Stages): PipelineDict {
    Reanalysed(analysed.(l1Changes := L1Changes(code, rewritten), optimizationRan := true), code, rewritten, analysis, st)
  }

  /** `run_pipeline(code, level)`: `None` when an optimiser raises, which propagates. */
  function Pipeline(code: string, level: string, st: Stages): Option<PipelineDict> {
    var report := st.checks(code);
    if report.aborted.Some? then
      Some(InitialDict(code, level).(errorReport := Some(report), error := report.aborted))
    else
      var analysis := st.analyze(code);
      if analysis.AnalysisError? then
        Some(Checked(code, level, report).(error := Some(AnalysisFailedPrefix + analysis.error)))
      else
        Optimise(code, level, Analysed(code, level, report, analysis), analysis, st)
  }

  /** Stages 3 and 4, once both checks passed. */
  function Optimise(code: string, level: string, analysed: PipelineDict,
                    analysis: ComplexityChecker.SourceAnalysis, st: Stages): Option<PipelineDict> {
    if level == "level1" then
      var rewritten := st.ruleOptimize(code);
      if rewritten.None? then None
      else
        Some(Level1Result(analysed, code, rewritten.value, analysis, st))
    else if level == "level2" then
      var outcome := st.llmOptimize(code);
      if outcome.OptimizeRaised? then None
      else
        var llm := outcome.result;
        Some(Reanalysed(WithLlm(analysed, llm), code, if llm.success then llm.optimizedCode else code, analysis, st))
    else
      Some(Reanalysed(analysed, code, code, analysis, st))
  }

  /** Stage 3 at level 1: the change notes of the rewritten code. */
  method RecordL1(result: PipelineResult, code: string, rewritten: string)
    modifies result
    ensures ToDict(result) == old(ToDict(result)).(l1Changes := L1Changes(code, rewritten), optimizationRan := true)
  {
    var changes := DetectL1Changes(code, rewritten);
    RecordChanges(result, changes);
  }

  method RecordChanges(result: PipelineResult, changes: seq<string>)
    modifies result
    ensures ToDict(result) == old(ToDict(result)).(l1Changes := changes, optimizationRan := true)
  {
    result.l1Changes := changes;
    result.optimizationRan := true;
  }

  /** The eight `l2_` fields copied from the LLM result. */
  method RecordL2Fields(result: PipelineResult, llm: LlmOptimizer.OptimizationResult)
    modifies result
    ensures ToDict(result) == old(ToDict(result)).(l2 := L2Of(llm))
  {
    RecordL2Scores(result, llm);
    RecordL2Notes(result, llm);
  }

  /** The winner's name, score, confidence and risk. */
  method RecordL2Scores(result: PipelineResult, llm: LlmOptimizer.OptimizationResult)
    modifies result
    ensures ToDict(result) == old(ToDict(result)).(l2 := old(ToDict(result)).l2.(
      winningModel := llm.winningModel, score := llm.score, confidence := llm.confidence, risk := llm.risk))
  {
    result.l2WinningModel, result.l2Score, result.l2Confidence, result.l2Risk :=
      llm.winningModel, llm.score, llm.confidence, llm.risk;
  }

  /** The change notes, the ranking and the syntax flag. */
  method RecordL2Notes(result: PipelineResult, llm: LlmOptimizer.OptimizationResult)
    modifies result
    ensures ToDict(result) == old(ToDict(result)).(l2 := old(ToDict(result)).l2.(
      changesApplied := llm.changesApplied, additionalSuggestions := llm.additionalSuggestions,
      rankedModels := llm.rankedModels, syntaxValid := llm.syntaxValid))
  {
    result.l2ChangesApplied, result.l2AdditionalSuggestions, result.l2RankedModels, result.l2SyntaxValid :=
      llm.changesApplied, llm.additionalSuggestions, llm.rankedModels, llm.syntaxValid;
  }

  /** Stage 3 at level 2: the LLM result's fields, and its error when it failed; returns the code to keep. */
  method RecordLlm(result: PipelineResult, code: string, llm: LlmOptimizer.OptimizationResult)
    returns (optimizedCode: string)
    modifies result
    ensures ToDict(result) == WithLlm(old(ToDict(result)), llm)
    ensures optimizedCode == if llm.success then llm.optimizedCode else code
  {
    RecordL2Fields(result, llm);
    optimizedCode := code;
    if llm.success {
      optimizedCode := llm.optimizedCode;
    } else {
      result.error := Some(LlmFailedPrefix + Format(llm.error));
    }
    result.optimizationRan := true;
  }

  /** Stage 4: the analysis of the optimised code, reusing the original's when nothing changed or it fails. */
  method Reanalyse(code: string, optimizedCode: string, originalAnalysis: ComplexityChecker.SourceAnalysis,
                   st: Stages) returns (reanalysis: ComplexityChecker.SourceAnalysis)
    ensures reanalysis == Reanalysis(code, optimizedCode, originalAnalysis, st)
  {
    reanalysis := originalAnalysis;
    if Strip(optimizedCode) != Strip(code) {
      var optAnalysis := st.analyze(optimizedCode);
      reanalysis := if optAnalysis.AnalysisError? then originalAnalysis else optAnalysis;
    }
  }

  /** The optimised code and its analysis, set at the end of stages 3 and 4. */
  method RecordOptimized(result: PipelineResult, optimizedCode: string, reanalysis: ComplexityChecker.SourceAnalysis)
    modifies result
    ensures ToDict(result) == old(ToDict(result)).(optimizedCode := optimizedCode, optimizedAnalysis := Some(reanalysis))
  {
    result.optimizedCode := optimizedCode;
    result.optimizedAnalysis := Some(reanalysis);
  }

  /** `run_pipeline`, setting the fields of a `PipelineResult` stage by stage. */
  method RunPipeline(code: string, level: string, st: Stages) returns (d: Option<PipelineDict>)
    ensures d == Pipeline(code, level, st)
  {
    var result := new PipelineResult(code, level);

    // Stage 1: error and language checks; an aborted report stops the run.
    var errorReport := st.checks(code);
    result.errorReport := Some(errorReport);
    if errorReport.aborted.Some? {
      result.error := errorReport.aborted;
      return Some(ToDict(result));
    }
    result.passedErrorCheck := true;

    // Stage 2: complexity analysis of the original code.
    var originalAnalysis := st.analyze(code);
    if originalAnalysis.AnalysisError? {
      result.error := Some(AnalysisFailedPrefix + originalAnalysis.error);
      return Some(ToDict(result));
    }
    result.originalAnalysis := Some(originalAnalysis);
    result.passedComplexity := true;
    assert ToDict(result) == Analysed(code, level, errorReport, originalAnalysis);
    PassedChecks(code, level, st);
    d := OptimiseStages(result, code, level, originalAnalysis, st);
  }

  /** Stages 3 and 4 of `run_pipeline` on a result that passed both checks. */
  method OptimiseStages(result: PipelineResult, code: string, level: string,
                        originalAnalysis: ComplexityChecker.SourceAnalysis, st: Stages)
    returns (d: Option<PipelineDict>)
    modifies result
    ensures d == Optimise(code, level, old(ToDict(result)), originalAnalysis, st)
  {
    ghost var analysed := ToDict(result);

    // Stage 3: optimisation.
    var optimizedCode := code;
    ghost var optimized := analysed;
    if level == "level1" {
      var rewritten := st.ruleOptimize(code);
      if rewritten.None? {
        return None;
      }
      optimizedCode := rewritten.value;
      RecordL1(result, code, optimizedCode);
      optimized := analysed.(l1Changes := L1Changes(code, optimizedCode), optimizationRan := true);
      assert Optimise(code, level, analysed, originalAnalysis, st) ==
             Some(Reanalysed(optimized, code, optimizedCode, originalAnalysis, st));
    } else if level == "level2" {
      var outcome := st.llmOptimize(code);
      if outcome.OptimizeRaised? {
        return None;
      }
      var llm := outcome.result;
      optimizedCode := RecordLlm(result, code, llm);
      optimized := WithLlm(analysed, llm);
      assert Optimise(code, level, analysed, originalAnalysis, st) ==
             Some(Reanalysed(optimized, code, optimizedCode, originalAnalysis, st));
    } else {
      assert Optimise(code, level, analysed, originalAnalysis, st) ==
             Some(Reanalysed(optimized, code, optimizedCode, originalAnalysis, st));
    }
    assert ToDict(result) == optimized;

    // Stage 4: re-analysis.
    var reanalysis := Reanalyse(code, optimizedCode, originalAnalysis, st);
    RecordOptimized(result, optimizedCode, reanalysis);
    return Some(ToDict(result));
  }

  // ------------------------------------------------------ run properties

  /**
   * An aborted error report stops the run: its message is the error, both
   * checks count as failed, nothing ran and the optimised code is empty.
   */
  lemma AbortStopsRun(code: string, level: string, st: Stages)
    requires st.checks(code).aborted.Some?
    ensures var d := Pipeline(code, level, st);
      && d.Some?
      && d.value.error == st.checks(code).aborted
      && d.value.errorReport == Some(st.checks(code))
      && !d.value.passedErrorCheck && !d.value.passedComplexity && !d.value.optimizationRan
      && d.value.optimizedCode == "" && d.value.originalCode == code
      && d.value.originalAnalysis.None? && d.value.optimizedAnalysis.None?
      && d.value.l1Changes == [] && d.value.l2 == InitialDict(code, level).l2
  {
  }

  /** A failing analysis of the original stops the run after the checks, with the analyser's message. */
  lemma AnalysisFailureStopsRun(code: string, level: string, st: Stages)
    requires st.checks(code).aborted.None? && st.analyze(code).AnalysisError?
    ensures var d := Pipeline(code, level, st);
      && d.Some?
      && d.value.error == Some(AnalysisFailedPrefix + st.analyze(code).error)
      && d.value.passedErrorCheck && !d.value.passedComplexity && !d.value.optimizationRan
      && d.value.optimizedCode == "" && d.value.originalAnalysis.None? && d.value.optimizedAnalysis.None?
  {
  }

  /**
   * The stage flags are nested, every run that stops early says why, and a
   * run that passed the analysis always carries an analysis of the
   * optimised code that is not an error.
   */
  lemma FlagsNested(code: string, level: string, st: Stages)
    ensures var d := Pipeline(code, level, st);
      d.Some? ==>
        && d.value.originalCode == code && d.value.optimizationLevel == level
        && (d.value.optimizationRan ==> d.value.passedComplexity)
        && (d.value.passedComplexity ==> d.value.passedErrorCheck)
        && (!d.value.passedComplexity ==> d.value.error.Some?)
        && (d.value.passedComplexity <==> d.value.originalAnalysis.Some?)
        && (d.value.passedComplexity ==>
              && d.value.originalAnalysis.value.Analysis?
              && d.value.optimizedAnalysis.Some? && d.value.optimizedAnalysis.value.Analysis?)
  {
  }

  /**
   * The run raises exactly when, after both checks passed, the optimiser of
   * its level raises: the rule optimiser at level 1, `optimize` at level 2.
   */
  lemma RaisesOnlyFromOptimizers(code: string, level: string, st: Stages)
    ensures Pipeline(code, level, st).None? <==>
      && st.checks(code).aborted.None? && st.analyze(code).Analysis?
      && ((level == "level1" && st.ruleOptimize(code).None?) ||
          (level == "level2" && st.llmOptimize(code).OptimizeRaised?))
  {
  }

  /**
   * After both checks, an optimiser ran exactly for levels "level1" and
   * "level2"; any other level keeps the code, sets no error and reuses the
   * original analysis.
   */
  lemma LevelDecidesOptimization(code: string, level: string, st: Stages)
    requires st.checks(code).aborted.None? && st.analyze(code).Analysis?
    requires Pipeline(code, level, st).Some?
    ensures var d := Pipeline(code, level, st).value;
      && (d.optimizationRan <==> level == "level1" || level == "level2")
      && (level != "level1" && level != "level2" ==>
            d.optimizedCode == code && d.error.None? && d.optimizedAnalysis == d.originalAnalysis
            && d.l1Changes == [] && d.l2 == InitialDict(code, level).l2)
  {
  }

  /**
   * Level 1 records the rewritten code and its change notes, which are
   * never empty and hold the "already optimal" note exactly when the
   * stripped code did not change.
   */
  lemma Level1Notes(code: string, st: Stages)
    requires st.checks(code).aborted.None? && st.analyze(code).Analysis? && st.ruleOptimize(code).Some?
    ensures var d := Pipeline(code, "level1", st).value;
      && d.optimizedCode == st.ruleOptimize(code).value
      && d.l1Changes == L1Changes(code, d.optimizedCode)
      && d.l1Changes != []
      && (AlreadyOptimal in d.l1Changes <==> Strip(code) == Strip(d.optimizedCode))
      && d.error.None?
  {
    Level1Run(code, "level1", st);
    L1AlreadyOptimalIff(code, st.ruleOptimize(code).value);
  }

  /** Past both checks, level 1 with a rewrite is the level-1 result of that rewrite. */
  lemma Level1Run(code: string, level: string, st: Stages)
    requires level == "level1"
    requires st.checks(code).aborted.None? && st.analyze(code).Analysis? && st.ruleOptimize(code).Some?
    ensures Pipeline(code, level, st) ==
      Some(Level1Result(Analysed(code, level, st.checks(code), st.analyze(code)), code,
                        st.ruleOptimize(code).value, st.analyze(code), st))
  {
    PassedChecks(code, level, st);
  }

  /** Past both checks, the run is the optimisation stage applied to the analysed dictionary. */
  lemma PassedChecks(code: string, level: string, st: Stages)
    requires st.checks(code).aborted.None? && st.analyze(code).Analysis?
    ensures Pipeline(code, level, st) ==
      Optimise(code, level, Analysed(code, level, st.checks(code), st.analyze(code)), st.analyze(code), st)
  {
  }

  /**
   * Level 2 raises when `optimize` does; otherwise it copies the LLM
   * result's metadata, and an unsuccessful result keeps the original code
   * and its analysis and reports an error that starts with "LLM
   * optimization failed: ".
   */
  lemma Level2Outcome(code: string, st: Stages)
    requires st.checks(code).aborted.None? && st.analyze(code).Analysis?
    ensures st.llmOptimize(code).OptimizeRaised? ==> Pipeline(code, "level2", st).None?
    ensures st.llmOptimize(code).Optimized? ==>
      var d := Pipeline(code, "level2", st);
      var llm := st.llmOptimize(code).result;
      && d.Some?
      && d.value.l2 == L2Of(llm)
      && (llm.success ==> d.value.optimizedCode == llm.optimizedCode && d.value.error.None?)
      && (!llm.success ==>
            && d.value.optimizedCode == code
            && d.value.optimizedAnalysis == d.value.originalAnalysis
            && d.value.error.Some? && LlmFailedPrefix <= d.value.error.value
            && d.value.error.value[|LlmFailedPrefix|..] == Format(llm.error))
  {
  }

  /**
   * The optimised analysis is the original's when the stripped code is
   * unchanged or its analysis fails, and the fresh analysis otherwise.
   */
  lemma OptimizedAnalysisReuse(code: string, level: string, st: Stages)
    requires Pipeline(code, level, st).Some? && Pipeline(code, level, st).value.passedComplexity
    ensures var d := Pipeline(code, level, st).value;
      var redone := st.analyze(d.optimizedCode);
      && (Strip(d.optimizedCode) == Strip(code) || redone.AnalysisError? ==>
            d.optimizedAnalysis == d.originalAnalysis)
      && (Strip(d.optimizedCode) != Strip(code) && redone.Analysis? ==> d.optimizedAnalysis == Some(redone))
  {
    var report, analysis := st.checks(code), st.analyze(code);
    var analysed := Analysed(code, level, report, analysis);
    if level == "level1" {
      var rewritten := st.ruleOptimize(code).value;
      ReanalysedFacts(analysed.(l1Changes := L1Changes(code, rewritten), optimizationRan := true),
                      code, rewritten, analysis, st);
    } else if level == "level2" {
      var llm := st.llmOptimize(code).result;
      ReanalysedFacts(WithLlm(analysed, llm), code, if llm.success then llm.optimizedCode else code, analysis, st);
    } else {
      ReanalysedFacts(analysed, code, code, analysis, st);
    }
  }

  /** Stage 4 on any dictionary that holds the original analysis. */
  lemma ReanalysedFacts(x: PipelineDict, code: string, optimized: string,
                        original: ComplexityChecker.SourceAnalysis, st: Stages)
    requires x.originalAnalysis == Some(original)
    ensures var d := Reanalysed(x, code, optimized, original, st);
      var redone := st.analyze(d.optimizedCode);
      && d.optimizedCode == optimized
      && d.originalAnalysis == Some(original)
      && (Strip(d.optimizedCode) == Strip(code) || redone.AnalysisError? ==>
            d.optimizedAnalysis == d.originalAnalysis)
      && (Strip(d.optimizedCode) != Strip(code) && redone.Analysis? ==> d.optimizedAnalysis == Some(redone))
  {
  }
}

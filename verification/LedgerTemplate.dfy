/**
The ledger file `ensure_exists` of src/audit_ledger.rs creates, and the appends to it.

The tables and headings of templates/audit-ledger.md are as in the file. Its wording is left
open: any lines without pipes may stand around the summary table, and any text outside the
summary behind the register of blockers. The register has a table of nine columns too, and one
row with the label R1 in it; both are shown to be no concern of the summary.
*/
module LedgerTemplate {
  import opened Common
  import opened Text
  import opened TextMeaning
  import opened LedgerTable
  import opened LedgerUpgrade
  import opened LedgerAppend
  import opened LedgerRoundTrip
  import opened LedgerGrowth
  import opened LedgerRuns
  import opened LedgerEmpty

  // ---------- lines around the table ----------

  /** A line that starts like no heading and no table row, and has no pipe. */
  ghost predicate Prose(line: string) {
    && (line == [] || !IsWhite(line[0])) && !("## " <= line)
    && '|' !in line && '\n' !in line && '\r' !in line
  }

  lemma ProseLine(inside: bool, line: string)
    requires Prose(line)
    ensures LineIn(inside, line, inside) && !IsHeading(line)
  {
    assert TrimStart(line) == line;
    NoPlaceholderWithout(line, '|');
    assert SplitRow(line) == [];
  }

  ghost predicate AllProse(lines: seq<string>) {
    forall i :: 0 <= i < |lines| ==> Prose(lines[i])
  }

  lemma ProseIsInside(lines: seq<string>)
    requires AllProse(lines)
    ensures Inside(lines)
  {
    forall i | 0 <= i < |lines|
      ensures LineIn(true, lines[i], true) && '|' !in lines[i] && !IsHeading(lines[i])
    {
      ProseLine(true, lines[i]);
    }
  }

  lemma ProseIsOutside(lines: seq<string>)
    requires AllProse(lines)
    ensures Outside(lines)
  {
    forall i | 0 <= i < |lines|
      ensures LineIn(false, lines[i], false)
    {
      ProseLine(false, lines[i]);
    }
  }

  /** Outside the summary a line with pipes does no harm if it is no round row. */
  lemma RowOutside(line: string)
    requires line != [] && !IsWhite(line[0]) && !("## " <= line) && !("| R" <= line)
    requires '\n' !in line && '\r' !in line && !Contains(line, PLACEHOLDER)
    ensures Outside([line])
  {
    assert TrimStart(line) == line;
    assert line[|line| - 1] in line;
    assert LineIn(false, line, false);
  }

  lemma SectionHeading(inside: bool, line: string)
    requires Tight(line) && "## " <= line && '|' !in line && '\n' !in line && '\r' !in line && |line| != |SUMMARY|
    ensures LineIn(inside, line, false) && IsHeading(line)
  {
    TightStays(line);
    Differ(line, SUMMARY, 0);
    assert line[|line| - 1] in line;
    HeadingLine(inside, line);
  }

  // ---------- the template ----------

  const REGISTER := "## Blocker Register"

  const BLOCKER_HEADER: seq<string> := [
    "id", "round_seen", "severity", "source", "claim", "evidence_to_check", "disposition", "fix_or_rebuttal", "status"
  ]

  const BLOCKER_RULE: seq<string> := ["---", "---", "---", "---", "---", "---", "---", "---", "---"]

  const BLOCKER_CELLS: seq<string> := ["B001", "R1", "high", "", "", "", "needs_verification", "", "open"]

  /** What the file says besides its headings and tables, up to the register of blockers, and
      all its text behind the register. */
  datatype Wording = Wording(front: seq<string>, trend: seq<string>, rest: seq<string>)

  ghost predicate Harmless(w: Wording) {
    AllProse(w.front) && AllProse(w.trend) && Outside(w.rest)
  }

  function Register(): seq<string> {
    [""] + ([PrintRow(BLOCKER_HEADER)] + (["|" + Join(BLOCKER_RULE, "|") + "|"] + [PrintRow(BLOCKER_CELLS)]))
  }

  function Sections(w: Wording): seq<string> {
    [REGISTER] + (Register() + w.rest)
  }

  /** The summary with the placeholder row, the register with its first entry, and text. */
  function Template(w: Wording): string {
    Unlines(EmptyLedger(w.front, [""], w.trend, Sections(w)))
  }

  // ---------- its tables do no harm ----------

  lemma RowStart(cells: seq<string>)
    requires |cells| > 1 && cells[0] != []
    ensures |PrintRow(cells)| > 2 && PrintRow(cells)[0] == '|' && PrintRow(cells)[2] == cells[0][0]
  {
    assert PrintRow(cells) == "| " + (cells[0] + " | " + Join(cells[1..], " | ")) + " |";
  }

  lemma StartsLikeB(line: string)
    requires |line| > 2 && line[0] == '|' && line[2] != 'R'
    ensures !("## " <= line) && !("| R" <= line) && !IsWhite(line[0])
  {
  }

  /** Two rows with equally many pipes, at their ends too: one contains the other only if
      they are the same. */
  lemma RowInside(row: string, p: string)
    requires PipesIn(row) == PipesIn(p) && Contains(row, p)
    requires row != [] && row[0] == '|' && row[|row| - 1] == '|'
    requires p != [] && p[0] == '|' && p[|p| - 1] == '|'
    ensures row == p
  {
    var x, y := ContainedParts(row, p);
    assert [] + row + [] == row;
    NoPipesAround([], row, [], x, p, y);
    RowInsideRow([], row, [], x, p, y);
  }

  lemma RowWithPlaceholder(cells: seq<string>)
    requires |cells| == 9 && CleanCells(cells) && Contains(PrintRow(cells), PLACEHOLDER)
    ensures cells == PLACEHOLDER_CELLS
  {
    PrintedRowSplits(cells);
    PipesOfRow(cells);
    PipesOfPlaceholder();
    PlaceholderEnds();
    RowInside(PrintRow(cells), PLACEHOLDER);
    PlaceholderSplits();
  }

  /** A row of nine cells of another table. */
  lemma OtherRow(cells: seq<string>)
    requires |cells| == 9 && CleanCells(cells) && cells[0] != [] && cells[0][0] != 'R'
    requires forall i :: 0 <= i < |cells| ==> '\n' !in cells[i] && '\r' !in cells[i]
    ensures Outside([PrintRow(cells)])
  {
    PrintRowHasNo(cells, '\n');
    PrintRowHasNo(cells, '\r');
    RowStart(cells);
    assert PLACEHOLDER_CELLS[0] == "R1";
    if Contains(PrintRow(cells), PLACEHOLDER) {
      RowWithPlaceholder(cells);
    }
    StartsLikeB(PrintRow(cells));
    RowOutside(PrintRow(cells));
  }

  /** A cell of small letters and underscores. */
  lemma NameCell(cell: string)
    requires forall i :: 0 <= i < |cell| ==> 'a' <= cell[i] <= 'z' || cell[i] == '_'
    ensures CleanCell(cell) && '\n' !in cell && '\r' !in cell
  {
  }

  lemma FirstNames()
    ensures forall i :: 0 <= i < 5 ==>
      CleanCell(BLOCKER_HEADER[i]) && '\n' !in BLOCKER_HEADER[i] && '\r' !in BLOCKER_HEADER[i]
  {
    NameCell("id");
    NameCell("round_seen");
    NameCell("severity");
    NameCell("source");
    NameCell("claim");
  }

  lemma LastNames()
    ensures forall i :: 5 <= i < 9 ==>
      CleanCell(BLOCKER_HEADER[i]) && '\n' !in BLOCKER_HEADER[i] && '\r' !in BLOCKER_HEADER[i]
  {
    NameCell("evidence_to_check");
    NameCell("disposition");
    NameCell("fix_or_rebuttal");
    NameCell("status");
  }

  lemma BlockerHeaderRow()
    ensures Outside([PrintRow(BLOCKER_HEADER)])
  {
    FirstNames();
    LastNames();
    OtherRow(BLOCKER_HEADER);
  }

  lemma BlockerRow()
    ensures Outside([PrintRow(BLOCKER_CELLS)])
  {
    OtherRow(BLOCKER_CELLS);
  }

  lemma BlockerRuleStart()
    ensures ("|" + Join(BLOCKER_RULE, "|") + "|")[2] == '-'
  {
    assert Join(BLOCKER_RULE, "|") == BLOCKER_RULE[0] + "|" + Join(BLOCKER_RULE[1..], "|");
  }

  lemma BlockerRuleRow()
    ensures Outside(["|" + Join(BLOCKER_RULE, "|") + "|"])
  {
    var row := "|" + Join(BLOCKER_RULE, "|") + "|";
    JoinKeepsOut(BLOCKER_RULE, "|", '\n');
    JoinKeepsOut(BLOCKER_RULE, "|", '\r');
    JoinKeepsOut(BLOCKER_RULE, "|", '1');
    NoPlaceholderWithout(row, '1');
    BlockerRuleStart();
    StartsLikeB(row);
    RowOutside(row);
  }

  lemma BlankOutside()
    ensures AllProse([""]) && Outside([""])
  {
    ProseIsOutside([""]);
  }

  lemma OutsideJoins(a: seq<string>, b: seq<string>)
    requires Outside(a) && Outside(b)
    ensures Outside(a + b)
  {
  }

  lemma RegisterIsOutside()
    ensures Outside(Register())
  {
    var rule := "|" + Join(BLOCKER_RULE, "|") + "|";
    BlankOutside();
    BlockerHeaderRow();
    BlockerRuleRow();
    BlockerRow();
    OutsideJoins([rule], [PrintRow(BLOCKER_CELLS)]);
    OutsideJoins([PrintRow(BLOCKER_HEADER)], [rule] + [PrintRow(BLOCKER_CELLS)]);
    OutsideJoins([""], [PrintRow(BLOCKER_HEADER)] + ([rule] + [PrintRow(BLOCKER_CELLS)]));
  }

  lemma RegisterHeading()
    ensures LineIn(true, REGISTER, false) && IsHeading(REGISTER)
  {
    SectionHeading(true, REGISTER);
  }

  lemma SectionsClose(w: Wording)
    requires Harmless(w)
    ensures Closing(Sections(w))
  {
    RegisterHeading();
    RegisterIsOutside();
    OutsideJoins(Register(), w.rest);
    assert Sections(w)[1..] == Register() + w.rest;
  }

  lemma TemplateIsEmptyLedger(w: Wording)
    requires Harmless(w)
    ensures Around(w.front, [""], w.trend, Sections(w))
  {
    BlankOutside();
    ProseIsOutside(w.front);
    ProseIsInside([""]);
    ProseIsInside(w.trend);
    SectionsClose(w);
  }

  // ---------- appending to a new ledger ----------

  /** Any n appends to a new ledger read back as rounds R1 to Rn with the n inputs in order. */
  lemma AppendsToTemplate(w: Wording, inputs: seq<AppendInput>)
    requires Harmless(w) && |inputs| <= U64_MAX && GoodInputs(inputs)
    ensures var r := Parse(AppendMany(Template(w), inputs));
      && r.Ok? && |r.value| == |inputs|
      && forall i :: 0 <= i < |inputs| ==> r.value[i] == NewRound(i + 1, inputs[i])
  {
    TemplateIsEmptyLedger(w);
    AppendsToEmptyLedger(w.front, [""], w.trend, Sections(w), inputs);
  }

  lemma TemplateIsReady(w: Wording)
    requires Harmless(w)
    ensures ReadyText(Template(w), 0) && Parse(Template(w)) == Ok([])
  {
    TemplateIsEmptyLedger(w);
    EmptyLedgerText(w.front, [""], w.trend, Sections(w));
  }

  lemma OneAppend(text: string, input: AppendInput)
    ensures AppendMany(text, [input]) == AppendText(text, input)
    ensures RoundsFor(0, [input]) == [NewRound(1, input)] && (GoodInput(input) ==> GoodInputs([input]))
  {
    assert [input][1..] == [];
    assert RoundsFor(1, []) == [];
    assert AppendMany(AppendText(text, input), []) == AppendText(text, input);
  }

  lemma FirstRound(w: Wording, input: AppendInput)
    requires Harmless(w) && GoodInput(input)
    ensures Parse(AppendText(Template(w), input)) == Ok([NewRound(1, input)])
  {
    TemplateIsReady(w);
    OneAppend(Template(w), input);
    AppendsToNoRounds(Template(w), [input]);
  }

  lemma NoFirstRound(w: Wording, input: AppendInput)
    requires Harmless(w) && InRange(input) && !NoCellSaysRound(input)
    ensures Parse(AppendText(Template(w), input)) == Ok([])
  {
    TemplateIsEmptyLedger(w);
    HeaderAppendedToEmptyLedger(w.front, [""], w.trend, Sections(w), input);
  }

  lemma FirstLabelOfTemplate(w: Wording)
    requires Harmless(w)
    ensures LabelOf(NextNumber(Upgrade(Template(w)))) == "R1"
  {
    TemplateIsReady(w);
    NumberWhenReady(Template(w), 0);
    FirstLabel();
  }

  /** The first append where there is no ledger yet: the template is written, and then either
      the round R1 is in it, or, if a cell of its row reads "round", the append fails for want
      of an observation and leaves the template. */
  method AppendToNewLedger(w: Wording, input: AppendInput)
      returns (file: LedgerFile, r: Result<AppendOutcome, AppendError>)
    requires Harmless(w) && InRange(input)
    ensures fresh(file)
    ensures NoCellSaysRound(input) ==>
      r.Ok? && r.value.roundLabel == "R1" && Parse(file.text) == Ok([NewRound(1, input)])
    ensures !NoCellSaysRound(input) ==> r == Err(NoObservation) && file.text == Template(w)
  {
    file := new LedgerFile(Template(w));
    FirstLabelOfTemplate(w);
    if NoCellSaysRound(input) {
      FirstRound(w, input);
    } else {
      NoFirstRound(w, input);
    }
    r := file.Append(input);
  }
}

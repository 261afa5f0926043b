/**
Which headers of the summary the upgrade of src/audit_ledger.rs can live with, exactly.

A header that is not harmless is refuted by a text of three lines: the summary heading, the
header, and a row whose cells tell the columns apart.
*/
module LedgerHeaders {
  import opened Common
  import opened Text
  import opened LedgerAnalysis
  import opened LedgerTable
  import opened LedgerUpgrade
  import opened LedgerMeaning
  import opened LedgerProbes

  // ---------- eight columns read as widened rows ----------

  /** Widening leaves the reading of all eight-cell rows as it is under the legacy
      columns, and under no others. */
  lemma WideningKeepsReadingIff(c: Columns)
    requires ColumnsBelow(c, 8)
    ensures (forall cells: seq<string> :: |cells| == 8 ==>
               ReadRow(c, cells) == ReadRow(ForWidth(9), InsertCell(cells, ""))) <==> c == ForWidth(8)
  {
    forall cells: seq<string> | |cells| == 8
      ensures ReadRow(ForWidth(9), InsertCell(cells, "")) == ReadRow(ForWidth(8), cells)
    {
      WidenedRowReadsAlike(ForWidth(9), cells);
    }
    ProbeTellsColumns(c, ForWidth(8), 8);
    assert |Probe(8)| == 8;
  }

  // ---------- texts with one header ----------

  lemma {:induction false} TextWithLines(lines: seq<string>) returns (text: string)
    requires NoLineFeed(lines)
    ensures Lines(text) == lines
  {
    var ended := seq(|lines|, i requires 0 <= i < |lines| => lines[i] + ['\r']);
    text := Unlines(ended);
    LinesOfUnlines(ended);
    assert StripAll(ended) == lines;
  }

  /** A row of a table whose cells name a round column. */
  ghost predicate HeaderLine(line: string) {
    '\n' !in line && "|" <= TrimStart(line) && |SplitCells(line)| > 4 && IsHeaderRow(SplitCells(line))
  }

  /** A line that ends no section and is no header. */
  ghost predicate RowLine(line: string) {
    !IsHeading(line) && ('|' in line ==> !IsHeaderRow(SplitCells(line)))
  }

  /** The summary starts with this header and has no other. */
  ghost predicate TableUnder(lines: seq<string>, header: string) {
    && |lines| >= 2 && lines[0] == SUMMARY && lines[1] == header
    && forall i :: 2 <= i < |lines| ==> RowLine(lines[i])
  }

  ghost predicate KeepsMeaning(text: string) {
    Parse(Upgrade(text)) == Parse(text)
  }

  lemma SummaryOpens()
    ensures IsHeading(SUMMARY) && IsSummaryHeading(SUMMARY) && NextInSummary(false, SUMMARY)
    ensures UpgradeLine(true, SUMMARY) == SUMMARY && '\n' !in SUMMARY
    ensures ParseLine(INITIAL, SUMMARY) == Ok(ParseState(true, None, []))
  {
    assert Tight(SUMMARY) && SUMMARY[0] == '#';
    TightStays(SUMMARY);
  }

  lemma {:induction false} RowsAreHarmless(lines: seq<string>)
    requires forall i :: 0 <= i < |lines| ==> RowLine(lines[i])
    ensures HarmlessHeaders(true, lines)
    decreases |lines|
  {
    if lines != [] {
      RowsAreHarmless(lines[1..]);
    }
  }

  lemma HarmlessHeaderKeeps(text: string, header: string)
    requires HeaderLine(header) && TableUnder(Lines(text), header) && HarmlessCells(SplitCells(header))
    ensures KeepsMeaning(text)
  {
    var lines := Lines(text);
    SummaryOpens();
    TableLineIsNoHeading(header);
    RowsAreHarmless(lines[2..]);
    assert lines[1..][1..] == lines[2..];
    assert HarmlessHeaders(true, lines[1..]);
    UpgradeKeepsMeaning(text);
  }

  /** The header in force behind header cells. */
  function InForce(cells: seq<string>): Option<(nat, Columns)> {
    if FromHeader(cells).Some? then Some((|cells|, FromHeader(cells).value)) else None
  }

  /** The parser in the summary, with a header in force and no rounds yet. */
  function Under(header: Option<(nat, Columns)>): ParseState {
    ParseState(true, header, [])
  }

  lemma HeaderCellsParse(st: ParseState, cells: seq<string>)
    requires |cells| > 4 && IsHeaderRow(cells)
    ensures ParseCells(st, cells) == Ok(st.(header := InForce(cells)))
  {
    var i :| 0 <= i < |cells| && SameIgnoringCase(cells[i], "round");
    assert Lower(cells[i])[0] == Lower("round")[0] == 'r';
    assert cells[i][0] in cells[i];
  }

  /** The summary heading, a header and a row. */
  lemma ParseTable(header: string, row: string)
    requires HeaderLine(header) && "|" <= TrimStart(row)
    ensures ParseLines(INITIAL, [SUMMARY, header, row]) ==
      ParseCells(Under(InForce(SplitCells(header))), SplitCells(row))
  {
    var st := Under(InForce(SplitCells(header)));
    SummaryOpens();
    TableLineParses(Under(None), header);
    HeaderCellsParse(Under(None), SplitCells(header));
    TableLineParses(st, row);
    assert [row][1..] == [];
    assert ParseLines(st, [row]) == ParseCells(st, SplitCells(row));
    assert [header, row][1..] == [row];
    assert ParseLines(Under(None), [header, row]) == ParseCells(st, SplitCells(row));
    assert [SUMMARY, header, row][1..] == [header, row];
  }

  lemma UpgradeFirst(inSummary: bool, inside: bool, first: string, rest: seq<string>)
    requires inside == NextInSummary(inSummary, first)
    ensures UpgradeLines(inSummary, [first] + rest) == [UpgradeLine(inside, first)] + UpgradeLines(inside, rest)
  {
    assert ([first] + rest)[1..] == rest;
  }

  lemma TableLineUpgrades(row: string, rest: seq<string>)
    requires "|" <= TrimStart(row)
    ensures UpgradeLines(true, [row] + rest) == [UpgradeLine(true, row)] + UpgradeLines(true, rest)
  {
    TableLineIsNoHeading(row);
    UpgradeFirst(true, true, row, rest);
  }

  lemma UpgradeThree(a: string, b: string, c: string)
    requires NextInSummary(false, a) && UpgradeLine(true, a) == a && "|" <= TrimStart(b) && "|" <= TrimStart(c)
    ensures UpgradeLines(false, [a, b, c]) == [a, UpgradeLine(true, b), UpgradeLine(true, c)]
  {
    UpgradeFirst(false, true, a, [b] + ([c] + []));
    TableLineUpgrades(b, [c] + []);
    TableLineUpgrades(c, []);
    InThree(a, b, c);
    InThree(a, UpgradeLine(true, b), UpgradeLine(true, c));
  }

  lemma InThree<T>(a: T, b: T, c: T)
    ensures [a] + ([b] + ([c] + [])) == [a, b, c]
  {
  }

  function RoundsOf(r: Result<ParseState, ParseError>): Result<seq<Round>, ParseError> {
    match r
    case Err(e) => Err(e)
    case Ok(st) => Ok(st.rounds)
  }

  /** Both readings of a table of one row. */
  lemma TableReadings(text: string, header: string, row: string)
    requires Lines(text) == [SUMMARY, header, row] && HeaderLine(header) && "|" <= TrimStart(row)
    requires HeaderLine(UpgradeLine(true, header)) && "|" <= TrimStart(UpgradeLine(true, row))
    ensures Parse(text) == RoundsOf(ParseCells(Under(InForce(SplitCells(header))), SplitCells(row)))
    ensures Parse(Upgrade(text)) == RoundsOf(ParseCells(Under(InForce(SplitCells(UpgradeLine(true, header)))),
                                                        SplitCells(UpgradeLine(true, row))))
  {
    ParseTable(header, row);
    SummaryOpens();
    UpgradeThree(SUMMARY, header, row);
    ParseTable(UpgradeLine(true, header), UpgradeLine(true, row));
    ParseOfUpgrade(text);
  }

  lemma PrintedRowLine(cells: seq<string>)
    requires cells != [] && CleanCells(cells) && !IsHeaderRow(cells)
    requires forall i :: 0 <= i < |cells| ==> '\n' !in cells[i]
    ensures RowLine(PrintRow(cells)) && '\n' !in PrintRow(cells) && "|" <= TrimStart(PrintRow(cells))
    ensures SplitCells(PrintRow(cells)) == cells && SplitRow(PrintRow(cells)) == cells
  {
    PrintedRowSplits(cells);
    PrintRowHasNo(cells, '\n');
    TightStays(PrintRow(cells));
    TableLineIsNoHeading(PrintRow(cells));
  }

  lemma ThreeLines(a: string, b: string, c: string) returns (text: string)
    requires '\n' !in a && '\n' !in b && '\n' !in c
    ensures Lines(text) == [a, b, c]
  {
    text := TextWithLines([a, b, c]);
  }

  /** A text with the header and one row. */
  lemma RowUnder(header: string, row: string) returns (text: string)
    requires HeaderLine(header) && RowLine(row) && '\n' !in row
    ensures TableUnder(Lines(text), header) && Lines(text) == [SUMMARY, header, row]
  {
    SummaryOpens();
    text := ThreeLines(SUMMARY, header, row);
  }

  // ---------- headers that do harm ----------

  function RoundsRead(reading: RowReading): Result<seq<Round>, ParseError> {
    match reading
    case Nothing => Ok([])
    case Found(r) => Ok([r])
    case Bad(e) => Err(e)
  }

  lemma RowParses(header: Option<(nat, Columns)>, cells: seq<string>)
    requires |cells| > 4 && !IsSeparatorRow(cells) && !IsHeaderRow(cells)
    ensures RoundsOf(ParseCells(Under(header), cells)) == RoundsRead(ReadRow(Effective(header, |cells|), cells))
  {
    var reading := ReadRow(Effective(header, |cells|), cells);
    if reading.Found? {
      assert [] + [reading.round] == [reading.round];
    }
  }

  lemma RoundsReadDiffer(a: RowReading, b: RowReading)
    requires RoundsRead(a) == RoundsRead(b)
    ensures a == b
  {
    if a.Found? && b.Found? {
      assert a.round == [a.round][0] == [b.round][0] == b.round;
    }
  }

  lemma {:induction false} PositionIsFound(cells: seq<string>, name: string, i: nat)
    ensures var k := PositionFrom(cells, name, i);
      k.Some? ==> i <= k.value < |cells| && SameIgnoringCase(cells[k.value], name)
    decreases |cells| - i
  {
    if i < |cells| {
      PositionIsFound(cells, name, i + 1);
    }
  }

  lemma ColumnsAreCells(cells: seq<string>)
    ensures FromHeader(cells).Some? ==> ColumnsBelow(FromHeader(cells).value, |cells|)
  {
    PositionIsFound(cells, "high", 0);
    PositionIsFound(cells, "critical", 0);
    PositionIsFound(cells, "auditors", 0);
    PositionIsFound(cells, "coverage", 0);
  }

  lemma HeaderRowIsNoRule(cells: seq<string>)
    requires IsHeaderRow(cells)
    ensures !IsRule(cells)
  {
    var i :| 0 <= i < |cells| && SameIgnoringCase(cells[i], "round");
    assert |Lower(cells[i])| == |Lower("round")| == 5;
  }

  /** Only the legacy header and eight cells led by a round cell are replaced. */
  lemma HeaderStays(header: string)
    requires HeaderLine(header) && SplitCells(header) != LEGACY_HEADER
    requires |SplitCells(header)| == 8 ==> !IsRoundCell(SplitCells(header)[0])
    ensures UpgradeLine(true, header) == header
  {
    HeaderRowIsNoRule(SplitCells(header));
  }

  lemma ProbeIsReplaced(row: string)
    requires "|" <= TrimStart(row) && SplitRow(row) == Probe(8)
    ensures SplitCells(UpgradeLine(true, row)) == InsertCell(Probe(8), "") && "|" <= TrimStart(UpgradeLine(true, row))
  {
    LabelCountsNothing();
    assert Probe(8)[0] == "R1" && LEGACY_HEADER[0] == "round";
    ReplacedLineReads(row);
    TightStays(UpgradeLine(true, row));
  }

  /** A table of one eight-cell row under a header the upgrade leaves alone: its round is
      read by the header's columns before and, widened, by those of nine cells after. */
  lemma EightUnderStayingHeader(header: string) returns (text: string)
    requires HeaderLine(header) && UpgradeLine(true, header) == header
    ensures TableUnder(Lines(text), header) && Lines(text) == [SUMMARY, header, PrintRow(Probe(8))]
    ensures var h := InForce(SplitCells(header));
      && Parse(text) == RoundsRead(ReadRow(Effective(h, 8), Probe(8)))
      && Parse(Upgrade(text)) == RoundsRead(ReadRow(Effective(h, 9), InsertCell(Probe(8), "")))
  {
    var h := InForce(SplitCells(header));
    ProbeIsARow(8);
    WideProbe();
    PrintedRowLine(Probe(8));
    text := RowUnder(header, PrintRow(Probe(8)));
    ProbeIsReplaced(PrintRow(Probe(8)));
    TableReadings(text, header, PrintRow(Probe(8)));
    RowParses(h, Probe(8));
    RowParses(h, InsertCell(Probe(8), ""));
  }

  lemma EightColumnsDiffer(c: Columns)
    requires ColumnsBelow(c, 8) && c != ForWidth(8)
    ensures RoundsRead(ReadRow(c, Probe(8))) != RoundsRead(ReadRow(ForWidth(9), InsertCell(Probe(8), "")))
  {
    WidenedRowReadsAlike(ForWidth(9), Probe(8));
    ProbeTellsColumns(c, ForWidth(8), 8);
    if RoundsRead(ReadRow(c, Probe(8))) == RoundsRead(ReadRow(ForWidth(8), Probe(8))) {
      RoundsReadDiffer(ReadRow(c, Probe(8)), ReadRow(ForWidth(8), Probe(8)));
    }
  }

  lemma NineColumnsDiffer(c: Columns)
    requires ColumnsBelow(c, 9) && !ReadsWidenedRows(c)
    ensures RoundsRead(ReadRow(ForWidth(8), Probe(8))) != RoundsRead(ReadRow(c, InsertCell(Probe(8), "")))
  {
    WideProbeTellsColumns(c);
    if RoundsRead(ReadRow(ForWidth(8), Probe(8))) == RoundsRead(ReadRow(c, InsertCell(Probe(8), ""))) {
      RoundsReadDiffer(ReadRow(ForWidth(8), Probe(8)), ReadRow(c, InsertCell(Probe(8), "")));
    }
  }

  lemma EightCellHeaderHarms(header: string) returns (text: string)
    requires HeaderLine(header) && |SplitCells(header)| == 8 && !IsRoundCell(SplitCells(header)[0])
    requires FromHeader(SplitCells(header)).Some? && FromHeader(SplitCells(header)).value != ForWidth(8)
    ensures TableUnder(Lines(text), header) && !KeepsMeaning(text)
  {
    var c := FromHeader(SplitCells(header)).value;
    LegacyHeaderColumns();
    HeaderStays(header);
    text := EightUnderStayingHeader(header);
    ColumnsAreCells(SplitCells(header));
    EightColumnsDiffer(c);
  }

  lemma NineCellHeaderHarms(header: string) returns (text: string)
    requires HeaderLine(header) && |SplitCells(header)| == 9
    requires FromHeader(SplitCells(header)).Some? && !ReadsWidenedRows(FromHeader(SplitCells(header)).value)
    ensures TableUnder(Lines(text), header) && !KeepsMeaning(text)
  {
    var c := FromHeader(SplitCells(header)).value;
    HeaderStays(header);
    text := EightUnderStayingHeader(header);
    ColumnsAreCells(SplitCells(header));
    NineColumnsDiffer(c);
  }

  lemma {:induction false} PositionExists(cells: seq<string>, name: string, i: nat, j: nat)
    requires i <= j < |cells| && SameIgnoringCase(cells[j], name)
    ensures PositionFrom(cells, name, i).Some?
    decreases |cells| - i
  {
    if i < j {
      PositionExists(cells, name, i + 1, j);
    }
  }

  lemma WidenedPosition(cells: seq<string>, name: string)
    requires |cells| == 8 && PositionFrom(cells, name, 0).Some?
    ensures PositionFrom(InsertCell(cells, ""), name, 0).Some?
  {
    PositionIsFound(cells, name, 0);
    var k := PositionFrom(cells, name, 0).value;
    var wide := InsertCell(cells, "");
    assert wide[if k < 3 then k else k + 1] == cells[k];
    PositionExists(wide, name, 0, if k < 3 then k else k + 1);
  }

  /** A header that was widened has no coverage column where nine-cell rows have theirs. */
  lemma WidenedHeaderColumns(cells: seq<string>)
    requires |cells| == 8 && FromHeader(cells).Some?
    ensures var c := FromHeader(InsertCell(cells, ""));
      c.Some? && ColumnsBelow(c.value, 9) && c.value.coverage != Some(3)
  {
    WidenedPosition(cells, "high");
    WidenedPosition(cells, "critical");
    ColumnsAreCells(InsertCell(cells, ""));
    PositionIsFound(InsertCell(cells, ""), "coverage", 0);
    assert |Lower("")| == 0 && |Lower("coverage")| == 8;
  }

  /** A header that is also a round row is widened itself. */
  lemma WidenedHeaderReads(header: string)
    requires HeaderLine(header) && |SplitCells(header)| == 8 && IsRoundCell(SplitCells(header)[0])
    ensures HeaderLine(UpgradeLine(true, header))
    ensures SplitCells(UpgradeLine(true, header)) == InsertCell(SplitCells(header), "")
  {
    var cells := SplitCells(header);
    assert cells != LEGACY_HEADER by {
      assert LEGACY_HEADER[0] == "round";
    }
    HeaderRowIsNoRule(cells);
    ReplacedLineReads(header);
    TightStays(UpgradeLine(true, header));
    UpgradeLineHasNoLineFeed(true, header);
    WidenedHeaderRow(cells);
  }

  lemma NineProbeStays(row: string)
    requires SplitRow(row) == Probe(9)
    ensures UpgradeLine(true, row) == row
  {
    assert Probe(9)[0] == "R1";
  }

  lemma CoverageColumnsDiffer(c: Columns)
    requires ColumnsBelow(c, 9) && c.coverage != Some(3)
    ensures RoundsRead(ReadRow(ForWidth(9), Probe(9))) != RoundsRead(ReadRow(c, Probe(9)))
  {
    ProbeTellsColumns(c, ForWidth(9), 9);
    if RoundsRead(ReadRow(ForWidth(9), Probe(9))) == RoundsRead(ReadRow(c, Probe(9))) {
      RoundsReadDiffer(ReadRow(ForWidth(9), Probe(9)), ReadRow(c, Probe(9)));
    }
  }

  /** A table of one nine-cell row under a header of eight cells that is widened: its round
      is read by the columns of its width before and by the widened header's after. */
  lemma NineUnderWidenedHeader(header: string) returns (text: string)
    requires HeaderLine(header) && |SplitCells(header)| == 8 && IsRoundCell(SplitCells(header)[0])
    ensures TableUnder(Lines(text), header)
    ensures var wide := InsertCell(SplitCells(header), "");
      && Parse(text) == RoundsRead(ReadRow(ForWidth(9), Probe(9)))
      && Parse(Upgrade(text)) == RoundsRead(ReadRow(Effective(InForce(wide), 9), Probe(9)))
  {
    var cells := SplitCells(header);
    WidenedHeaderReads(header);
    ProbeIsARow(9);
    PrintedRowLine(Probe(9));
    text := RowUnder(header, PrintRow(Probe(9)));
    NineProbeStays(PrintRow(Probe(9)));
    TableReadings(text, header, PrintRow(Probe(9)));
    RowParses(InForce(cells), Probe(9));
    RowParses(InForce(InsertCell(cells, "")), Probe(9));
  }

  lemma RoundCellHeaderHarms(header: string) returns (text: string)
    requires HeaderLine(header) && |SplitCells(header)| == 8 && IsRoundCell(SplitCells(header)[0])
    requires FromHeader(SplitCells(header)).Some?
    ensures TableUnder(Lines(text), header) && !KeepsMeaning(text)
  {
    text := NineUnderWidenedHeader(header);
    WidenedHeaderColumns(SplitCells(header));
    CoverageColumnsDiffer(FromHeader(InsertCell(SplitCells(header), "")).value);
  }

  lemma HarmfulHeader(header: string) returns (text: string)
    requires HeaderLine(header) && !HarmlessCells(SplitCells(header))
    ensures TableUnder(Lines(text), header) && !KeepsMeaning(text)
  {
    if |SplitCells(header)| == 9 {
      text := NineCellHeaderHarms(header);
    } else if IsRoundCell(SplitCells(header)[0]) {
      text := RoundCellHeaderHarms(header);
    } else {
      text := EightCellHeaderHarms(header);
    }
  }

  /** Exactly the harmless headers are safe: whatever rows follow, the upgrade keeps the
      meaning of the ledger; and under any other header there is a ledger it changes. */
  lemma HeaderIsSafeIffHarmless(header: string)
    requires HeaderLine(header)
    ensures (forall text :: TableUnder(Lines(text), header) ==> KeepsMeaning(text))
      <==> HarmlessCells(SplitCells(header))
  {
    if HarmlessCells(SplitCells(header)) {
      forall text | TableUnder(Lines(text), header)
        ensures KeepsMeaning(text)
      {
        HarmlessHeaderKeeps(text, header);
      }
    } else {
      var text := HarmfulHeader(header);
    }
  }

  // ---------- one such ledger ----------

  const FOREIGN_HEADER: seq<string> := ["round", "high", "critical", "a", "b", "c", "d", "e"]

  lemma ForeignHeaderColumns()
    ensures FromHeader(FOREIGN_HEADER) == Some(Columns(1, 2, None, None))
    ensures IsHeaderRow(FOREIGN_HEADER) && !IsRoundCell(FOREIGN_HEADER[0])
  {
    forall i | 0 <= i < 8
      ensures i != 1 ==> !SameIgnoringCase(FOREIGN_HEADER[i], "high")
      ensures i != 2 ==> !SameIgnoringCase(FOREIGN_HEADER[i], "critical")
      ensures !SameIgnoringCase(FOREIGN_HEADER[i], "auditors") && !SameIgnoringCase(FOREIGN_HEADER[i], "coverage")
    {
      if i == 2 {
        Differ(FOREIGN_HEADER[i], "auditors", 0);
        Differ(FOREIGN_HEADER[i], "coverage", 1);
      }
    }
    FindFirst(FOREIGN_HEADER, "high", 1);
    FindFirst(FOREIGN_HEADER, "critical", 2);
    FindNone(FOREIGN_HEADER, "auditors");
    FindNone(FOREIGN_HEADER, "coverage");
    assert SameIgnoringCase(FOREIGN_HEADER[0], "round");
  }

  lemma ForeignHeaderIsClean()
    ensures CleanCells(FOREIGN_HEADER) && forall i :: 0 <= i < |FOREIGN_HEADER| ==> '\n' !in FOREIGN_HEADER[i]
  {
  }

  lemma ForeignHeaderLine()
    ensures HeaderLine(PrintRow(FOREIGN_HEADER)) && SplitCells(PrintRow(FOREIGN_HEADER)) == FOREIGN_HEADER
  {
    ForeignHeaderColumns();
    ForeignHeaderIsClean();
    PrintedRowSplits(FOREIGN_HEADER);
    PrintRowHasNo(FOREIGN_HEADER, '\n');
    TightStays(PrintRow(FOREIGN_HEADER));
  }

  lemma ProbeOfEight()
    ensures Probe(8) == ["R1", "1", "2", "3", "4", "5", "6", "7"]
  {
    forall i | 0 < i < 8
      ensures Probe(8)[i] == [DigitChar(i)]
    {
      DigitCounts(i);
    }
  }

  lemma ForeignReadings()
    ensures ReadRow(Columns(1, 2, None, None), Probe(8)) == Found(Round("R1", 1, 2, None, None))
    ensures ReadRow(ForWidth(9), InsertCell(Probe(8), "")) == Found(Round("R1", 3, 4, Some("2"), None))
  {
    ProbeReading(Columns(1, 2, None, None), 8);
    ProbeReading(ForWidth(8), 8);
    WidenedRowReadsAlike(ForWidth(9), Probe(8));
    DigitCounts(2);
  }

  lemma ForeignHeaderStays(header: string)
    requires HeaderLine(header) && SplitCells(header) == FOREIGN_HEADER
    ensures UpgradeLine(true, header) == header && InForce(SplitCells(header)) == Some((8, Columns(1, 2, None, None)))
  {
    ForeignHeaderColumns();
    assert FOREIGN_HEADER[1] == "high" && LEGACY_HEADER[1] == "artifact";
    HeaderStays(header);
  }

  /** A ledger whose one round has the counts 1 and 2 and, upgraded, 3 and 4: the header
      stays and the row is widened. */
  lemma ForeignHeaderLosesMeaning() returns (text: string)
    ensures Lines(text) == [SUMMARY, PrintRow(FOREIGN_HEADER), PrintRow(["R1", "1", "2", "3", "4", "5", "6", "7"])]
    ensures Parse(text) == Ok([Round("R1", 1, 2, None, None)])
    ensures Parse(Upgrade(text)) == Ok([Round("R1", 3, 4, Some("2"), None)])
  {
    var header := PrintRow(FOREIGN_HEADER);
    ForeignHeaderLine();
    ForeignHeaderStays(header);
    text := EightUnderStayingHeader(header);
    ForeignReadings();
    ProbeOfEight();
  }
}

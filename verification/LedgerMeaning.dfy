/**
An upgraded ledger reads exactly as before: same rounds or same failure, with rows
of both widths mixed, whenever the headers of the summary are harmless.

Headers are harmless if widened rows read under them as the narrow rows did.
*/
module LedgerMeaning {
  import opened Common
  import opened Text
  import opened LedgerTable
  import opened LedgerUpgrade

  /** Columns under which a widened row reads as the eight-cell row it was made of. */
  predicate ReadsWidenedRows(c: Columns) {
    c.high == 4 && c.critical == 5 && c.auditors == Some(2) && (c.coverage == None || c.coverage == Some(3))
  }

  /** A header the upgrade can live with: one that names no counts, one of eight cells
      that is no round row and names the legacy columns, one of nine cells that reads
      widened rows, or one of any other width. */
  predicate HarmlessCells(cells: seq<string>) {
    IsHeaderRow(cells) && FromHeader(cells).Some? ==>
      && (|cells| == 8 ==> FromHeader(cells).value == ForWidth(8) && !IsRoundCell(cells[0]))
      && (|cells| == 9 ==> ReadsWidenedRows(FromHeader(cells).value))
  }

  predicate HarmlessHeaders(inSummary: bool, lines: seq<string>)
    decreases |lines|
  {
    lines == [] ||
      var inside := if IsHeading(lines[0]) then IsSummaryHeading(lines[0]) else inSummary;
      (inside && !IsHeading(lines[0]) && '|' in lines[0] ==> HarmlessCells(SplitCells(lines[0])))
      && HarmlessHeaders(inside, lines[1..])
  }

  predicate HarmlessHeader(header: Option<(nat, Columns)>) {
    header.Some? ==>
      && (header.value.0 == 8 ==> header.value.1 == ForWidth(8))
      && (header.value.0 == 9 ==> ReadsWidenedRows(header.value.1))
  }

  lemma {:induction false} PlainIsHarmless(inSummary: bool, lines: seq<string>)
    requires PlainHeaders(inSummary, lines)
    ensures HarmlessHeaders(inSummary, lines)
    decreases |lines|
  {
    if lines != [] {
      PlainIsHarmless(if IsHeading(lines[0]) then IsSummaryHeading(lines[0]) else inSummary, lines[1..]);
    }
  }

  /** Parser states that read every coming row alike, before and after the upgrade. */
  ghost predicate Related(a: ParseState, b: ParseState) {
    && a.inSummary == b.inSummary && a.rounds == b.rounds
    && HarmlessHeader(a.header) && HarmlessHeader(b.header)
    && forall width: nat :: Effective(a.header, width) == Effective(b.header, width)
  }

  ghost predicate RelatedResults(a: Result<ParseState, ParseError>, b: Result<ParseState, ParseError>) {
    match (a, b)
    case (Err(e), Err(f)) => e == f
    case (Ok(s), Ok(t)) => Related(s, t)
    case _ => false
  }

  lemma SameCellsReadAlike(a: ParseState, b: ParseState, cells: seq<string>)
    requires Related(a, b) && HarmlessCells(cells)
    ensures RelatedResults(ParseCells(a, cells), ParseCells(b, cells))
  {
  }

  lemma RuleReadsAsNothing(st: ParseState, cells: seq<string>)
    requires IsRule(cells)
    ensures ParseCells(st, cells) == Ok(st)
  {
    assert cells[0] != [];
    assert IsSeparatorRow(cells);
  }

  lemma HeadersReadAlike(a: ParseState, b: ParseState)
    requires Related(a, b)
    ensures RelatedResults(ParseCells(a, LEGACY_HEADER), ParseCells(b, HEADER))
  {
    StandardHeadersArePlain();
    assert 'r' in LEGACY_HEADER[0] && 'r' in HEADER[0];
  }

  lemma RoundCellIsNoSeparator(cells: seq<string>)
    requires cells != [] && IsRoundCell(cells[0])
    ensures !IsSeparatorRow(cells)
  {
    assert 'R' in cells[0];
  }

  /** Inserting an empty coverage cell shifts the counts where the wider schema has them. */
  lemma WidenedRowReadsAlike(c: Columns, cells: seq<string>)
    requires |cells| == 8 && ReadsWidenedRows(c)
    ensures ReadRow(c, InsertCell(cells, "")) == ReadRow(ForWidth(8), cells)
  {
    var wide := InsertCell(cells, "");
    assert wide[4] == cells[3] && wide[5] == cells[4] && wide[2] == cells[2] && wide[0] == cells[0] && wide[3] == "";
  }

  lemma WidenedHeaderRow(cells: seq<string>)
    requires |cells| == 8
    ensures IsHeaderRow(InsertCell(cells, "")) <==> IsHeaderRow(cells)
    ensures FromHeader(cells) == None ==> FromHeader(InsertCell(cells, "")) == None
  {
    var wide := InsertCell(cells, "");
    assert Lower("") == "";
    assert |Lower("round")| == 5;
    assert forall i :: 0 <= i < 8 ==> cells[i] == wide[if i < 3 then i else i + 1];
    if IsHeaderRow(cells) {
      var i :| 0 <= i < |cells| && SameIgnoringCase(cells[i], "round");
      assert SameIgnoringCase(wide[if i < 3 then i else i + 1], "round");
    }
    if IsHeaderRow(wide) {
      var i :| 0 <= i < |wide| && SameIgnoringCase(wide[i], "round");
      assert i != 3;
      assert SameIgnoringCase(cells[if i < 3 then i else i - 1], "round");
    }
    if FromHeader(cells) == None {
      var name := if PositionFrom(cells, "high", 0).None? then "high" else "critical";
      NotFoundMeansAbsent(cells, name, 0);
      assert |Lower(name)| > 0;
      FindNone(wide, name);
    }
  }

  lemma {:induction false} NotFoundMeansAbsent(cells: seq<string>, name: string, i: nat)
    requires PositionFrom(cells, name, i) == None
    ensures forall j :: i <= j < |cells| ==> !SameIgnoringCase(cells[j], name)
    decreases |cells| - i
  {
    if i < |cells| {
      NotFoundMeansAbsent(cells, name, i + 1);
    }
  }

  lemma WidenedCellsReadAlike(a: ParseState, b: ParseState, cells: seq<string>)
    requires Related(a, b) && HarmlessCells(cells) && |cells| == 8 && IsRoundCell(cells[0])
    ensures RelatedResults(ParseCells(a, cells), ParseCells(b, InsertCell(cells, "")))
  {
    var wide := InsertCell(cells, "");
    assert wide[0] == cells[0];
    RoundCellIsNoSeparator(cells);
    RoundCellIsNoSeparator(wide);
    WidenedHeaderRow(cells);
    if !IsHeaderRow(cells) {
      assert Effective(a.header, 8) == ForWidth(8) && ReadsWidenedRows(Effective(b.header, 9));
      WidenedRowReadsAlike(Effective(b.header, 9), cells);
    }
  }

  lemma ReplacedCellsReadAlike(a: ParseState, b: ParseState, cells: seq<string>, next: seq<string>)
    requires Related(a, b) && Replaces(cells) && HarmlessCells(cells)
    requires next == if cells == LEGACY_HEADER then HEADER else if IsRule(cells) then RULE else InsertCell(cells, "")
    ensures RelatedResults(ParseCells(a, cells), ParseCells(b, next))
  {
    if cells == LEGACY_HEADER {
      HeadersReadAlike(a, b);
    } else if IsRule(cells) {
      RuleReadsAsNothing(a, cells);
      RuleReadsAsNothing(b, next);
    } else {
      WidenedCellsReadAlike(a, b, cells);
    }
  }

  lemma TableLineParses(st: ParseState, line: string)
    requires "|" <= TrimStart(line)
    ensures ParseLine(st, line) == if st.inSummary then ParseCells(st, SplitCells(line)) else Ok(st)
  {
    TableLineIsNoHeading(line);
  }

  lemma UpgradedLineReadsAlike(a: ParseState, b: ParseState, inSummary: bool, line: string)
    requires Related(a, b)
    requires a.inSummary && !IsHeading(line) && '|' in line ==> HarmlessCells(SplitCells(line))
    ensures RelatedResults(ParseLine(a, line), ParseLine(b, UpgradeLine(inSummary, line)))
  {
    if inSummary && Replaces(SplitRow(line)) {
      var l := UpgradeLine(inSummary, line);
      ReplacedLineReads(line);
      TightStays(l);
      TableLineIsNoHeading(line);
      TableLineParses(a, line);
      TableLineParses(b, l);
      if a.inSummary {
        ReplacedCellsReadAlike(a, b, SplitCells(line), SplitCells(l));
      }
    } else if a.inSummary && !IsHeading(line) && '|' in line {
      SameCellsReadAlike(a, b, SplitCells(line));
    }
  }

  lemma {:induction false} UpgradedLinesReadAlike(a: ParseState, b: ParseState, inSummary: bool, lines: seq<string>)
    requires Related(a, b) && HarmlessHeaders(a.inSummary, lines)
    ensures RelatedResults(ParseLines(a, lines), ParseLines(b, UpgradeLines(inSummary, lines)))
    decreases |lines|
  {
    if lines != [] {
      var inside := NextInSummary(inSummary, lines[0]);
      UpgradedLineReadsAlike(a, b, inside, lines[0]);
      var x := ParseLine(a, lines[0]);
      var y := ParseLine(b, UpgradeLine(inside, lines[0]));
      if x.Ok? {
        ParsedSection(a, lines[0]);
        UpgradedLinesReadAlike(x.value, y.value, inside, lines[1..]);
      }
    }
  }

  lemma ParsedSection(st: ParseState, line: string)
    requires ParseLine(st, line).Ok?
    ensures ParseLine(st, line).value.inSummary == if IsHeading(line) then IsSummaryHeading(line) else st.inSummary
  {
  }

  /** The upgraded text read as lines, with blank text as no line. */
  lemma ParseOfUpgrade(text: string)
    ensures Parse(Upgrade(text)) ==
      match ParseLines(INITIAL, UpgradeLines(false, Lines(text))) case Err(e) => Err(e) case Ok(st) => Ok(st.rounds)
  {
    UpgradedText(text);
    ParseLinesIgnoreCr(INITIAL, Upgraded(text));
    if UpgradeLines(false, Lines(text)) == [] {
      BlankLineReadsAsNothing();
    }
  }

  /** The upgrade keeps the meaning of a ledger whose summary headers are harmless. */
  lemma UpgradeKeepsMeaning(text: string)
    requires HarmlessHeaders(false, Lines(text))
    ensures Parse(Upgrade(text)) == Parse(text)
  {
    ParseOfUpgrade(text);
    UpgradedLinesReadAlike(INITIAL, INITIAL, false, Lines(text));
  }

  lemma BlankLineReadsAsNothing()
    ensures ParseLines(INITIAL, [""]) == Ok(INITIAL)
  {
    assert ParseLine(INITIAL, "") == Ok(INITIAL);
    assert [""][1..] == [];
  }

  // ---------- upgraded headers stay plain ----------

  lemma UpgradedLineStaysPlain(inSummary: bool, line: string)
    requires !IsHeading(line) && '|' in line ==> PlainCells(SplitCells(line))
    ensures var l := StripCr(UpgradeLine(inSummary, line));
      && IsHeading(l) == IsHeading(line)
      && (IsHeading(line) ==> IsSummaryHeading(l) == IsSummaryHeading(line))
      && (!IsHeading(l) && '|' in l ==> PlainCells(SplitCells(l)))
  {
    var cells := SplitRow(line);
    RowsIgnoreCr(line);
    if inSummary && Replaces(cells) {
      TableLineIsNoHeading(line);
      ReplacedLineReads(line);
      ReplacedLineStays(line);
      var l := UpgradeLine(inSummary, line);
      TightStays(l);
      TableLineIsNoHeading(l);
      if cells == LEGACY_HEADER {
        StandardHeadersArePlain();
      } else if IsRule(cells) {
        RuleIsNoHeader();
      } else {
        WidenedHeaderRow(cells);
      }
    } else {
      StripCrHarmless(line, "## ");
    }
  }

  lemma RuleIsNoHeader()
    ensures !IsHeaderRow(RULE)
  {
    forall i | 0 <= i < |RULE|
      ensures !SameIgnoringCase(RULE[i], "round")
    {
      Differ(RULE[i], "round", 0);
    }
  }

  /** As UpgradedLineStaysPlain, for lines the parser does not look at. */
  lemma HeadingSurvives(inSummary: bool, line: string)
    ensures var l := StripCr(UpgradeLine(inSummary, line));
      IsHeading(l) == IsHeading(line) && (IsHeading(line) ==> IsSummaryHeading(l) == IsSummaryHeading(line))
  {
    RowsIgnoreCr(line);
    StripCrHarmless(line, "## ");
    if inSummary && Replaces(SplitRow(line)) {
      TableLineIsNoHeading(line);
      ReplacedLineReads(line);
      ReplacedLineStays(line);
      TightStays(UpgradeLine(inSummary, line));
      TableLineIsNoHeading(UpgradeLine(inSummary, line));
    }
  }

  lemma {:induction false} UpgradedLinesStayPlain(parsing: bool, inSummary: bool, lines: seq<string>)
    requires PlainHeaders(parsing, lines)
    ensures PlainHeaders(parsing, StripAll(UpgradeLines(inSummary, lines)))
    decreases |lines|
  {
    if lines != [] {
      var inside := NextInSummary(inSummary, lines[0]);
      var first := UpgradeLine(inside, lines[0]);
      var rest := UpgradeLines(inside, lines[1..]);
      var section := if IsHeading(lines[0]) then IsSummaryHeading(lines[0]) else parsing;
      HeadingSurvives(inside, lines[0]);
      if section {
        UpgradedLineStaysPlain(inside, lines[0]);
      }
      UpgradedLinesStayPlain(section, inside, lines[1..]);
      StripAllInParts(first, rest);
    }
  }
}

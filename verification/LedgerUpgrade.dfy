/**
What the schema upgrade of src/audit_ledger.rs does to a ledger: when a second
upgrade changes nothing, and that an upgraded ledger reads as it did before.
*/
module LedgerUpgrade {
  import opened Common
  import opened Text
  import opened LedgerTable

  // ---------- carriage returns never matter to the readers ----------

  lemma RowsIgnoreCr(line: string)
    ensures SplitRow(StripCr(line)) == SplitRow(line) && SplitCells(StripCr(line)) == SplitCells(line)
    ensures forall inSummary :: NextInSummary(inSummary, StripCr(line)) == NextInSummary(inSummary, line)
    ensures IsHeading(StripCr(line)) == IsHeading(line)
    ensures ('|' in StripCr(line)) == ('|' in line)
  {
    StripCrHarmless(line, "|");
    StripCrHarmless(line, "## ");
    if StripCr(line) != line {
      assert line == StripCr(line) + ['\r'];
    }
  }

  lemma ParseLineIgnoresCr(st: ParseState, line: string)
    ensures ParseLine(st, StripCr(line)) == ParseLine(st, line)
  {
    RowsIgnoreCr(line);
    StripCrHarmless(line, "## ");
  }

  lemma {:induction false} ParseLinesIgnoreCr(st: ParseState, lines: seq<string>)
    ensures ParseLines(st, StripAll(lines)) == ParseLines(st, lines)
    decreases |lines|
  {
    if lines != [] {
      assert StripAll(lines)[1..] == StripAll(lines[1..]);
      ParseLineIgnoresCr(st, lines[0]);
      var next := ParseLine(st, lines[0]);
      if next.Ok? {
        ParseLinesIgnoreCr(next.value, lines[1..]);
      }
    }
  }

  // ---------- the replaced lines ----------

  lemma InsertedCellsClean(cells: seq<string>, cell: string)
    requires |cells| >= 3 && CleanCells(cells) && CleanCell(cell)
    ensures CleanCells(InsertCell(cells, cell)) && |InsertCell(cells, cell)| == |cells| + 1
  {
  }

  lemma FixedHeadersClean()
    ensures CleanCells(LEGACY_HEADER) && CleanCells(HEADER)
    ensures InsertCell(LEGACY_HEADER, "coverage") == HEADER
  {
  }

  lemma BareRowSplits(parts: seq<string>)
    requires parts != []
    requires forall i :: 0 <= i < |parts| ==> parts[i] != [] && Tight(parts[i]) && '|' !in parts[i]
    ensures var row := "|" + Join(parts, "|") + "|";
      && SplitCells(row) == parts && SplitRow(row) == parts
      && "|" <= row && Tight(row) && row[|row| - 1] == '|'
  {
    var body := Join(parts, "|");
    var row := "|" + body + "|";
    TightStays(row);
    JoinEnds(parts);
    assert row[1..] == body + "|";
    assert StripLeading(row, '|') == body + "|";
    assert (body + "|")[..|body|] == body;
    assert StripTrailing(body + "|", '|') == body;
    SplitJoin(parts, '|');
    forall i | 0 <= i < |parts|
      ensures Trim(parts[i]) == parts[i]
    {
      TightStays(parts[i]);
    }
  }

  lemma SeparatorSplits()
    ensures SplitRow(SEPARATOR) == RULE && SplitCells(SEPARATOR) == RULE
    ensures "|" <= SEPARATOR && Tight(SEPARATOR) && SEPARATOR[|SEPARATOR| - 1] == '|'
  {
    BareRowSplits(RULE);
  }

  lemma {:induction false} JoinEnds(parts: seq<string>)
    requires parts != [] && forall i :: 0 <= i < |parts| ==> parts[i] != [] && '|' !in parts[i]
    ensures var body := Join(parts, "|");
      body != [] && body[0] != '|' && body[|body| - 1] != '|'
  {
    if |parts| == 1 {
      assert parts[0][0] in parts[0] && parts[0][|parts[0]| - 1] in parts[0];
    } else {
      JoinEnds(parts[1..]);
      assert parts[0][0] in parts[0];
    }
  }

  /** How the replaced lines read back. */
  lemma ReplacedLineReads(line: string)
    requires Replaces(SplitRow(line))
    ensures var l := UpgradeLine(true, line);
      && "|" <= l && Tight(l) && l[|l| - 1] == '|' && SplitRow(l) == SplitCells(l)
      && SplitCells(l) ==
        if SplitRow(line) == LEGACY_HEADER then HEADER
        else if IsRule(SplitRow(line)) then RULE
        else InsertCell(SplitRow(line), "")
  {
    var cells := SplitRow(line);
    SplitCellsAreClean(line);
    if cells == LEGACY_HEADER {
      FixedHeadersClean();
      PrintedRowSplits(HEADER);
    } else if IsRule(cells) {
      SeparatorSplits();
    } else {
      InsertedCellsClean(cells, "");
      PrintedRowSplits(InsertCell(cells, ""));
    }
  }

  lemma NothingMoreToReplace(cells: seq<string>)
    requires Replaces(cells)
    ensures cells != LEGACY_HEADER && !IsRule(cells) ==> !Replaces(InsertCell(cells, ""))
  {
    if cells != LEGACY_HEADER && !IsRule(cells) {
      var wide := InsertCell(cells, "");
      assert wide[0] == cells[0] && wide[0][0] == 'R';
      assert !IsRule(wide);
    }
  }

  lemma HeaderIsSettled()
    ensures !Replaces(HEADER) && IsRule(RULE) && RULE != LEGACY_HEADER
  {
    assert HEADER[0] == "round";
  }

  lemma ReplacedLineStays(line: string)
    requires Replaces(SplitRow(line))
    ensures var l := UpgradeLine(true, line);
      StripCr(l) == l && UpgradeLine(true, l) == l
  {
    ReplacedLineReads(line);
    NothingMoreToReplace(SplitRow(line));
    HeaderIsSettled();
  }

  // ---------- idempotence ----------

  predicate EndsWithCr(line: string) {
    line != [] && line[|line| - 1] == '\r'
  }

  /** The upgrade changes nothing more about a line it has been through. */
  lemma UpgradedLineIsStable(inSummary: bool, line: string)
    ensures var l := StripCr(UpgradeLine(inSummary, line));
      UpgradeLine(inSummary, l) == l
  {
    RowsIgnoreCr(line);
    if inSummary && Replaces(SplitRow(line)) {
      ReplacedLineStays(line);
    }
  }

  lemma UpgradeKeepsSections(before: bool, inSummary: bool, line: string)
    requires inSummary == NextInSummary(before, line)
    ensures NextInSummary(before, StripCr(UpgradeLine(inSummary, line))) == inSummary
  {
    RowsIgnoreCr(line);
    if inSummary && Replaces(SplitRow(line)) {
      ReplacedLineReads(line);
      ReplacedLineStays(line);
      TableLineIsNoHeading(line);
      TableLineIsNoHeading(UpgradeLine(inSummary, line));
    }
  }

  lemma TableLineIsNoHeading(line: string)
    requires "|" <= TrimStart(line)
    ensures !("## " <= TrimStart(line)) && !IsHeading(line) && '|' in line
  {
    TrimStartShape(line);
    assert TrimStart(line)[0] == '|' && '|' in TrimStart(line);
  }

  lemma StripAllInParts(first: string, rest: seq<string>)
    ensures StripAll([first] + rest) == [StripCr(first)] + StripAll(rest)
  {
    assert ([first] + rest)[1..] == rest;
  }

  lemma StableInParts(inSummary: bool, inside: bool, first: string, rest: seq<string>)
    requires inside == NextInSummary(inSummary, first) && UpgradeLine(inside, first) == first
    requires UpgradeLines(inside, rest) == rest
    ensures UpgradeLines(inSummary, [first] + rest) == [first] + rest
  {
    assert ([first] + rest)[1..] == rest;
  }

  lemma {:induction false} UpgradedLinesAreStable(inSummary: bool, lines: seq<string>)
    ensures var l := StripAll(UpgradeLines(inSummary, lines));
      UpgradeLines(inSummary, l) == l
    decreases |lines|
  {
    if lines != [] {
      var inside := NextInSummary(inSummary, lines[0]);
      var first := StripCr(UpgradeLine(inside, lines[0]));
      var rest := StripAll(UpgradeLines(inside, lines[1..]));
      UpgradedLineIsStable(inside, lines[0]);
      UpgradeKeepsSections(inSummary, inside, lines[0]);
      UpgradedLinesAreStable(inside, lines[1..]);
      StableInParts(inSummary, inside, first, rest);
      StripAllInParts(UpgradeLine(inside, lines[0]), UpgradeLines(inside, lines[1..]));
    }
  }

  lemma PrintRowHasNo(cells: seq<string>, c: char)
    requires c != ' ' && c != '|' && forall i :: 0 <= i < |cells| ==> c !in cells[i]
    ensures c !in PrintRow(cells)
  {
    JoinKeepsOut(cells, " | ", c);
  }

  lemma SeparatorHasNoLineFeed()
    ensures '\n' !in SEPARATOR
  {
    JoinKeepsOut(RULE, "|", '\n');
  }

  lemma WidenedRowHasNoLineFeed(cells: seq<string>, cell: string)
    requires |cells| >= 3 && '\n' !in cell
    requires forall i :: 0 <= i < |cells| ==> '\n' !in cells[i]
    ensures '\n' !in PrintRow(InsertCell(cells, cell))
  {
    PrintRowHasNo(InsertCell(cells, cell), '\n');
  }

  lemma UpgradeLineHasNoLineFeed(inSummary: bool, line: string)
    requires '\n' !in line
    ensures '\n' !in UpgradeLine(inSummary, line)
  {
    var cells := SplitRow(line);
    if inSummary && Replaces(cells) {
      SplitCellsAreClean(line);
      SeparatorHasNoLineFeed();
      if cells == LEGACY_HEADER {
        WidenedRowHasNoLineFeed(cells, "coverage");
      } else if !IsRule(cells) {
        WidenedRowHasNoLineFeed(cells, "");
      }
    }
  }

  lemma {:induction false} UpgradeLinesHaveNoLineFeed(inSummary: bool, lines: seq<string>)
    requires NoLineFeed(lines)
    ensures NoLineFeed(UpgradeLines(inSummary, lines))
    decreases |lines|
  {
    if lines != [] {
      UpgradeLineHasNoLineFeed(NextInSummary(inSummary, lines[0]), lines[0]);
      UpgradeLinesHaveNoLineFeed(NextInSummary(inSummary, lines[0]), lines[1..]);
    }
  }

  /** The lines of an upgraded text, each followed by a line feed. */
  function Upgraded(text: string): seq<string> {
    var lines := UpgradeLines(false, Lines(text));
    if lines == [] then [""] else lines
  }

  lemma UpgradedText(text: string)
    ensures Upgrade(text) == Unlines(Upgraded(text)) && NoLineFeed(Upgraded(text))
    ensures Lines(Upgrade(text)) == StripAll(Upgraded(text))
    ensures UpgradeLines(false, StripAll(Upgraded(text))) == StripAll(Upgraded(text))
  {
    var lines := UpgradeLines(false, Lines(text));
    JoinedLines(lines);
    LinesHaveNoLineFeed(text);
    UpgradeLinesHaveNoLineFeed(false, Lines(text));
    LinesOfUnlines(Upgraded(text));
    UpgradedLinesAreStable(false, Lines(text));
    if lines == [] {
      assert StripAll([""]) == [""];
      assert NextInSummary(false, "") == false;
      assert UpgradeLines(false, [""]) == [UpgradeLine(false, "")] + UpgradeLines(false, [""][1..]);
    }
  }

  predicate NoneEndsWithCr(lines: seq<string>) {
    forall i :: 0 <= i < |lines| ==> !EndsWithCr(lines[i])
  }

  lemma NoneEndsWithCrCons(line: string, lines: seq<string>)
    ensures NoneEndsWithCr([line] + lines) <==> !EndsWithCr(line) && NoneEndsWithCr(lines)
  {
    assert ([line] + lines)[0] == line;
    assert forall i :: 0 <= i < |lines| ==> ([line] + lines)[i + 1] == lines[i];
  }

  lemma StripAllChangesOnlyCr(lines: seq<string>)
    ensures StripAll(lines) == lines <==> NoneEndsWithCr(lines)
  {
    if StripAll(lines) == lines {
      forall i | 0 <= i < |lines|
        ensures !EndsWithCr(lines[i])
      {
        assert StripAll(lines)[i] == lines[i];
      }
    }
  }

  /** No line the upgrade copies as it is ends with a carriage return. A line of a text
      ends with one only where the text has a return that no line feed follows directly. */
  predicate CopiesNoCr(inSummary: bool, lines: seq<string>)
    decreases |lines|
  {
    lines == [] ||
      var inside := NextInSummary(inSummary, lines[0]);
      ((inside && Replaces(SplitRow(lines[0]))) || !EndsWithCr(lines[0]))
      && CopiesNoCr(inside, lines[1..])
  }

  lemma CopiedCr(inside: bool, line: string)
    ensures EndsWithCr(UpgradeLine(inside, line)) <==> !(inside && Replaces(SplitRow(line))) && EndsWithCr(line)
  {
    if inside && Replaces(SplitRow(line)) {
      ReplacedLineReads(line);
    }
  }

  lemma {:induction false} CopiedCrs(inSummary: bool, lines: seq<string>)
    ensures CopiesNoCr(inSummary, lines) <==> NoneEndsWithCr(UpgradeLines(inSummary, lines))
    decreases |lines|
  {
    if lines != [] {
      var inside := NextInSummary(inSummary, lines[0]);
      CopiedCr(inside, lines[0]);
      CopiedCrs(inside, lines[1..]);
      NoneEndsWithCrCons(UpgradeLine(inside, lines[0]), UpgradeLines(inside, lines[1..]));
    }
  }

  lemma UpgradeTwice(text: string)
    ensures Upgrade(Upgrade(text)) == Unlines(StripAll(Upgraded(text)))
  {
    UpgradedText(text);
    var lines := StripAll(Upgraded(text));
    JoinedLines(lines);
    assert |lines| >= 1;
  }

  lemma UpgradedCrs(text: string)
    ensures NoneEndsWithCr(Upgraded(text)) <==> CopiesNoCr(false, Lines(text))
  {
    CopiedCrs(false, Lines(text));
  }

  /** A second upgrade changes nothing exactly when the first one copies no line that
      ends with a carriage return. */
  lemma UpgradeIdempotentIff(text: string)
    ensures Upgrade(Upgrade(text)) == Upgrade(text) <==> CopiesNoCr(false, Lines(text))
  {
    var lines := Upgraded(text);
    UpgradedText(text);
    UpgradeTwice(text);
    StripAllChangesOnlyCr(lines);
    UpgradedCrs(text);
    if Unlines(StripAll(lines)) == Unlines(lines) {
      assert NoLineFeed(StripAll(lines));
      UnlinesInjective(StripAll(lines), lines);
    }
  }

  /** Two carriage returns before a line feed: the second upgrade drops one more. */
  lemma StrayCrBreaksIdempotence()
    ensures Upgrade(Upgrade("a\r\r\n")) != Upgrade("a\r\r\n")
  {
    var text := "a\r\r\n";
    assert text == "a\r\r" + ['\n'] + "";
    SplitAtSep("a\r\r", '\n', "");
    assert Split(text, '\n') == ["a\r\r", ""];
    assert Split(text, '\n')[1..] == [""];
    assert Lines(text) == [StripCr("a\r\r")] + LinesOf([""]);
    assert "a\r\r"[..2] == "a\r";
    assert EndsWithCr(Lines(text)[0]);
    assert TrimStart("a\r") == "a\r";
    assert !NextInSummary(false, "a\r");
    UpgradeIdempotentIff(text);
  }

  // ---------- meaning ----------

  /** A header as wide as one of the two schemas names the columns that schema has, and
      is no round row. The exact legacy and current headers qualify. */
  predicate PlainCells(cells: seq<string>) {
    (|cells| == 8 || |cells| == 9) && IsHeaderRow(cells) ==>
      FromHeader(cells) == None
      || (FromHeader(cells) == Some(ForWidth(|cells|)) && !IsRoundCell(cells[0]))
  }

  predicate PlainHeaders(inSummary: bool, lines: seq<string>)
    decreases |lines|
  {
    lines == [] ||
      var inside := if IsHeading(lines[0]) then IsSummaryHeading(lines[0]) else inSummary;
      (inside && !IsHeading(lines[0]) && '|' in lines[0] ==> PlainCells(SplitCells(lines[0])))
      && PlainHeaders(inside, lines[1..])
  }

  predicate PlainHeader(header: Option<(nat, Columns)>) {
    header.Some? && (header.value.0 == 8 || header.value.0 == 9) ==> header.value.1 == ForWidth(header.value.0)
  }

  lemma Differ(a: string, b: string, i: nat)
    requires |a| != |b| || (i < |a| && LowerChar(a[i]) != LowerChar(b[i]))
    ensures !SameIgnoringCase(a, b)
  {
    if |a| == |b| {
      assert Lower(a)[i] != Lower(b)[i];
    }
  }

  lemma HeaderNamesDiffer()
    ensures forall a, b :: a in HEADER && b in HEADER && SameIgnoringCase(a, b) ==> a == b
  {
    forall a, b | a in HEADER && b in HEADER && a != b
      ensures !SameIgnoringCase(a, b)
    {
      if |a| == |b| && a[0] != b[0] {
        Differ(a, b, 0);
      } else {
        Differ(a, b, 1);
      }
    }
  }

  /** Distinct names of the schema are found where they stand. */
  lemma FindOwn(cells: seq<string>, k: nat)
    requires k < |cells| && (forall i :: 0 <= i < |cells| ==> cells[i] in HEADER)
    requires forall i :: 0 <= i < k ==> cells[i] != cells[k]
    ensures PositionFrom(cells, cells[k], 0) == Some(k)
  {
    HeaderNamesDiffer();
    FindFirst(cells, cells[k], k);
  }

  lemma StandardHeadersArePlain()
    ensures FromHeader(LEGACY_HEADER) == Some(ForWidth(8)) && FromHeader(HEADER) == Some(ForWidth(9))
    ensures IsHeaderRow(HEADER) && IsHeaderRow(LEGACY_HEADER)
    ensures PlainCells(LEGACY_HEADER) && PlainCells(HEADER)
  {
    LegacyHeaderColumns();
    CurrentHeaderColumns();
    assert SameIgnoringCase(HEADER[0], "round") && SameIgnoringCase(LEGACY_HEADER[0], "round");
  }

  lemma LegacyHeaderColumns()
    ensures FromHeader(LEGACY_HEADER) == Some(ForWidth(8))
  {
    FindOwn(LEGACY_HEADER, 3);
    FindOwn(LEGACY_HEADER, 4);
    FindOwn(LEGACY_HEADER, 2);
    HeaderNamesDiffer();
    assert "coverage" in HEADER by {
      assert HEADER[3] == "coverage";
    }
    forall i | 0 <= i < |LEGACY_HEADER|
      ensures !SameIgnoringCase(LEGACY_HEADER[i], "coverage")
    {
      assert LEGACY_HEADER[i] in HEADER && LEGACY_HEADER[i] != "coverage";
    }
    FindNone(LEGACY_HEADER, "coverage");
  }

  lemma CurrentHeaderColumns()
    ensures FromHeader(HEADER) == Some(ForWidth(9))
  {
    FindOwn(HEADER, 4);
    FindOwn(HEADER, 5);
    FindOwn(HEADER, 2);
    FindOwn(HEADER, 3);
  }

  lemma FindFirst(cells: seq<string>, name: string, k: nat)
    requires k < |cells| && SameIgnoringCase(cells[k], name)
    requires forall i :: 0 <= i < k ==> !SameIgnoringCase(cells[i], name)
    ensures PositionFrom(cells, name, 0) == Some(k)
  {
    FindFirstFrom(cells, name, k, 0);
  }

  lemma {:induction false} FindFirstFrom(cells: seq<string>, name: string, k: nat, i: nat)
    requires i <= k < |cells| && SameIgnoringCase(cells[k], name)
    requires forall j :: i <= j < k ==> !SameIgnoringCase(cells[j], name)
    ensures PositionFrom(cells, name, i) == Some(k)
    decreases k - i
  {
    if i < k {
      FindFirstFrom(cells, name, k, i + 1);
    }
  }

  lemma FindNone(cells: seq<string>, name: string)
    requires forall i :: 0 <= i < |cells| ==> !SameIgnoringCase(cells[i], name)
    ensures PositionFrom(cells, name, 0) == None
  {
    FindNoneFrom(cells, name, 0);
  }

  lemma {:induction false} FindNoneFrom(cells: seq<string>, name: string, i: nat)
    requires forall j :: i <= j < |cells| ==> !SameIgnoringCase(cells[j], name)
    ensures PositionFrom(cells, name, i) == None
    decreases |cells| - i
  {
    if i < |cells| {
      FindNoneFrom(cells, name, i + 1);
    }
  }
}

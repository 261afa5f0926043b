/**
The Round Summary table of src/audit_ledger.rs and src/ledger.rs as text.
*/
module LedgerTable {
  import opened Common
  import opened Text
  import opened LedgerAnalysis

  // The row printer and splitter, the tolerant parser, and the upgrade of the 8-column schema
  // to 9 columns. The parser and the upgrade are loops over lines; each is proved equal to a
  // fold over the lines, which the other ledger modules reason about.

  const SUMMARY := "## Round Summary"
  const LEGACY_HEADER: seq<string> :=
    ["round", "artifact", "auditors", "high", "critical", "minor", "trend", "status"]
  const HEADER: seq<string> :=
    ["round", "artifact", "auditors", "coverage", "high", "critical", "minor", "trend", "status"]
  const RULE: seq<string> := ["---", "---", "---", "---", "---:", "---:", "---:", "---", "---"]

  /** The separator line the upgrade writes: the cells of RULE between bare pipes. */
  const SEPARATOR := "|" + Join(RULE, "|") + "|"

  // ---------- rows ----------

  function StripLeading(s: string, c: char): string {
    if s != [] && s[0] == c then StripLeading(s[1..], c) else s
  }

  function StripTrailing(s: string, c: char): string {
    if s != [] && s[|s| - 1] == c then StripTrailing(s[..|s| - 1], c) else s
  }

  function TrimAll(parts: seq<string>): (r: seq<string>)
    ensures |r| == |parts| && forall i :: 0 <= i < |r| ==> r[i] == Trim(parts[i])
  {
    seq(|parts|, i requires 0 <= i < |parts| => Trim(parts[i]))
  }

  function SplitCells(line: string): (cells: seq<string>)
    ensures |cells| >= 1
  {
    TrimAll(Split(StripTrailing(StripLeading(Trim(line), '|'), '|'), '|'))
  }

  /** The cells of a line that starts with a pipe, no cells for any other line. */
  function SplitRow(line: string): seq<string> {
    if "|" <= TrimStart(line) then SplitCells(line) else []
  }

  function PrintRow(cells: seq<string>): string {
    "| " + Join(cells, " | ") + " |"
  }

  /** A cell that survives printing and splitting. */
  predicate CleanCell(cell: string) {
    Tight(cell) && '|' !in cell
  }

  predicate CleanCells(cells: seq<string>) {
    forall i :: 0 <= i < |cells| ==> CleanCell(cells[i])
  }

  lemma {:induction false} StripLeadingKeeps(s: string, c: char)
    ensures |StripLeading(s, c)| <= |s| && StripLeading(s, c) == s[|s| - |StripLeading(s, c)|..]
  {
    if s != [] && s[0] == c {
      StripLeadingKeeps(s[1..], c);
    }
  }

  lemma {:induction false} StripTrailingKeeps(s: string, c: char)
    ensures StripTrailing(s, c) <= s
  {
    if s != [] && s[|s| - 1] == c {
      StripTrailingKeeps(s[..|s| - 1], c);
    }
  }

  /** What the splitter yields is trimmed, has no pipe and no new characters. */
  lemma SplitCellsAreClean(line: string)
    ensures CleanCells(SplitCells(line))
    ensures '\n' !in line ==> forall i :: 0 <= i < |SplitCells(line)| ==> '\n' !in SplitCells(line)[i]
  {
    var t := Trim(line);
    TrimIsTight(line);
    StripLeadingKeeps(t, '|');
    var u := StripLeading(t, '|');
    StripTrailingKeeps(u, '|');
    var v := StripTrailing(u, '|');
    SplitHasNoSep(v, '|');
    if '\n' !in line {
      SplitKeepsOut(v, '|', '\n');
    }
    forall i | 0 <= i < |Split(v, '|')|
      ensures CleanCell(SplitCells(line)[i]) && ('\n' !in line ==> '\n' !in SplitCells(line)[i])
    {
      TrimIsTight(Split(v, '|')[i]);
    }
  }

  lemma {:induction false} SplitPadded(cells: seq<string>)
    requires cells != [] && CleanCells(cells)
    ensures var parts := Split(" " + Join(cells, " | ") + " ", '|');
      |parts| == |cells| && forall i :: 0 <= i < |cells| ==> parts[i] == " " + cells[i] + " "
  {
    var padded := " " + cells[0] + " ";
    if |cells| == 1 {
      SplitPlain(padded, '|');
    } else {
      var rest := " " + Join(cells[1..], " | ") + " ";
      assert " " + Join(cells, " | ") + " " == padded + ['|'] + rest;
      SplitAtSep(padded, '|', rest);
      SplitPadded(cells[1..]);
    }
  }

  /** Printing clean cells and splitting the row gives the cells back. */
  lemma PrintedRowSplits(cells: seq<string>)
    requires cells != [] && CleanCells(cells)
    ensures SplitCells(PrintRow(cells)) == cells && SplitRow(PrintRow(cells)) == cells
    ensures Tight(PrintRow(cells)) && "|" <= PrintRow(cells) && PrintRow(cells)[|PrintRow(cells)| - 1] == '|'
  {
    var row := PrintRow(cells);
    var body := " " + Join(cells, " | ") + " ";
    assert row == "|" + body + "|";
    TightStays(row);
    assert row[1..] == body + "|";
    assert StripLeading(row, '|') == StripLeading(body + "|", '|') == body + "|";
    assert (body + "|")[..|body|] == body;
    assert StripTrailing(body + "|", '|') == StripTrailing(body, '|') == body;
    SplitPadded(cells);
    forall i | 0 <= i < |cells|
      ensures Trim(" " + cells[i] + " ") == cells[i]
    {
      TrimUndoesPadding(" ", cells[i], " ");
    }
  }

  // ---------- parser ----------

  datatype Columns = Columns(high: nat, critical: nat, auditors: Option<nat>, coverage: Option<nat>)

  /** A cell of column `column` in the row of round `roundLabel` is no sum of numbers. */
  datatype ParseError = NonNumeric(column: string, roundLabel: string, raw: string)

  function PositionFrom(cells: seq<string>, name: string, i: nat): Option<nat>
    decreases |cells| - i
  {
    if i >= |cells| then None
    else if SameIgnoringCase(cells[i], name) then Some(i)
    else PositionFrom(cells, name, i + 1)
  }

  function FromHeader(cells: seq<string>): Option<Columns> {
    var high := PositionFrom(cells, "high", 0);
    var critical := PositionFrom(cells, "critical", 0);
    if high.None? || critical.None? then None
    else Some(Columns(high.value, critical.value,
                      PositionFrom(cells, "auditors", 0), PositionFrom(cells, "coverage", 0)))
  }

  function ForWidth(width: nat): Columns {
    if width >= 9 then Columns(4, 5, Some(2), Some(3))
    else if width >= 8 then Columns(3, 4, Some(2), None)
    else Columns(3, 4, None, None)
  }

  /** The columns in force for a row: the header's if it is as wide as the row. */
  function Effective(header: Option<(nat, Columns)>, width: nat): Columns {
    if header.Some? && header.value.0 == width then header.value.1 else ForWidth(width)
  }

  predicate IsSeparatorRow(cells: seq<string>) {
    (exists i :: 0 <= i < |cells| && cells[i] != [])
    && forall i :: 0 <= i < |cells| ==> forall c :: c in cells[i] ==> c == '-' || c == ':' || c == ' '
  }

  predicate IsHeaderRow(cells: seq<string>) {
    exists i :: 0 <= i < |cells| && SameIgnoringCase(cells[i], "round")
  }

  /** The sum, or the largest u64 if it does not fit. */
  function SaturatingAdd(a: nat, b: nat): nat {
    if a + b > U64_MAX then U64_MAX else a + b
  }

  /** The saturating sum of the parts; None if a part is no u64. */
  function SumParts(parts: seq<string>, total: nat): Option<nat> {
    if parts == [] then Some(total)
    else
      var part := Trim(parts[0]);
      if part == [] then SumParts(parts[1..], total)
      else
        var value := ParseU64(part);
        if value.None? then None
        else SumParts(parts[1..], SaturatingAdd(total, value.value))
  }

  function CountIn(raw: string): Option<nat> {
    SumParts(Split(raw, '+'), 0)
  }

  function CellAt(cells: seq<string>, i: nat): string {
    if i < |cells| then cells[i] else ""
  }

  function OptionalCell(cells: seq<string>, i: Option<nat>): Option<string> {
    if i.Some? && i.value < |cells| && cells[i.value] != [] then Some(cells[i.value]) else None
  }

  datatype RowReading = Nothing | Found(round: Round) | Bad(error: ParseError)

  function ReadRow(columns: Columns, cells: seq<string>): RowReading {
    var name := CellAt(cells, 0);
    var highRaw := CellAt(cells, columns.high);
    var criticalRaw := CellAt(cells, columns.critical);
    if highRaw == [] && criticalRaw == [] then Nothing
    else
      var high := CountIn(highRaw);
      var critical := CountIn(criticalRaw);
      if high.None? then Bad(NonNumeric("high", name, highRaw))
      else if critical.None? then Bad(NonNumeric("critical", name, criticalRaw))
      else Found(Round(name, high.value, critical.value,
                       OptionalCell(cells, columns.auditors), OptionalCell(cells, columns.coverage)))
  }

  datatype ParseState = ParseState(inSummary: bool, header: Option<(nat, Columns)>, rounds: seq<Round>)

  const INITIAL := ParseState(false, None, [])

  predicate IsHeading(line: string) {
    "## " <= line
  }

  predicate IsSummaryHeading(line: string) {
    SameIgnoringCase(Trim(line), SUMMARY)
  }

  function ParseCells(st: ParseState, cells: seq<string>): Result<ParseState, ParseError> {
    if |cells| <= 4 || IsSeparatorRow(cells) then Ok(st)
    else if IsHeaderRow(cells) then
      var columns := FromHeader(cells);
      Ok(st.(header := if columns.Some? then Some((|cells|, columns.value)) else None))
    else
      match ReadRow(Effective(st.header, |cells|), cells)
      case Nothing => Ok(st)
      case Found(r) => Ok(st.(rounds := st.rounds + [r]))
      case Bad(e) => Err(e)
  }

  function ParseLine(st: ParseState, line: string): Result<ParseState, ParseError> {
    if IsHeading(line) then Ok(st.(inSummary := IsSummaryHeading(line), header := None))
    else if !st.inSummary || '|' !in line then Ok(st)
    else ParseCells(st, SplitCells(line))
  }

  function ParseLines(st: ParseState, lines: seq<string>): Result<ParseState, ParseError>
    decreases |lines|
  {
    if lines == [] then Ok(st)
    else
      match ParseLine(st, lines[0])
      case Err(e) => Err(e)
      case Ok(next) => ParseLines(next, lines[1..])
  }

  function Parse(text: string): Result<seq<Round>, ParseError> {
    match ParseLines(INITIAL, Lines(text))
    case Err(e) => Err(e)
    case Ok(st) => Ok(st.rounds)
  }

  method ParseCount(raw: string) returns (r: Option<nat>)
    ensures r == CountIn(raw)
  {
    var total: nat := 0;
    var parts := Split(raw, '+');
    var i := 0;
    while i < |parts|
      invariant 0 <= i <= |parts|
      invariant CountIn(raw) == SumParts(parts[i..], total)
    {
      var part := Trim(parts[i]);
      ghost var rest := parts[i..];
      assert rest[0] == parts[i] && rest[1..] == parts[i + 1..];
      if part != [] {
        var value := ParseU64(part);
        if value.None? {
          return None;
        }
        total := SaturatingAdd(total, value.value);
      }
      i := i + 1;
    }
    return Some(total);
  }

  method ParseRow(columns: Columns, cells: seq<string>) returns (r: RowReading)
    ensures r == ReadRow(columns, cells)
  {
    var name := CellAt(cells, 0);
    var highRaw := CellAt(cells, columns.high);
    var criticalRaw := CellAt(cells, columns.critical);
    if highRaw == [] && criticalRaw == [] {
      return Nothing;
    }
    var high := ParseCount(highRaw);
    if high.None? {
      return Bad(NonNumeric("high", name, highRaw));
    }
    var critical := ParseCount(criticalRaw);
    if critical.None? {
      return Bad(NonNumeric("critical", name, criticalRaw));
    }
    return Found(Round(name, high.value, critical.value,
                       OptionalCell(cells, columns.auditors), OptionalCell(cells, columns.coverage)));
  }

  method ParseLedger(text: string) returns (r: Result<seq<Round>, ParseError>)
    ensures r == Parse(text)
  {
    var rounds: seq<Round> := [];
    var inSummary := false;
    var header: Option<(nat, Columns)> := None;
    var lines := Lines(text);
    var i := 0;
    while i < |lines|
      invariant 0 <= i <= |lines|
      invariant ParseLines(INITIAL, lines) == ParseLines(ParseState(inSummary, header, rounds), lines[i..])
    {
      var line := lines[i];
      ghost var st := ParseState(inSummary, header, rounds);
      assert lines[i..][1..] == lines[i + 1..];
      i := i + 1;
      if IsHeading(line) {
        inSummary := IsSummaryHeading(line);
        header := None;
        continue;
      }
      if !inSummary || '|' !in line {
        continue;
      }
      var cells := SplitCells(line);
      if |cells| <= 4 || IsSeparatorRow(cells) {
        continue;
      }
      if IsHeaderRow(cells) {
        var columns := FromHeader(cells);
        header := if columns.Some? then Some((|cells|, columns.value)) else None;
        continue;
      }
      var reading := ParseRow(Effective(header, |cells|), cells);
      match reading
      case Nothing =>
      case Found(round) =>
        rounds := rounds + [round];
      case Bad(e) =>
        return Err(e);
    }
    return Ok(rounds);
  }

  /** A printed number counts as itself. */
  lemma DecimalCounts(n: nat)
    requires n <= U64_MAX
    ensures CountIn(Decimal(n)) == Some(n)
  {
    DecimalIsTight(n);
    SplitPlain(Decimal(n), '+');
    TightStays(Decimal(n));
    ParseDecimal(n);
    assert [Decimal(n)][1..] == [];
    assert SumParts([], n) == Some(n);
  }

  lemma DigitCounts(d: nat)
    requires 0 < d < 10
    ensures CountIn(Decimal(d)) == Some(d) && Decimal(d) == [DigitChar(d)]
  {
    DecimalCounts(d);
  }

  // ---------- schema upgrade ----------

  /** "R" and a number that fits a u64. */
  predicate IsRoundCell(cell: string) {
    cell != [] && cell[0] == 'R' && ParseU64(cell[1..]).Some?
  }

  predicate IsRule(cells: seq<string>) {
    cells != [] && forall i :: 0 <= i < |cells| ==> cells[i] == "---" || cells[i] == "---:"
  }

  function NextInSummary(inSummary: bool, line: string): bool {
    if "## " <= TrimStart(line) then IsSummaryHeading(line) else inSummary
  }

  /** Whether the upgrade replaces a line of the summary with these cells. */
  predicate Replaces(cells: seq<string>) {
    cells == LEGACY_HEADER || IsRule(cells) || (|cells| == 8 && IsRoundCell(cells[0]))
  }

  function InsertCell(cells: seq<string>, cell: string): seq<string>
    requires |cells| >= 3
  {
    cells[..3] + [cell] + cells[3..]
  }

  function UpgradeLine(inSummary: bool, line: string): string {
    var cells := SplitRow(line);
    if !inSummary || !Replaces(cells) then line
    else if cells == LEGACY_HEADER then PrintRow(InsertCell(cells, "coverage"))
    else if IsRule(cells) then SEPARATOR
    else PrintRow(InsertCell(cells, ""))
  }

  function UpgradeLines(inSummary: bool, lines: seq<string>): (r: seq<string>)
    ensures |r| == |lines|
    decreases |lines|
  {
    if lines == [] then []
    else
      var inside := NextInSummary(inSummary, lines[0]);
      [UpgradeLine(inside, lines[0])] + UpgradeLines(inside, lines[1..])
  }

  function Upgrade(text: string): string {
    Join(UpgradeLines(false, Lines(text)), "\n") + "\n"
  }

  lemma {:induction false} UpgradeOneMore(inSummary: bool, lines: seq<string>, i: nat)
    requires i < |lines|
    ensures UpgradeLines(inSummary, lines[..i + 1]) ==
      UpgradeLines(inSummary, lines[..i]) + [UpgradeLine(InSummaryAt(inSummary, lines, i + 1), lines[i])]
    decreases i
  {
    var inside := NextInSummary(inSummary, lines[0]);
    if i == 0 {
      assert lines[..1] == [lines[0]];
      assert InSummaryAt(inside, lines[1..], 0) == inside;
    } else {
      UpgradeOneMore(inside, lines[1..], i - 1);
      assert lines[..i + 1][1..] == lines[1..][..i];
      assert lines[..i][1..] == lines[1..][..i - 1];
    }
  }

  /** Whether the upgrade is inside the summary after the first `n` lines. */
  function InSummaryAt(inSummary: bool, lines: seq<string>, n: nat): bool
    requires n <= |lines|
    decreases n
  {
    if n == 0 then inSummary
    else InSummaryAt(NextInSummary(inSummary, lines[0]), lines[1..], n - 1)
  }

  lemma {:induction false} InSummaryOneMore(inSummary: bool, lines: seq<string>, i: nat)
    requires i < |lines|
    ensures InSummaryAt(inSummary, lines, i + 1) == NextInSummary(InSummaryAt(inSummary, lines, i), lines[i])
    decreases i
  {
    if i > 0 {
      InSummaryOneMore(NextInSummary(inSummary, lines[0]), lines[1..], i - 1);
    } else {
      assert InSummaryAt(NextInSummary(inSummary, lines[0]), lines[1..], 0) == NextInSummary(inSummary, lines[0]);
    }
  }

  method UpgradeSchema(content: string) returns (output: string)
    ensures output == Upgrade(content)
  {
    var inSummary := false;
    var upgraded: seq<string> := [];
    var lines := Lines(content);
    for i := 0 to |lines|
      invariant upgraded == UpgradeLines(false, lines[..i])
      invariant inSummary == InSummaryAt(false, lines, i)
    {
      var line := lines[i];
      UpgradeOneMore(false, lines, i);
      InSummaryOneMore(false, lines, i);
      if "## " <= TrimStart(line) {
        inSummary := IsSummaryHeading(line);
      }
      if inSummary {
        var cells := SplitRow(line);
        if cells == LEGACY_HEADER {
          upgraded := upgraded + [PrintRow(InsertCell(cells, "coverage"))];
          continue;
        }
        if IsRule(cells) {
          upgraded := upgraded + [SEPARATOR];
          continue;
        }
        if cells != [] && IsRoundCell(cells[0]) && |cells| == 8 {
          upgraded := upgraded + [PrintRow(InsertCell(cells, ""))];
          continue;
        }
      }
      upgraded := upgraded + [line];
    }
    assert lines[..|lines|] == lines;
    output := Join(upgraded, "\n") + "\n";
  }
}

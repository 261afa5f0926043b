/**
A ledger without rounds, like the one `ensure_exists` writes from templates/audit-ledger.md, and
what appends make of it: rounds R1, R2, ... with the inputs in order, or nothing at all if the first
input reads "round".

The table may stand between any text before the summary, any text without a table around it in
the summary, and any sections behind it. The text is taken apart into segments of lines that
the upgrade keeps, that hold no round and no placeholder, and that lead the upgrade and the
parser from one section to another alike. LedgerTemplate shows the template to be of that form.
*/
module LedgerEmpty {
  import opened Common
  import opened Text
  import opened LedgerTable
  import opened LedgerUpgrade
  import opened LedgerMeaning
  import opened LedgerAppend
  import opened LedgerRoundTrip
  import opened LedgerAppends
  import opened LedgerGrowth
  import opened LedgerRuns

  // ---------- segments ----------

  /** A line without round or placeholder that the upgrade keeps, and that leads from inside
      the summary, or outside, to the same for upgrade and parser. */
  ghost predicate LineIn(before: bool, line: string, after: bool) {
    && NextInSummary(before, line) == after && UpgradeLine(after, line) == line
    && (if IsHeading(line) then IsSummaryHeading(line) else before) == after
    && (after && !IsHeading(line) && '|' in line ==> PlainCells(SplitCells(line)))
    && '\n' !in line && !EndsWithCr(line) && !Contains(line, PLACEHOLDER) && !StartsRound(line)
  }

  ghost predicate Segment(before: bool, lines: seq<string>, after: bool) {
    && UpgradeLines(before, lines) == lines && InSummaryAt(before, lines, |lines|) == after
    && PlainHeaders(before, lines) && SectionAfter(before, lines) == after
    && NoLineFeed(lines) && NoneEndsWithCr(lines) && FreeOfPlaceholder(lines) && NoRoundStarts(lines)
  }

  lemma OneLine(before: bool, line: string, after: bool)
    requires LineIn(before, line, after)
    ensures Segment(before, [line], after)
  {
    assert [line][1..] == [];
    assert InSummaryAt(after, [], 0) == after;
  }

  lemma {:induction false} SectionAfterInParts(parsing: bool, a: seq<string>, b: seq<string>)
    ensures SectionAfter(parsing, a + b) == SectionAfter(SectionAfter(parsing, a), b)
    decreases |a|
  {
    if a == [] {
      assert a + b == b;
    } else {
      assert (a + b)[1..] == a[1..] + b;
      SectionAfterInParts(if IsHeading(a[0]) then IsSummaryHeading(a[0]) else parsing, a[1..], b);
    }
  }

  lemma SegmentsJoin(before: bool, a: seq<string>, middle: bool, b: seq<string>, after: bool)
    requires Segment(before, a, middle) && Segment(middle, b, after)
    ensures Segment(before, a + b, after)
  {
    UpgradeInParts(before, a, b);
    SectionsInParts(before, a, b);
    PlainInParts(before, a, b);
    SectionAfterInParts(before, a, b);
    LineWithInParts(a, b, PLACEHOLDER);
  }

  lemma {:induction false} LinesWithin(inside: bool, lines: seq<string>)
    requires forall i :: 0 <= i < |lines| ==> LineIn(inside, lines[i], inside)
    ensures Segment(inside, lines, inside)
    decreases |lines|
  {
    if lines == [] {
      assert InSummaryAt(inside, [], 0) == inside;
    } else {
      OneLine(inside, lines[0], inside);
      LinesWithin(inside, lines[1..]);
      SegmentsJoin(inside, [lines[0]], inside, lines[1..], inside);
      assert [lines[0]] + lines[1..] == lines;
    }
  }

  // ---------- a table between text ----------

  /** Text outside the summary. */
  ghost predicate Outside(lines: seq<string>) {
    forall i :: 0 <= i < |lines| ==> LineIn(false, lines[i], false)
  }

  /** Text in the summary that is no table. */
  ghost predicate Inside(lines: seq<string>) {
    forall i :: 0 <= i < |lines| ==> LineIn(true, lines[i], true) && '|' !in lines[i] && !IsHeading(lines[i])
  }

  /** The end of the text, or a heading that ends the summary and text outside. */
  ghost predicate Closing(lines: seq<string>) {
    lines == [] || (LineIn(true, lines[0], false) && IsHeading(lines[0]) && Outside(lines[1..]))
  }

  /** The lines before the placeholder row. */
  function TableTop(front: seq<string>, gap: seq<string>): seq<string> {
    front + ([SUMMARY] + (gap + ([PrintRow(HEADER)] + [SEPARATOR])))
  }

  function EmptyLedger(front: seq<string>, gap: seq<string>, after: seq<string>, closing: seq<string>): seq<string> {
    TableTop(front, gap) + ([PLACEHOLDER] + (after + closing))
  }

  ghost predicate Around(front: seq<string>, gap: seq<string>, after: seq<string>, closing: seq<string>) {
    Outside(front) && Inside(gap) && Inside(after) && Closing(closing)
  }

  lemma {:induction false} OutsideReads(lines: seq<string>)
    requires Outside(lines)
    ensures ParseLines(INITIAL, lines) == Ok(INITIAL)
    decreases |lines|
  {
    if lines != [] {
      assert ParseLine(INITIAL, lines[0]) == Ok(INITIAL);
      OutsideReads(lines[1..]);
    }
  }

  lemma {:induction false} InsideReads(st: ParseState, lines: seq<string>)
    requires Inside(lines)
    ensures ParseLines(st, lines) == Ok(st)
    decreases |lines|
  {
    if lines != [] {
      InsideReads(st, lines[1..]);
    }
  }

  /** Behind the table nothing is read, whatever header is in force. */
  lemma TailReads(header: Option<(nat, Columns)>, after: seq<string>, closing: seq<string>)
    requires Inside(after) && Closing(closing)
    ensures NoMoreRounds(ParseState(true, header, []), after + closing)
  {
    var st := ParseState(true, header, []);
    InsideReads(st, after);
    ParseInParts(st, after, closing);
    if closing != [] {
      assert ParseLine(st, closing[0]) == Ok(INITIAL);
      OutsideReads(closing[1..]);
    }
  }

  lemma TailIsSegment(after: seq<string>, closing: seq<string>) returns (last: bool)
    requires Inside(after) && Closing(closing)
    ensures Segment(true, after + closing, last)
  {
    LinesWithin(true, after);
    if closing == [] {
      last := true;
      assert after + closing == after;
    } else {
      last := false;
      OneLine(true, closing[0], false);
      LinesWithin(false, closing[1..]);
      SegmentsJoin(true, [closing[0]], false, closing[1..], false);
      assert [closing[0]] + closing[1..] == closing;
      SegmentsJoin(true, after, true, closing, false);
    }
  }

  // ---------- the lines of the table ----------

  lemma {:induction false} ContainsItsCharacters(s: string, p: string, c: char)
    requires Contains(s, p) && c in p
    ensures c in s
  {
    if p <= s {
      assert s[..|p|] == p;
    } else {
      ContainsItsCharacters(s[1..], p, c);
    }
  }

  lemma NoPlaceholderWithout(line: string, c: char)
    requires c !in line && (c == '1' || c == '|')
    ensures !Contains(line, PLACEHOLDER)
  {
    assert PLACEHOLDER[3] == '1' && PLACEHOLDER[0] == '|';
    if Contains(line, PLACEHOLDER) {
      ContainsItsCharacters(line, PLACEHOLDER, c);
    }
  }

  /** A heading opens the summary or ends it. */
  lemma HeadingLine(before: bool, line: string)
    requires Tight(line) && "## " <= line && '|' !in line && '\n' !in line && !EndsWithCr(line)
    ensures LineIn(before, line, IsSummaryHeading(line))
  {
    TightStays(line);
    NoPlaceholderWithout(line, '|');
    assert line[0] == '#';
    assert SplitRow(line) == [];
  }

  lemma SummaryStartsPlainly()
    ensures Tight(SUMMARY) && SUMMARY[|SUMMARY| - 1] == 'y' && '|' !in SUMMARY && '\n' !in SUMMARY
    ensures IsHeading(SUMMARY)
  {
  }

  lemma SummaryLine()
    ensures LineIn(false, SUMMARY, true) && ParseLine(INITIAL, SUMMARY) == Ok(ParseState(true, None, []))
  {
    SummaryStartsPlainly();
    TightStays(SUMMARY);
    HeadingLine(false, SUMMARY);
  }

  lemma TableRowLine(row: string, cells: seq<string>)
    requires Tight(row) && row != [] && row[0] == row[|row| - 1] == '|' && SplitRow(row) == cells && !("| R" <= row)
    requires '\n' !in row && '1' !in row && (cells == RULE ==> row == SEPARATOR)
    requires cells == RULE || !Replaces(cells)
    requires PlainCells(cells)
    ensures LineIn(true, row, true)
  {
    TightStays(row);
    HeaderIsSettled();
    TableLineIsNoHeading(row);
    NoPlaceholderWithout(row, '1');
  }

  lemma HeaderHasNo(c: char)
    requires c == '1' || c == '\n'
    ensures c !in PrintRow(HEADER)
  {
    PrintRowHasNo(HEADER, c);
  }

  lemma HeaderStartsNoRound()
    ensures !("| R" <= PrintRow(HEADER))
  {
    var row := PrintRow(HEADER);
    assert row == "| " + (HEADER[0] + " | " + Join(HEADER[1..], " | ")) + " |";
    assert row[2] == HEADER[0][0] == 'r';
  }

  lemma HeaderIsNoRule()
    ensures HEADER != RULE
  {
    assert HEADER[0] == "round" && RULE[0] == "---";
  }

  lemma HeaderRowLine()
    ensures LineIn(true, PrintRow(HEADER), true)
  {
    FixedHeadersClean();
    PrintedRowSplits(HEADER);
    HeaderHasNo('1');
    HeaderHasNo('\n');
    HeaderIsSettled();
    HeaderStartsNoRound();
    HeaderIsNoRule();
    StandardHeadersArePlain();
    TableRowLine(PrintRow(HEADER), HEADER);
  }

  lemma HeaderLine()
    ensures "|" <= TrimStart(PrintRow(HEADER)) && SplitCells(PrintRow(HEADER)) == HEADER
  {
    FixedHeadersClean();
    PrintedRowSplits(HEADER);
    TightStays(PrintRow(HEADER));
  }

  lemma SeparatorHasNo(c: char)
    requires c == '1' || c == '\n'
    ensures c !in SEPARATOR
  {
    JoinKeepsOut(RULE, "|", c);
  }

  lemma SeparatorStartsNoRound()
    ensures !("| R" <= SEPARATOR)
  {
    assert SEPARATOR == "|" + (RULE[0] + "|" + Join(RULE[1..], "|")) + "|";
    assert SEPARATOR[1] == RULE[0][0] == '-';
  }

  lemma SeparatorRowLine()
    ensures LineIn(true, SEPARATOR, true)
  {
    SeparatorSplits();
    SeparatorHasNo('1');
    SeparatorHasNo('\n');
    SeparatorStartsNoRound();
    RuleIsNoHeader();
    TableRowLine(SEPARATOR, RULE);
  }

  lemma SeparatorLine()
    ensures "|" <= TrimStart(SEPARATOR) && SplitCells(SEPARATOR) == RULE
  {
    SeparatorSplits();
    TightStays(SEPARATOR);
  }

  lemma PlaceholderLine()
    ensures Trim(PLACEHOLDER) == PLACEHOLDER && Contains(PLACEHOLDER, PLACEHOLDER)
    ensures '\n' !in PLACEHOLDER && !EndsWithCr(PLACEHOLDER)
    ensures "|" <= TrimStart(PLACEHOLDER) && SplitCells(PLACEHOLDER) == PLACEHOLDER_CELLS
  {
    PlaceholderSplits();
    TightStays(PLACEHOLDER);
    PlaceholderEnds();
  }

  lemma PlaceholderStarts()
    ensures StartsRound(PLACEHOLDER)
  {
    PlaceholderSplits();
    TightStays(PLACEHOLDER);
  }

  lemma FirstLabel()
    ensures LabelOf(1) == "R1"
  {
    DigitCounts(1);
  }

  lemma PlaceholderNumber()
    ensures RoundNumber(PLACEHOLDER) == Some(1)
  {
    PlaceholderLine();
    PlaceholderStarts();
    FirstLabel();
    LabelGivesNumber(PLACEHOLDER, 1);
  }

  // ---------- reading the table ----------

  lemma HeaderIsNoSeparator()
    ensures !IsSeparatorRow(HEADER)
  {
    assert 'r' in HEADER[0];
  }

  lemma HeaderParses(st: ParseState)
    requires st.inSummary
    ensures ParseLine(st, PrintRow(HEADER)) == Ok(st.(header := Some((9, ForWidth(9)))))
  {
    HeaderLine();
    TableLineParses(st, PrintRow(HEADER));
    StandardHeadersArePlain();
    HeaderIsNoSeparator();
  }

  lemma RuleIsSeparator()
    ensures IsSeparatorRow(RULE)
  {
    assert RULE[0] != [];
  }

  lemma SeparatorParses(st: ParseState)
    requires st.inSummary
    ensures ParseLine(st, SEPARATOR) == Ok(st)
  {
    SeparatorLine();
    TableLineParses(st, SEPARATOR);
    RuleIsSeparator();
  }

  lemma TwoLinesParse(s0: ParseState, a: string, s1: ParseState, b: string, s2: ParseState)
    requires ParseLine(s0, a) == Ok(s1) && ParseLine(s1, b) == Ok(s2)
    ensures ParseLines(s0, [a] + [b]) == Ok(s2)
  {
    assert [b][1..] == [] && ([a] + [b])[1..] == [b];
    assert ParseLines(s1, [b]) == Ok(s2);
  }

  const TABLE_STATE := ParseState(true, Some((9, ForWidth(9))), [])

  lemma TableTopReads(front: seq<string>, gap: seq<string>)
    requires Outside(front) && Inside(gap)
    ensures ParseLines(INITIAL, TableTop(front, gap)) == Ok(TABLE_STATE)
  {
    var inside := ParseState(true, None, []);
    var rows := [PrintRow(HEADER)] + [SEPARATOR];
    OutsideReads(front);
    SummaryLine();
    InsideReads(inside, gap);
    HeaderParses(inside);
    SeparatorParses(TABLE_STATE);
    TwoLinesParse(inside, PrintRow(HEADER), TABLE_STATE, SEPARATOR, TABLE_STATE);
    ParseInParts(INITIAL, front, [SUMMARY] + (gap + rows));
    assert ([SUMMARY] + (gap + rows))[1..] == gap + rows;
    ParseInParts(inside, gap, rows);
  }

  lemma TableTopIsSegment(front: seq<string>, gap: seq<string>)
    requires Outside(front) && Inside(gap)
    ensures Segment(false, TableTop(front, gap), true)
  {
    var rows := [PrintRow(HEADER)] + [SEPARATOR];
    LinesWithin(false, front);
    SummaryLine();
    OneLine(false, SUMMARY, true);
    LinesWithin(true, gap);
    HeaderRowLine();
    OneLine(true, PrintRow(HEADER), true);
    SeparatorRowLine();
    OneLine(true, SEPARATOR, true);
    SegmentsJoin(true, [PrintRow(HEADER)], true, [SEPARATOR], true);
    SegmentsJoin(true, gap, true, rows, true);
    SegmentsJoin(false, [SUMMARY], true, gap + rows, true);
    SegmentsJoin(false, front, false, [SUMMARY] + (gap + rows), true);
  }

  // ---------- the empty ledger is ready ----------

  lemma {:induction false} FirstLineWith(a: seq<string>, line: string, b: seq<string>, p: string)
    requires LineWith(a, p).None? && Contains(line, p)
    ensures LineWith(a + ([line] + b), p) == Some(|a|)
  {
    if a == [] {
      assert a + ([line] + b) == [line] + b;
    } else {
      assert (a + ([line] + b))[1..] == a[1..] + ([line] + b);
      FirstLineWith(a[1..], line, b, p);
    }
  }

  lemma {:induction false} NoRoundNoNumber(lines: seq<string>)
    requires NoRoundStarts(lines)
    ensures MaxRound(lines) == 0
  {
    if lines != [] {
      NoRoundNoNumber(lines[1..]);
    }
  }

  lemma NumbersAround(a: seq<string>, b: seq<string>)
    requires NoRoundStarts(a) && NoRoundStarts(b)
    ensures MaxRound(a + ([PLACEHOLDER] + b)) == 1
  {
    NoRoundNoNumber(a);
    NoRoundNoNumber(b);
    PlaceholderNumber();
    MaxRoundInParts([PLACEHOLDER], b);
    MaxRoundInParts(a, [PLACEHOLDER] + b);
    assert [PLACEHOLDER][1..] == [];
    assert MaxRound([PLACEHOLDER]) == 1;
  }

  lemma SettledBetween(a: seq<string>, b: seq<string>, last: bool)
    requires Segment(false, a, true) && Segment(true, b, last)
    ensures Settled(a + ([PLACEHOLDER] + b)) && Tidy(a + ([PLACEHOLDER] + b))
  {
    PlaceholderLine();
    PlaceholderLooks(PLACEHOLDER);
    StableBehindRow(true, PLACEHOLDER, b);
    StableParts(false, a, [PLACEHOLDER] + b);
    PlainBehindRow(true, PLACEHOLDER, b);
    PlainInParts(false, a, [PLACEHOLDER] + b);
    TidyBetween(a, PLACEHOLDER, b);
  }

  lemma TidyBetween(a: seq<string>, line: string, b: seq<string>)
    requires NoLineFeed(a) && NoneEndsWithCr(a) && NoLineFeed(b) && NoneEndsWithCr(b)
    requires '\n' !in line && !EndsWithCr(line)
    ensures Tidy(a + ([line] + b))
  {
    var lines := a + ([line] + b);
    forall i | 0 <= i < |lines|
      ensures '\n' !in lines[i] && !EndsWithCr(lines[i])
    {
      if i < |a| {
        assert lines[i] == a[i];
      } else if i > |a| {
        assert lines[i] == b[i - |a| - 1];
      }
    }
  }

  lemma Pieces<T>(a: seq<T>, x: T, b: seq<T>)
    ensures var all := a + ([x] + b); all[..|a|] == a && all[|a|] == x && all[|a| + 1..] == b
  {
  }

  lemma TakesRowBetween(a: seq<string>, line: string, b: seq<string>)
    requires SummaryOpen(a, b)
    ensures TakesRowAt(a + ([line] + b), |a|, |a| + 1)
  {
    Pieces(a, line, b);
  }

  lemma PlaceAt(lines: seq<string>, k: nat)
    requires LineWith(lines, PLACEHOLDER) == Some(k) && Trim(lines[k]) == PLACEHOLDER && TakesRowAt(lines, k, k + 1)
    ensures HasPlaceForRow(lines)
  {
  }

  lemma PlaceholderFound(a: seq<string>, b: seq<string>)
    requires FreeOfPlaceholder(a)
    ensures var lines := a + ([PLACEHOLDER] + b);
      LineWith(lines, PLACEHOLDER) == Some(|a|) && Trim(lines[|a|]) == PLACEHOLDER
  {
    PlaceholderLine();
    FirstLineWith(a, PLACEHOLDER, b, PLACEHOLDER);
    Pieces(a, PLACEHOLDER, b);
  }

  lemma PlaceBetween(a: seq<string>, b: seq<string>)
    requires SummaryOpen(a, b) && FreeOfPlaceholder(a)
    ensures var lines := a + ([PLACEHOLDER] + b); HasPlaceForRow(lines) && LineWith(lines, PLACEHOLDER) == Some(|a|)
  {
    PlaceholderFound(a, b);
    TakesRowBetween(a, PLACEHOLDER, b);
    PlaceAt(a + ([PLACEHOLDER] + b), |a|);
  }

  lemma NumberedBetween(lines: seq<string>, a: seq<string>, b: seq<string>)
    requires lines == a + ([PLACEHOLDER] + b) && LineWith(lines, PLACEHOLDER) == Some(|a|)
    requires FreeOfPlaceholder(b) && NoRoundStarts(b) && MaxRound(lines) == 1
    ensures Numbered(lines, 0)
  {
    PlaceholderStarts();
    InsertIndexAround(a, b, PLACEHOLDER);
    Pieces(a, PLACEHOLDER, b);
  }

  lemma EmptyLedgerIsReady(front: seq<string>, gap: seq<string>, after: seq<string>, closing: seq<string>)
    requires Around(front, gap, after, closing)
    ensures var lines := EmptyLedger(front, gap, after, closing);
      ReadyLines(lines, 0) && LineWith(lines, PLACEHOLDER) == Some(|TableTop(front, gap)|)
  {
    var a, b := TableTop(front, gap), after + closing;
    TableTopIsSegment(front, gap);
    TableTopReads(front, gap);
    var last := TailIsSegment(after, closing);
    TailReads(TABLE_STATE.header, after, closing);
    SettledBetween(a, b, last);
    NumbersAround(a, b);
    PlaceBetween(a, b);
    NumberedBetween(a + ([PLACEHOLDER] + b), a, b);
  }

  lemma NothingIsRead(a: seq<string>, b: seq<string>)
    requires ParseLines(INITIAL, a) == Ok(TABLE_STATE) && NoMoreRounds(TABLE_STATE, b)
    ensures var r := ParseLines(INITIAL, a + ([PLACEHOLDER] + b)); r.Ok? && r.value.rounds == []
  {
    PlaceholderLine();
    PlaceholderReadsAsNothing(TABLE_STATE, PLACEHOLDER);
    ReadAround(a, PLACEHOLDER, b);
  }

  lemma EmptyLedgerText(front: seq<string>, gap: seq<string>, after: seq<string>, closing: seq<string>)
    requires Around(front, gap, after, closing)
    ensures var text := Unlines(EmptyLedger(front, gap, after, closing));
      ReadyText(text, 0) && Parse(text) == Ok([])
  {
    var lines := EmptyLedger(front, gap, after, closing);
    EmptyLedgerIsReady(front, gap, after, closing);
    TableTopReads(front, gap);
    TailReads(TABLE_STATE.header, after, closing);
    NothingIsRead(TableTop(front, gap), after + closing);
    WrittenIsReady(lines, 0);
  }

  lemma AppendsToNoRounds(text: string, inputs: seq<AppendInput>)
    requires ReadyText(text, 0) && Parse(text) == Ok([]) && |inputs| <= U64_MAX && GoodInputs(inputs)
    ensures Parse(AppendMany(text, inputs)) == Ok(RoundsFor(0, inputs))
  {
    ManyAppendsRoundTrip(text, 0, inputs);
    assert [] + RoundsFor(0, inputs) == RoundsFor(0, inputs);
  }

  /** Any n appends to a ledger whose table holds only the placeholder read back as rounds R1
      to Rn with the n inputs in order, whatever text is before, around and behind it. */
  lemma AppendsToEmptyLedger(
    front: seq<string>, gap: seq<string>, after: seq<string>, closing: seq<string>, inputs: seq<AppendInput>)
    requires Around(front, gap, after, closing) && |inputs| <= U64_MAX && GoodInputs(inputs)
    ensures var r := Parse(AppendMany(Unlines(EmptyLedger(front, gap, after, closing)), inputs));
      && r.Ok? && |r.value| == |inputs|
      && forall i :: 0 <= i < |inputs| ==> r.value[i] == NewRound(i + 1, inputs[i])
  {
    EmptyLedgerText(front, gap, after, closing);
    AppendsToNoRounds(Unlines(EmptyLedger(front, gap, after, closing)), inputs);
    RoundsForInOrder(0, inputs);
  }

  lemma QuietBehindPlaceholder(lines: seq<string>, a: seq<string>, b: seq<string>)
    requires lines == a + ([PLACEHOLDER] + b) && LineWith(lines, PLACEHOLDER) == Some(|a|)
    requires forall header :: NoMoreRounds(ParseState(true, header, []), b)
    ensures QuietBehind(lines, Resume(lines))
  {
    assert lines[|a| + 1..] == b;
  }

  lemma EmptyLedgerIsQuiet(front: seq<string>, gap: seq<string>, after: seq<string>, closing: seq<string>)
    requires Around(front, gap, after, closing)
    ensures var lines := EmptyLedger(front, gap, after, closing); QuietBehind(lines, Resume(lines))
  {
    EmptyLedgerIsReady(front, gap, after, closing);
    forall header
      ensures NoMoreRounds(ParseState(true, header, []), after + closing)
    {
      TailReads(header, after, closing);
    }
    QuietBehindPlaceholder(EmptyLedger(front, gap, after, closing), TableTop(front, gap), after + closing);
  }

  /** If the first input reads "round" somewhere, the text append would write still holds no
      round, so that nothing is written and the append ends without an observation. */
  lemma HeaderAppendedToEmptyLedger(
    front: seq<string>, gap: seq<string>, after: seq<string>, closing: seq<string>, input: AppendInput)
    requires Around(front, gap, after, closing) && InRange(input) && !NoCellSaysRound(input)
    ensures Parse(AppendText(Unlines(EmptyLedger(front, gap, after, closing)), input)) == Ok([])
  {
    var lines := EmptyLedger(front, gap, after, closing);
    EmptyLedgerText(front, gap, after, closing);
    EmptyLedgerIsReady(front, gap, after, closing);
    EmptyLedgerIsQuiet(front, gap, after, closing);
    WrittenIsReady(lines, 0);
    UpgradedIsRead(Unlines(lines), 0);
    ReadyIsAppendable(Unlines(lines), 0);
    AppendOfHeaderAddsNothing(Unlines(lines), input);
  }
}

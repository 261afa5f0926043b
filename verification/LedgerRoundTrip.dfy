/**
One append to the ledger file and what a reader finds afterwards: the rounds that were
there and then the appended one.

The text is taken apart into the lines before the row, the row, and the lines after it;
the new row either replaces the placeholder or follows the last row of a round.
*/
module LedgerRoundTrip {
  import opened Common
  import opened Text
  import opened LedgerAnalysis
  import opened LedgerTable
  import opened LedgerUpgrade
  import opened LedgerMeaning
  import opened LedgerAppend

  // ---------- the text append writes ----------

  predicate StartsRound(line: string) {
    "| R" <= TrimStart(line)
  }

  function InsertIndexUpTo(lines: seq<string>, n: nat): (p: nat)
    requires n <= |lines|
    ensures p <= |lines|
  {
    if n == 0 then |lines|
    else if StartsRound(lines[n - 1]) then n
    else InsertIndexUpTo(lines, n - 1)
  }

  /** Right behind the last line that starts a round, or the end of the text. */
  function InsertIndex(lines: seq<string>): (p: nat)
    ensures p <= |lines|
  {
    InsertIndexUpTo(lines, |lines|)
  }

  function InsertRow(content: string, row: string): string {
    var lines := Lines(content);
    var p := InsertIndex(lines);
    Join(lines[..p] + [row] + lines[p..], "\n") + "\n"
  }

  function Updated(content: string, number: nat, input: AppendInput): string {
    if number == 1 && Contains(content, PLACEHOLDER)
    then ReplaceFirst(content, PLACEHOLDER, Row(number, input))
    else InsertRow(content, Row(number, input))
  }

  /** The text an append turns `text` into. */
  function AppendText(text: string, input: AppendInput): string {
    var content := Upgrade(text);
    Updated(content, NextNumber(content), input)
  }

  datatype AppendOutcome = AppendOutcome(roundLabel: string, verdict: Verdict, diagnostics: Diagnostics)

  datatype AppendError = Unreadable(error: ParseError) | NoObservation

  class LedgerFile {
    var text: string

    constructor (initial: string)
      ensures text == initial
    {
      text := initial;
    }

    method NextRoundNumber(content: string) returns (n: nat)
      ensures n == NextNumber(content)
    {
      var lines := Lines(content);
      var max: nat := 0;
      var i := |lines|;
      while i > 0
        invariant 0 <= i <= |lines|
        invariant max == MaxRound(lines[i..])
      {
        i := i - 1;
        assert lines[i..][1..] == lines[i + 1..];
        var number := RoundNumber(lines[i]);
        if number.Some? && number.value > max {
          max := number.value;
        }
      }
      if Contains(content, PLACEHOLDER) || max == 0 {
        return 1;
      }
      return Successor(max);
    }

    method InsertRoundRow(content: string, row: string) returns (output: string)
      ensures output == InsertRow(content, row)
    {
      var lines := Lines(content);
      var index := |lines|;
      var n := |lines|;
      while n > 0
        invariant 0 <= n <= |lines| && index == |lines|
        invariant InsertIndex(lines) == InsertIndexUpTo(lines, n)
      {
        if StartsRound(lines[n - 1]) {
          index := n;
          break;
        }
        n := n - 1;
      }
      output := Join(lines[..index] + [row] + lines[index..], "\n") + "\n";
    }

    /** Nothing is written unless the updated text can be read. */
    method Append(input: AppendInput) returns (r: Result<AppendOutcome, AppendError>)
      modifies this
      ensures var updated := AppendText(old(text), input);
        match Parse(updated)
        case Err(e) => r == Err(Unreadable(e)) && text == old(text)
        case Ok(rounds) =>
          if rounds == [] then r == Err(NoObservation) && text == old(text)
          else
            && text == updated
            && r == Ok(AppendOutcome(LabelOf(NextNumber(Upgrade(old(text)))),
                                     Evaluation(rounds, false), Diagnosis(rounds).value))
    {
      var content := UpgradeSchema(text);
      var number := NextRoundNumber(content);
      var row := Row(number, input);
      var updated;
      if number == 1 && Contains(content, PLACEHOLDER) {
        updated := ReplaceFirst(content, PLACEHOLDER, row);
      } else {
        updated := InsertRoundRow(content, row);
      }
      var parsed := ParseLedger(updated);
      if parsed.Err? {
        return Err(Unreadable(parsed.error));
      }
      var diagnostics := Diagnose(parsed.value);
      if diagnostics.None? {
        return Err(NoObservation);
      }
      var verdict := EvaluateLedger(parsed.value, false);
      text := updated;
      return Ok(AppendOutcome(LabelOf(number), verdict, diagnostics.value));
    }
  }

  // ---------- searching and replacing line by line ----------

  lemma PrefixAcross(p: string, l: string, c: char, rest: string)
    requires c !in p
    ensures p <= l + [c] + rest <==> p <= l
  {
    var s := l + [c] + rest;
    assert s[|l|] == c && s[..|l|] == l;
    if p <= s && |p| <= |l| {
      assert forall i :: 0 <= i < |p| ==> p[i] == s[i] == l[i];
    }
  }

  lemma {:induction false} ContainsAcross(l: string, c: char, rest: string, p: string)
    requires p != [] && c !in p
    ensures Contains(l + [c] + rest, p) <==> Contains(l, p) || Contains(rest, p)
  {
    PrefixAcross(p, l, c, rest);
    if l == [] {
      assert ([] + [c] + rest)[1..] == rest;
    } else {
      assert (l + [c] + rest)[1..] == l[1..] + [c] + rest;
      ContainsAcross(l[1..], c, rest, p);
    }
  }

  lemma ReplaceBehind(s: string, p: string, r: string)
    requires s != [] && !(p <= s)
    ensures ReplaceFirst(s, p, r) == [s[0]] + ReplaceFirst(s[1..], p, r)
    ensures Contains(s, p) <==> Contains(s[1..], p)
  {
  }

  lemma Regroup(a: string, b: string, c: char, rest: string)
    ensures a + (b + [c] + rest) == (a + b) + [c] + rest
  {
  }

  /** Replacing in `l` and in `rest` is replacing in both, in this order. */
  ghost predicate ReplacesAcross(l: string, c: char, rest: string, p: string, r: string) {
    ReplaceFirst(l + [c] + rest, p, r) ==
      if Contains(l, p) then ReplaceFirst(l, p, r) + [c] + rest else l + [c] + ReplaceFirst(rest, p, r)
  }

  lemma ReplaceAtFront(l: string, c: char, rest: string, p: string, r: string)
    requires p <= l
    ensures ReplacesAcross(l, c, rest, p, r)
  {
    TailAcross(l, c, rest, |p|);
    Regroup(r, l[|p|..], c, rest);
    assert p <= l + [c] + rest;
  }

  lemma ReplaceLater(l: string, c: char, rest: string, p: string, r: string)
    requires l != [] && !(p <= l) && !(p <= l + [c] + rest) && ReplacesAcross(l[1..], c, rest, p, r)
    ensures ReplacesAcross(l, c, rest, p, r)
  {
    TailAcross(l, c, rest, 1);
    ReplaceBehind(l, p, r);
    ReplaceBehind(l + [c] + rest, p, r);
    Regroup([l[0]], ReplaceFirst(l[1..], p, r), c, rest);
    Regroup([l[0]], l[1..], c, ReplaceFirst(rest, p, r));
    assert [l[0]] + l[1..] == l;
  }

  lemma {:induction false} ReplaceAcross(l: string, c: char, rest: string, p: string, r: string)
    requires p != [] && c !in p
    ensures ReplacesAcross(l, c, rest, p, r)
  {
    PrefixAcross(p, l, c, rest);
    if p <= l {
      ReplaceAtFront(l, c, rest, p, r);
    } else if l == [] {
      assert ([] + [c] + rest)[1..] == rest;
    } else {
      ReplaceAcross(l[1..], c, rest, p, r);
      ReplaceLater(l, c, rest, p, r);
    }
  }

  lemma TailAcross(l: string, c: char, rest: string, n: nat)
    requires n <= |l|
    ensures (l + [c] + rest)[n..] == l[n..] + [c] + rest
  {
  }

  /** The first line that contains `p`. */
  function LineWith(lines: seq<string>, p: string): (k: Option<nat>)
    ensures k.Some? ==> k.value < |lines|
  {
    if lines == [] then None
    else if Contains(lines[0], p) then Some(0)
    else
      var k := LineWith(lines[1..], p);
      if k.Some? then Some(k.value + 1) else None
  }

  lemma {:induction false} SearchByLines(lines: seq<string>, p: string)
    requires p != [] && '\n' !in p
    ensures Contains(Unlines(lines), p) <==> LineWith(lines, p).Some?
  {
    if lines != [] {
      ContainsAcross(lines[0], '\n', Unlines(lines[1..]), p);
      SearchByLines(lines[1..], p);
    }
  }

  lemma ReplaceInRest(first: string, rest: seq<string>, p: string, r: string, k: nat, next: string)
    requires p != [] && '\n' !in p && !Contains(first, p) && k < |rest|
    requires ReplaceFirst(Unlines(rest), p, r) == Unlines(rest[k := next])
    ensures ReplaceFirst(Unlines([first] + rest), p, r) == Unlines(([first] + rest)[k + 1 := next])
  {
    ReplaceAcross(first, '\n', Unlines(rest), p, r);
    UnlinesCons(first, rest);
    UnlinesCons(first, rest[k := next]);
    assert ([first] + rest)[k + 1 := next] == [first] + rest[k := next];
  }

  lemma UnlinesCons(first: string, rest: seq<string>)
    ensures Unlines([first] + rest) == first + ['\n'] + Unlines(rest)
  {
    assert ([first] + rest)[1..] == rest;
  }

  lemma ReplaceInFirst(first: string, rest: seq<string>, p: string, r: string)
    requires p != [] && '\n' !in p && Contains(first, p)
    ensures ReplaceFirst(Unlines([first] + rest), p, r) == Unlines([ReplaceFirst(first, p, r)] + rest)
  {
    ReplaceAcross(first, '\n', Unlines(rest), p, r);
    UnlinesCons(first, rest);
    UnlinesCons(ReplaceFirst(first, p, r), rest);
  }

  lemma {:induction false} ReplaceByLines(lines: seq<string>, p: string, r: string)
    requires p != [] && '\n' !in p && LineWith(lines, p).Some?
    ensures var k := LineWith(lines, p).value;
      ReplaceFirst(Unlines(lines), p, r) == Unlines(lines[k := ReplaceFirst(lines[k], p, r)])
  {
    var k := LineWith(lines, p).value;
    assert lines == [lines[0]] + lines[1..];
    if k == 0 {
      ReplaceInFirst(lines[0], lines[1..], p, r);
      assert lines[0 := ReplaceFirst(lines[0], p, r)] == [ReplaceFirst(lines[0], p, r)] + lines[1..];
    } else {
      ReplaceByLines(lines[1..], p, r);
      ReplaceInRest(lines[0], lines[1..], p, r, k - 1, ReplaceFirst(lines[k], p, r));
    }
  }

  lemma ContainsIgnoresCr(line: string, p: string)
    requires p != [] && '\r' !in p
    ensures Contains(StripCr(line), p) <==> Contains(line, p)
  {
    if StripCr(line) != line {
      assert line == StripCr(line) + ['\r'] + [];
      ContainsAcross(StripCr(line), '\r', [], p);
    }
  }

  lemma {:induction false} LineWithIgnoresCr(lines: seq<string>, p: string)
    requires p != [] && '\r' !in p
    ensures LineWith(StripAll(lines), p) == LineWith(lines, p)
  {
    if lines != [] {
      ContainsIgnoresCr(lines[0], p);
      LineWithIgnoresCr(lines[1..], p);
      assert StripAll(lines)[1..] == StripAll(lines[1..]);
    }
  }

  /** A line that trims to `core` is `core` between white space. */
  lemma PaddingAround(line: string) returns (before: string, after: string)
    ensures line == before + Trim(line) + after && AllWhite(before) && AllWhite(after)
  {
    TrimEndShape(line);
    var t := TrimEnd(line);
    TrimStartShape(t);
    before := t[..|t| - |TrimStart(t)|];
    after := line[|t|..];
  }

  lemma {:induction false} ReplaceBetweenPadding(before: string, p: string, after: string, r: string)
    requires AllWhite(before) && p != [] && !IsWhite(p[0])
    ensures ReplaceFirst(before + p + after, p, r) == before + r + after
  {
    if before == [] {
      assert (before + p + after)[|p|..] == after;
      assert p <= before + p + after;
    } else {
      var s := before + p + after;
      assert s[0] == before[0] != p[0];
      assert s[1..] == before[1..] + p + after;
      ReplaceBetweenPadding(before[1..], p, after, r);
    }
  }

  // ---------- parsing in parts ----------

  lemma {:induction false} ParseInParts(st: ParseState, a: seq<string>, b: seq<string>)
    ensures ParseLines(st, a + b) ==
      match ParseLines(st, a) case Err(e) => Err(e) case Ok(mid) => ParseLines(mid, b)
    decreases |a|
  {
    if a == [] {
      assert a + b == b;
    } else {
      assert (a + b)[1..] == a[1..] + b;
      var next := ParseLine(st, a[0]);
      if next.Ok? {
        ParseInParts(next.value, a[1..], b);
      }
    }
  }

  /** The rounds found so far do not influence how the next lines are read. */
  function Prepend(earlier: seq<Round>, r: Result<ParseState, ParseError>): Result<ParseState, ParseError> {
    match r
    case Err(e) => Err(e)
    case Ok(st) => Ok(st.(rounds := earlier + st.rounds))
  }

  lemma EarlierRoundsInOneLine(st: ParseState, earlier: seq<Round>, line: string)
    ensures ParseLine(st.(rounds := earlier + st.rounds), line) == Prepend(earlier, ParseLine(st, line))
  {
    if !IsHeading(line) && st.inSummary && '|' in line {
      EarlierRoundsInCells(st, earlier, SplitCells(line));
    }
  }

  lemma EarlierRoundsInCells(st: ParseState, earlier: seq<Round>, cells: seq<string>)
    ensures ParseCells(st.(rounds := earlier + st.rounds), cells) == Prepend(earlier, ParseCells(st, cells))
  {
    var reading := ReadRow(Effective(st.header, |cells|), cells);
    if reading.Found? {
      assert earlier + (st.rounds + [reading.round]) == (earlier + st.rounds) + [reading.round];
    }
  }

  lemma {:induction false} EarlierRoundsDoNotMatter(st: ParseState, earlier: seq<Round>, lines: seq<string>)
    ensures ParseLines(st.(rounds := earlier + st.rounds), lines) == Prepend(earlier, ParseLines(st, lines))
    decreases |lines|
  {
    if lines != [] {
      EarlierRoundsInOneLine(st, earlier, lines[0]);
      var next := ParseLine(st, lines[0]);
      if next.Ok? {
        EarlierRoundsDoNotMatter(next.value, earlier, lines[1..]);
      }
    }
  }

  // ---------- where a row can go ----------

  /** From parser state `st` on, `lines` hold no further round and no broken row. */
  predicate NoMoreRounds(st: ParseState, lines: seq<string>) {
    var r := ParseLines(st.(rounds := []), lines);
    r.Ok? && r.value.rounds == []
  }

  /** A row put behind the first `cut` lines lands in the summary, and no round is read
      from line `resume` on. */
  predicate TakesRowAt(lines: seq<string>, cut: nat, resume: nat) {
    && cut <= resume <= |lines|
    && var before := ParseLines(INITIAL, lines[..cut]);
      before.Ok? && before.value.inSummary && NoMoreRounds(before.value, lines[resume..])
  }

  /** The line the new row replaces or follows lies in the summary, behind all rounds. */
  predicate HasPlaceForRow(lines: seq<string>) {
    var k := LineWith(lines, PLACEHOLDER);
    if k.Some? then Trim(lines[k.value]) == PLACEHOLDER && TakesRowAt(lines, k.value, k.value + 1)
    else TakesRowAt(lines, InsertIndex(lines), InsertIndex(lines))
  }

  predicate Appendable(text: string) {
    PlainHeaders(false, Lines(text)) && HasPlaceForRow(Lines(Upgrade(text)))
  }

  lemma {:induction false} HeadersInForceArePlain(st: ParseState, lines: seq<string>)
    requires PlainHeader(st.header) && PlainHeaders(st.inSummary, lines) && ParseLines(st, lines).Ok?
    ensures PlainHeader(ParseLines(st, lines).value.header)
    decreases |lines|
  {
    if lines != [] {
      var next := ParseLine(st, lines[0]).value;
      OneHeaderIsPlain(st, lines[0]);
      ParsedSection(st, lines[0]);
      HeadersInForceArePlain(next, lines[1..]);
    }
  }

  lemma OneHeaderIsPlain(st: ParseState, line: string)
    requires PlainHeader(st.header) && ParseLine(st, line).Ok?
    requires st.inSummary && !IsHeading(line) && '|' in line ==> PlainCells(SplitCells(line))
    ensures PlainHeader(ParseLine(st, line).value.header)
  {
  }

  lemma {:induction false} PlainHeadersOfPrefix(inSummary: bool, lines: seq<string>, n: nat)
    requires PlainHeaders(inSummary, lines) && n <= |lines|
    ensures PlainHeaders(inSummary, lines[..n])
    decreases n
  {
    if n > 0 {
      var inside := if IsHeading(lines[0]) then IsSummaryHeading(lines[0]) else inSummary;
      PlainHeadersOfPrefix(inside, lines[1..], n - 1);
      assert lines[..n][1..] == lines[1..][..n - 1];
    }
  }

  lemma RowLineParses(st: ParseState, line: string, number: nat, input: AppendInput)
    requires st.inSummary && PlainHeader(st.header) && InRange(input) && NoCellSaysRound(input)
    requires Trim(line) == Row(number, input)
    ensures ParseLine(st, line) == Ok(st.(rounds := st.rounds + [NewRound(number, input)]))
  {
    RowSplits(number, input);
    PaddedTableLine(line);
    TableLineParses(st, line);
    TightStays(Row(number, input));
    assert SplitCells(line) == SplitCells(Row(number, input));
    RowReadsBack(st, number, input);
  }

  lemma PaddedTableLine(line: string)
    requires "|" <= Trim(line)
    ensures "|" <= TrimStart(line)
  {
    var before, after := PaddingAround(line);
    TableBehindWhite(before, Trim(line), after);
  }

  lemma TableBehindWhite(before: string, t: string, after: string)
    requires AllWhite(before) && "|" <= t
    ensures "|" <= TrimStart(before + t + after)
  {
    assert before + t + after == before + (t + after);
    TrimStartDropsWhite(before, t + after);
    assert (t + after)[0] == '|';
  }

  /** Reading a text with the row in place: the rounds before it, then the new one. */
  lemma RowInPlace(lines: seq<string>, cut: nat, resume: nat, line: string, number: nat, input: AppendInput)
    requires TakesRowAt(lines, cut, resume) && PlainHeaders(false, lines)
    requires Trim(line) == Row(number, input) && InRange(input) && NoCellSaysRound(input)
    ensures var prior := ParseLines(INITIAL, lines[..cut]).value.rounds;
      var r := ParseLines(INITIAL, lines[..cut] + [line] + lines[resume..]);
      r.Ok? && r.value.rounds == prior + [NewRound(number, input)]
  {
    var before := ParseLines(INITIAL, lines[..cut]).value;
    PlainHeadersOfPrefix(false, lines, cut);
    HeadersInForceArePlain(INITIAL, lines[..cut]);
    RowLineParses(before, line, number, input);
    var after := before.(rounds := before.rounds + [NewRound(number, input)]);
    assert ParseLines(before, [line]) == Ok(after) by {
      assert [line][1..] == [];
    }
    ParseInParts(INITIAL, lines[..cut], [line]);
    ParseInParts(INITIAL, lines[..cut] + [line], lines[resume..]);
    EarlierRoundsDoNotMatter(before.(rounds := []), after.rounds, lines[resume..]);
    assert after.rounds + [] == after.rounds;
  }

  lemma NothingBetween(lines: seq<string>, cut: nat)
    requires TakesRowAt(lines, cut, cut)
    ensures var r := ParseLines(INITIAL, lines);
      r.Ok? && r.value.rounds == ParseLines(INITIAL, lines[..cut]).value.rounds
  {
    var before := ParseLines(INITIAL, lines[..cut]).value;
    EarlierRoundsDoNotMatter(before.(rounds := []), before.rounds, lines[cut..]);
    assert before.rounds + [] == before.rounds;
    assert lines == lines[..cut] + lines[cut..];
    ParseInParts(INITIAL, lines[..cut], lines[cut..]);
  }

  lemma PlaceholderBetween(lines: seq<string>, cut: nat)
    requires TakesRowAt(lines, cut, cut + 1) && PlainHeaders(false, lines)
    requires Trim(lines[cut]) == PLACEHOLDER
    ensures var r := ParseLines(INITIAL, lines);
      r.Ok? && r.value.rounds == ParseLines(INITIAL, lines[..cut]).value.rounds
  {
    var before := ParseLines(INITIAL, lines[..cut]).value;
    EarlierRoundsDoNotMatter(before.(rounds := []), before.rounds, lines[cut + 1..]);
    assert before.rounds + [] == before.rounds;
    PlainHeadersOfPrefix(false, lines, cut);
    HeadersInForceArePlain(INITIAL, lines[..cut]);
    PlaceholderReadsAsNothing(before, lines[cut]);
    assert lines == lines[..cut] + ([lines[cut]] + lines[cut + 1..]);
    ParseInParts(INITIAL, lines[..cut], [lines[cut]] + lines[cut + 1..]);
    assert ([lines[cut]] + lines[cut + 1..])[1..] == lines[cut + 1..];
  }

  /** Without the row the same text has just the rounds before it. */
  lemma NothingInPlace(lines: seq<string>, cut: nat, resume: nat)
    requires TakesRowAt(lines, cut, resume)
    requires cut == resume || (resume == cut + 1 && Trim(lines[cut]) == PLACEHOLDER)
    requires PlainHeaders(false, lines)
    ensures var r := ParseLines(INITIAL, lines);
      r.Ok? && r.value.rounds == ParseLines(INITIAL, lines[..cut]).value.rounds
  {
    if cut == resume {
      NothingBetween(lines, cut);
    } else {
      PlaceholderBetween(lines, cut);
    }
  }

  lemma PlaceholderCellsAreClean()
    ensures CleanCells(PLACEHOLDER_CELLS)
    ensures forall i :: 0 <= i < |PLACEHOLDER_CELLS| ==> '\n' !in PLACEHOLDER_CELLS[i] && '\r' !in PLACEHOLDER_CELLS[i]
  {
  }

  lemma PlaceholderSplits()
    ensures SplitCells(PLACEHOLDER) == PLACEHOLDER_CELLS && "|" <= PLACEHOLDER && Tight(PLACEHOLDER)
    ensures '\n' !in PLACEHOLDER && '\r' !in PLACEHOLDER
  {
    PlaceholderText();
    PlaceholderCellsAreClean();
    PrintedRowSplits(PLACEHOLDER_CELLS);
    PrintRowHasNo(PLACEHOLDER_CELLS, '\n');
    PrintRowHasNo(PLACEHOLDER_CELLS, '\r');
  }

  lemma PlaceholderCellsAreNoRound(st: ParseState)
    requires PlainHeader(st.header)
    ensures ParseCells(st, PLACEHOLDER_CELLS) == Ok(st)
  {
    assert 'R' in PLACEHOLDER_CELLS[0];
    forall i | 0 <= i < |PLACEHOLDER_CELLS|
      ensures !SameIgnoringCase(PLACEHOLDER_CELLS[i], "round")
    {
      Differ(PLACEHOLDER_CELLS[i], "round", 0);
    }
    assert Effective(st.header, 9) == ForWidth(9);
  }

  lemma PlaceholderReadsAsNothing(st: ParseState, line: string)
    requires PlainHeader(st.header) && Trim(line) == PLACEHOLDER
    ensures ParseLine(st, line) == Ok(st)
  {
    PlaceholderSplits();
    PaddedTableLine(line);
    TableLineParses(st, line);
    SameTrimSameCells(line, PLACEHOLDER);
    PlaceholderCellsAreNoRound(st);
  }

  lemma SameTrimSameCells(line: string, row: string)
    requires Trim(line) == row && Tight(row)
    ensures SplitCells(line) == SplitCells(row)
  {
    TightStays(row);
  }

  // ---------- one append ----------

  lemma UpgradedHeadersArePlain(text: string)
    requires PlainHeaders(false, Lines(text))
    ensures PlainHeaders(false, Lines(Upgrade(text)))
  {
    UpgradedText(text);
    UpgradedLinesStayPlain(false, false, Lines(text));
    if UpgradeLines(false, Lines(text)) == [] {
      assert StripAll([""]) == [""];
      assert PlainHeaders(false, [""][1..]);
      assert PlainHeaders(false, [""]);
    }
  }

  /** A line that is `p` up to white space, with the row in place of `p`. */
  lemma ReplacedInLine(line: string, p: string, row: string) returns (next: string)
    requires Trim(line) == p && p != [] && Tight(p) && '\n' !in line
    requires Tight(row) && row != [] && '\n' !in row && row[|row| - 1] == '|'
    ensures next == ReplaceFirst(line, p, row)
    ensures Trim(next) == row && '\n' !in next
    ensures !EndsWithCr(line) ==> !EndsWithCr(next)
  {
    var before, after := PaddingAround(line);
    ReplaceBetweenPadding(before, p, after, row);
    next := before + row + after;
    TrimUndoesPadding(before, row, after);
    assert forall i :: 0 <= i < |before| ==> before[i] == line[i];
    assert forall i :: 0 <= i < |after| ==> after[i] == line[|line| - |after| + i];
  }

  /** In lines that hold `p` on a line of its own, the row replaces it. */
  lemma RowReplacesLine(written: seq<string>, p: string, row: string) returns (k: nat, line: string)
    requires p != [] && Tight(p) && '\n' !in p && '\r' !in p && NoLineFeed(written)
    requires Tight(row) && row != [] && '\n' !in row && row[|row| - 1] == '|'
    requires var found := LineWith(StripAll(written), p); found.Some? && Trim(StripAll(written)[found.value]) == p
    ensures LineWith(StripAll(written), p) == Some(k) && k < |written|
    ensures Contains(Unlines(written), p)
    ensures ReplaceFirst(Unlines(written), p, row) == Unlines(written[k := line])
    ensures Trim(line) == row && '\n' !in line && (!EndsWithCr(written[k]) ==> !EndsWithCr(line))
  {
    SearchByLines(written, p);
    LineWithIgnoresCr(written, p);
    k := LineWith(written, p).value;
    StripCrHarmless(written[k], "|");
    ReplaceByLines(written, p, row);
    line := ReplacedInLine(written[k], p, row);
  }

  lemma AppendReplaces(text: string, input: AppendInput)
    requires Contains(Upgrade(text), PLACEHOLDER)
    ensures NextNumber(Upgrade(text)) == 1
    ensures AppendText(text, input) == ReplaceFirst(Upgrade(text), PLACEHOLDER, Row(1, input))
  {
  }

  /** In a text upgraded to these lines, the row replaces the placeholder. */
  lemma RowReplacesPlaceholder(text: string, input: AppendInput) returns (k: nat, line: string)
    requires var found := LineWith(Lines(Upgrade(text)), PLACEHOLDER);
      found.Some? && Trim(Lines(Upgrade(text))[found.value]) == PLACEHOLDER
    ensures LineWith(Lines(Upgrade(text)), PLACEHOLDER) == Some(k) && k < |Upgraded(text)|
    ensures NextNumber(Upgrade(text)) == 1
    ensures AppendText(text, input) == Unlines(Upgraded(text)[k := line]) && NoLineFeed(Upgraded(text)[k := line])
    ensures Trim(line) == Row(1, input)
    ensures NoneEndsWithCr(Upgraded(text)) ==> !EndsWithCr(line)
  {
    UpgradedText(text);
    PlaceholderSplits();
    RowSplits(1, input);
    k, line := RowReplacesLine(Upgraded(text), PLACEHOLDER, Row(1, input));
    AppendReplaces(text, input);
  }

  lemma PlaceholderInUpgraded(text: string)
    ensures Contains(Upgrade(text), PLACEHOLDER) <==> LineWith(Lines(Upgrade(text)), PLACEHOLDER).Some?
  {
    UpgradedText(text);
    PlaceholderSplits();
    SearchByLines(Upgraded(text), PLACEHOLDER);
    LineWithIgnoresCr(Upgraded(text), PLACEHOLDER);
  }

  lemma InsertedRowText(content: string, row: string)
    requires '\n' !in row
    ensures var lines := Lines(content);
      var updated := lines[..InsertIndex(lines)] + [row] + lines[InsertIndex(lines)..];
      InsertRow(content, row) == Unlines(updated) && NoLineFeed(updated)
  {
    var lines := Lines(content);
    var updated := lines[..InsertIndex(lines)] + [row] + lines[InsertIndex(lines)..];
    LinesHaveNoLineFeed(content);
    JoinedLines(updated);
  }

  lemma NumberFollowsRounds(text: string)
    requires LineWith(Lines(Upgrade(text)), PLACEHOLDER).None?
    ensures NextNumber(Upgrade(text)) ==
      var max := MaxRound(Lines(Upgrade(text))); if max == 0 then 1 else Successor(max)
  {
    PlaceholderInUpgraded(text);
  }

  lemma RowIsInserted(content: string, number: nat, input: AppendInput)
    requires !Contains(content, PLACEHOLDER)
    ensures Updated(content, number, input) == InsertRow(content, Row(number, input))
  {
  }

  /** In a text upgraded to these lines, the row goes behind the last round. */
  lemma RowFollowsRounds(text: string, number: nat, input: AppendInput)
    requires LineWith(Lines(Upgrade(text)), PLACEHOLDER).None? && number == NextNumber(Upgrade(text))
    ensures var lines := Lines(Upgrade(text));
      var updated := lines[..InsertIndex(lines)] + [Row(number, input)] + lines[InsertIndex(lines)..];
      AppendText(text, input) == Unlines(updated) && NoLineFeed(updated)
  {
    PlaceholderInUpgraded(text);
    RowSplits(number, input);
    RowIsInserted(Upgrade(text), number, input);
    InsertedRowText(Upgrade(text), Row(number, input));
  }

  lemma ParseUpgraded(text: string)
    requires PlainHeaders(false, Lines(text))
    ensures Parse(text) ==
      match ParseLines(INITIAL, Lines(Upgrade(text))) case Err(e) => Err(e) case Ok(st) => Ok(st.rounds)
  {
    PlainIsHarmless(false, Lines(text));
    UpgradeKeepsMeaning(text);
  }

  lemma ReplacedLines(lines: seq<string>, k: nat, line: string)
    requires k < |lines| && NoLineFeed(lines[k := line])
    ensures Lines(Unlines(lines[k := line])) == StripAll(lines)[..k] + [StripCr(line)] + StripAll(lines)[k + 1..]
  {
    LinesOfUnlines(lines[k := line]);
  }

  /** A text whose lines are those of the upgraded one with the row put in place. */
  lemma ReadWithRow(text: string, after: string, cut: nat, resume: nat, line: string, number: nat, input: AppendInput)
    requires PlainHeaders(false, Lines(text)) && InRange(input) && NoCellSaysRound(input)
    requires TakesRowAt(Lines(Upgrade(text)), cut, resume)
    requires cut == resume || (resume == cut + 1 && Trim(Lines(Upgrade(text))[cut]) == PLACEHOLDER)
    requires Trim(line) == Row(number, input)
    requires ParseLines(INITIAL, Lines(after))
      == ParseLines(INITIAL, Lines(Upgrade(text))[..cut] + [line] + Lines(Upgrade(text))[resume..])
    ensures Parse(text).Ok? && Parse(after) == Ok(Parse(text).value + [NewRound(number, input)])
  {
    var lines := Lines(Upgrade(text));
    ParseUpgraded(text);
    UpgradedHeadersArePlain(text);
    NothingInPlace(lines, cut, resume);
    RowInPlace(lines, cut, resume, line, number, input);
  }

  lemma LinesAfterReplacing(text: string, k: nat, line: string, after: string)
    requires k < |Upgraded(text)|
    requires after == Unlines(Upgraded(text)[k := line]) && NoLineFeed(Upgraded(text)[k := line])
    ensures k < |Lines(Upgrade(text))|
    ensures Lines(after) == Lines(Upgrade(text))[..k] + [StripCr(line)] + Lines(Upgrade(text))[k + 1..]
  {
    UpgradedText(text);
    ReplacedLines(Upgraded(text), k, line);
  }

  /** Where reading goes on behind the place of the row. */
  function Resume(lines: seq<string>): (n: nat)
    ensures n <= |lines|
  {
    var k := LineWith(lines, PLACEHOLDER);
    if k.Some? then k.value + 1 else InsertIndex(lines)
  }

  /** The text append writes reads as the upgraded lines with `line`, which holds the row,
      in place of those from `cut` on up to where reading goes on. */
  ghost predicate Written(text: string, input: AppendInput, cut: nat, line: string) {
    var lines := Lines(Upgrade(text));
    && TakesRowAt(lines, cut, Resume(lines))
    && (cut == Resume(lines) || (Resume(lines) == cut + 1 && Trim(lines[cut]) == PLACEHOLDER))
    && Trim(line) == Row(NextNumber(Upgrade(text)), input)
    && ParseLines(INITIAL, Lines(AppendText(text, input)))
      == ParseLines(INITIAL, lines[..cut] + [line] + lines[Resume(lines)..])
  }

  lemma WrittenReplacing(text: string, input: AppendInput) returns (cut: nat, line: string)
    requires Appendable(text) && LineWith(Lines(Upgrade(text)), PLACEHOLDER).Some?
    ensures Written(text, input, cut, line)
  {
    var k, replaced := RowReplacesPlaceholder(text, input);
    LinesAfterReplacing(text, k, replaced, AppendText(text, input));
    StripCrHarmless(replaced, "|");
    cut, line := k, StripCr(replaced);
  }

  lemma WrittenFollowing(text: string, input: AppendInput) returns (cut: nat, line: string)
    requires Appendable(text) && LineWith(Lines(Upgrade(text)), PLACEHOLDER).None?
    ensures Written(text, input, cut, line)
  {
    var lines := Lines(Upgrade(text));
    var number := NextNumber(Upgrade(text));
    cut, line := InsertIndex(lines), Row(number, input);
    RowSplits(number, input);
    TightStays(line);
    RowFollowsRounds(text, number, input);
    LinesOfUnlines(lines[..cut] + [line] + lines[cut..]);
    ParseLinesIgnoreCr(INITIAL, lines[..cut] + [line] + lines[cut..]);
  }

  lemma AppendWrites(text: string, input: AppendInput) returns (cut: nat, line: string)
    requires Appendable(text)
    ensures Written(text, input, cut, line)
  {
    if LineWith(Lines(Upgrade(text)), PLACEHOLDER).Some? {
      cut, line := WrittenReplacing(text, input);
    } else {
      cut, line := WrittenFollowing(text, input);
    }
  }

  /** Reading the text append produced gives exactly the rounds read before, followed by
      one round with the counts, the cleaned auditors and coverage, and the new label. */
  lemma AppendRoundTrip(text: string, input: AppendInput)
    requires Appendable(text) && InRange(input) && NoCellSaysRound(input)
    ensures Parse(text).Ok?
    ensures Parse(AppendText(text, input)) == Ok(Parse(text).value + [NewRound(NextNumber(Upgrade(text)), input)])
  {
    var cut, line := AppendWrites(text, input);
    ReadWithRow(text, AppendText(text, input), cut, Resume(Lines(Upgrade(text))), line,
                NextNumber(Upgrade(text)), input);
  }

  // ---------- a row that says "round" ----------

  /** From line `n` on no round is read in the summary, whatever header is in force. */
  ghost predicate QuietBehind(lines: seq<string>, n: nat)
    requires n <= |lines|
  {
    forall header :: NoMoreRounds(ParseState(true, header, []), lines[n..])
  }

  lemma LostRowParses(st: ParseState, line: string, number: nat, input: AppendInput)
    requires st.inSummary && Trim(line) == Row(number, input) && InRange(input) && !NoCellSaysRound(input)
    ensures ParseLine(st, line).Ok? && ParseLine(st, line).value.rounds == st.rounds
    ensures ParseLine(st, line).value.inSummary
  {
    RowSplits(number, input);
    PaddedTableLine(line);
    TableLineParses(st, line);
    SameTrimSameCells(line, Row(number, input));
    RowIsRead(number, input);
    HeaderRowIffRound(number, input);
  }

  /** Where the row is lost, reading goes on with the rounds before it. */
  lemma LostRowInPlace(a: seq<string>, line: string, b: seq<string>, number: nat, input: AppendInput)
    requires ParseLines(INITIAL, a).Ok? && ParseLines(INITIAL, a).value.inSummary
    requires forall header :: NoMoreRounds(ParseState(true, header, []), b)
    requires Trim(line) == Row(number, input) && InRange(input) && !NoCellSaysRound(input)
    ensures var r := ParseLines(INITIAL, a + [line] + b);
      r.Ok? && r.value.rounds == ParseLines(INITIAL, a).value.rounds
  {
    var before := ParseLines(INITIAL, a).value;
    LostRowParses(before, line, number, input);
    var after := ParseLine(before, line).value;
    assert ParseLines(before, [line]) == Ok(after) by {
      assert [line][1..] == [];
    }
    ParseInParts(INITIAL, a, [line]);
    ParseInParts(INITIAL, a + [line], b);
    EarlierRoundsDoNotMatter(after.(rounds := []), after.rounds, b);
    assert after.rounds + [] == after.rounds;
    assert after.(rounds := []) == ParseState(true, after.header, []);
  }

  /** An append whose artifact, auditors or coverage reads "round" adds no round: the row is
      written as a header, and the ledger reads as before. */
  lemma AppendOfHeaderAddsNothing(text: string, input: AppendInput)
    requires Appendable(text) && InRange(input) && !NoCellSaysRound(input)
    requires QuietBehind(Lines(Upgrade(text)), Resume(Lines(Upgrade(text))))
    ensures Parse(text).Ok? && Parse(AppendText(text, input)) == Parse(text)
  {
    var lines := Lines(Upgrade(text));
    var cut, line := AppendWrites(text, input);
    ParseUpgraded(text);
    UpgradedHeadersArePlain(text);
    NothingInPlace(lines, cut, Resume(lines));
    LostRowInPlace(lines[..cut], line, lines[Resume(lines)..], NextNumber(Upgrade(text)), input);
  }
}

/**
What one append leaves of a ledger: the lines stay upgraded, the headers plain, the placeholder
is gone, and the next row has its place behind the new one.

A ledger that is ready for its next row is taken apart into the lines before the row, the
placeholder it replaces if there is one, and the lines behind it; each property of the whole
is one of the parts, and the row has it too. A printed row is shown to be no placeholder by
counting its pipes.
*/
module LedgerGrowth {
  import opened Common
  import opened Text
  import opened TextMeaning
  import opened LedgerTable
  import opened LedgerUpgrade
  import opened LedgerAppend
  import opened LedgerRoundTrip
  import opened LedgerAppends

  // ---------- the upgrade in parts ----------

  lemma {:induction false} UpgradeInParts(inSummary: bool, a: seq<string>, b: seq<string>)
    ensures UpgradeLines(inSummary, a + b)
      == UpgradeLines(inSummary, a) + UpgradeLines(InSummaryAt(inSummary, a, |a|), b)
    decreases |a|
  {
    if a == [] {
      assert a + b == b;
    } else {
      assert (a + b)[1..] == a[1..] + b;
      UpgradeInParts(NextInSummary(inSummary, a[0]), a[1..], b);
    }
  }

  lemma {:induction false} SectionsInParts(inSummary: bool, a: seq<string>, b: seq<string>)
    ensures InSummaryAt(inSummary, a + b, |a + b|)
      == InSummaryAt(InSummaryAt(inSummary, a, |a|), b, |b|)
    decreases |a|
  {
    if a == [] {
      assert a + b == b;
    } else {
      assert (a + b)[1..] == a[1..] + b;
      SectionsInParts(NextInSummary(inSummary, a[0]), a[1..], b);
    }
  }

  /** A line of the table that the upgrade leaves alone wherever it stands. */
  predicate SettledRow(line: string) {
    "|" <= TrimStart(line) && !Replaces(SplitRow(line))
  }

  lemma SettledRowStays(inSummary: bool, line: string)
    requires SettledRow(line)
    ensures UpgradeLines(inSummary, [line]) == [line]
    ensures InSummaryAt(inSummary, [line], 1) == inSummary
  {
    TableLineIsNoHeading(line);
    assert [line][1..] == [];
    assert NextInSummary(inSummary, line) == inSummary;
    assert InSummaryAt(inSummary, [], 0) == inSummary;
  }

  lemma StableParts(inSummary: bool, a: seq<string>, b: seq<string>)
    ensures UpgradeLines(inSummary, a + b) == a + b <==>
      UpgradeLines(inSummary, a) == a && UpgradeLines(InSummaryAt(inSummary, a, |a|), b) == b
  {
    UpgradeInParts(inSummary, a, b);
    var x, y := UpgradeLines(inSummary, a), UpgradeLines(InSummaryAt(inSummary, a, |a|), b);
    if x + y == a + b {
      assert x == (x + y)[..|a|] && a == (a + b)[..|a|];
      assert y == (x + y)[|a|..] && b == (a + b)[|a|..];
    }
  }

  lemma StableBehindRow(inSummary: bool, line: string, b: seq<string>)
    requires SettledRow(line)
    ensures UpgradeLines(inSummary, [line] + b) == [line] + b <==> UpgradeLines(inSummary, b) == b
  {
    SettledRowStays(inSummary, line);
    StableParts(inSummary, [line], b);
  }

  /** Putting a settled row into upgraded lines, in place of a settled row or between
      two lines, leaves them upgraded. */
  lemma UpgradedAround(a: seq<string>, m: seq<string>, b: seq<string>, line: string)
    requires UpgradeLines(false, a + (m + b)) == a + (m + b) && SettledRow(line)
    requires m == [] || (|m| == 1 && SettledRow(m[0]))
    ensures UpgradeLines(false, a + ([line] + b)) == a + ([line] + b)
  {
    var mid := InSummaryAt(false, a, |a|);
    StableParts(false, a, m + b);
    if m == [] {
      assert m + b == b;
    } else {
      assert m == [m[0]];
      StableBehindRow(mid, m[0], b);
    }
    StableBehindRow(mid, line, b);
    StableParts(false, a, [line] + b);
  }

  // ---------- plain headers in parts ----------

  predicate SectionAfter(parsing: bool, lines: seq<string>)
    decreases |lines|
  {
    if lines == [] then parsing
    else SectionAfter(if IsHeading(lines[0]) then IsSummaryHeading(lines[0]) else parsing, lines[1..])
  }

  lemma {:induction false} PlainInParts(parsing: bool, a: seq<string>, b: seq<string>)
    ensures PlainHeaders(parsing, a + b) <==> PlainHeaders(parsing, a) && PlainHeaders(SectionAfter(parsing, a), b)
    decreases |a|
  {
    if a == [] {
      assert a + b == b;
    } else {
      assert (a + b)[1..] == a[1..] + b;
      PlainInParts(if IsHeading(a[0]) then IsSummaryHeading(a[0]) else parsing, a[1..], b);
    }
  }

  lemma PlainBehindRow(parsing: bool, line: string, b: seq<string>)
    requires "|" <= TrimStart(line) && PlainCells(SplitCells(line))
    ensures PlainHeaders(parsing, [line] + b) <==> PlainHeaders(parsing, b)
  {
    TableLineIsNoHeading(line);
    assert ([line] + b)[1..] == b;
  }

  lemma PlainAround(a: seq<string>, m: seq<string>, b: seq<string>, line: string)
    requires PlainHeaders(false, a + (m + b)) && "|" <= TrimStart(line) && PlainCells(SplitCells(line))
    requires m == [] || (|m| == 1 && "|" <= TrimStart(m[0]) && PlainCells(SplitCells(m[0])))
    ensures PlainHeaders(false, a + ([line] + b))
  {
    var mid := SectionAfter(false, a);
    PlainInParts(false, a, m + b);
    if m == [] {
      assert m + b == b;
    } else {
      assert m == [m[0]];
      PlainBehindRow(mid, m[0], b);
    }
    PlainBehindRow(mid, line, b);
    PlainInParts(false, a, [line] + b);
  }

  // ---------- a printed row is no placeholder ----------

  function PipesIn(s: string): nat {
    if s == [] then 0 else PipesIn(s[1..]) + if s[0] == '|' then 1 else 0
  }

  lemma {:induction false} PipesAdd(a: string, b: string)
    ensures PipesIn(a + b) == PipesIn(a) + PipesIn(b)
  {
    if a == [] {
      assert a + b == b;
    } else {
      assert (a + b)[1..] == a[1..] + b;
      PipesAdd(a[1..], b);
    }
  }

  lemma {:induction false} NoPipes(s: string)
    ensures PipesIn(s) == 0 <==> '|' !in s
  {
    if s != [] {
      NoPipes(s[1..]);
    }
  }

  lemma {:induction false} PipesOfJoin(cells: seq<string>)
    requires cells != [] && CleanCells(cells)
    ensures PipesIn(Join(cells, " | ")) == |cells| - 1
  {
    NoPipes(cells[0]);
    if |cells| > 1 {
      PipesOfJoin(cells[1..]);
      PipesAdd(cells[0] + " | ", Join(cells[1..], " | "));
      PipesAdd(cells[0], " | ");
      assert " | " == [' '] + (['|'] + [' ']);
      PipesAdd([' '], ['|'] + [' ']);
      PipesAdd(['|'], [' ']);
    }
  }

  lemma PipesOfRow(cells: seq<string>)
    requires cells != [] && CleanCells(cells)
    ensures PipesIn(PrintRow(cells)) == |cells| + 1
  {
    PipesOfJoin(cells);
    var body := Join(cells, " | ");
    assert PrintRow(cells) == (['|'] + [' ']) + body + ([' '] + ['|']);
    PipesAdd((['|'] + [' ']) + body, [' '] + ['|']);
    PipesAdd(['|'] + [' '], body);
    PipesAdd(['|'], [' ']);
    PipesAdd([' '], ['|']);
  }

  lemma SameFront(u: string, v: string, x: string, w: string)
    requires u + v == x + w && '|' !in u && '|' !in x
    requires v != [] && v[0] == '|' && w != [] && w[0] == '|'
    ensures u == x && v == w
  {
    var s := u + v;
    assert s[|u|] == '|' && s[|x|] == '|';
    assert forall i :: 0 <= i < |u| ==> s[i] == u[i];
    assert forall i :: 0 <= i < |x| ==> s[i] == x[i];
    assert |u| == |x|;
    assert u == s[..|u|] && x == s[..|x|] && v == s[|u|..] && w == s[|x|..];
  }

  lemma SameBack(v: string, u: string, w: string, x: string)
    requires v + u == w + x && '|' !in u && '|' !in x
    requires v != [] && v[|v| - 1] == '|' && w != [] && w[|w| - 1] == '|'
    ensures u == x && v == w
  {
    var s := v + u;
    assert s[|v| - 1] == '|' && s[|w| - 1] == '|';
    assert forall i :: |v| <= i < |s| ==> s[i] == u[i - |v|];
    assert forall i :: |w| <= i < |s| ==> s[i] == x[i - |w|];
    assert |v| == |w|;
    assert v == s[..|v|] && w == s[..|w|] && u == s[|v|..] && x == s[|w|..];
  }

  lemma PipesOfThree(a: string, b: string, c: string)
    ensures PipesIn(a + b + c) == PipesIn(a) + PipesIn(b) + PipesIn(c)
  {
    PipesAdd(a + b, c);
    PipesAdd(a, b);
  }

  /** Two rows with the same number of pipes, one inside the other padded: they agree. */
  lemma RowInsideRow(before: string, row: string, after: string, x: string, p: string, y: string)
    requires before + row + after == x + p + y
    requires '|' !in before && '|' !in after && '|' !in x && '|' !in y
    requires row != [] && row[0] == '|' && row[|row| - 1] == '|'
    requires p != [] && p[0] == '|' && p[|p| - 1] == '|'
    ensures row == p
  {
    assert before + (row + after) == before + row + after;
    assert x + (p + y) == x + p + y;
    SameFront(before, row + after, x, p + y);
    SameBack(row, after, p, y);
  }

  lemma NoPipesAround(before: string, row: string, after: string, x: string, p: string, y: string)
    requires before + row + after == x + p + y && PipesIn(row) == PipesIn(p)
    requires '|' !in before && '|' !in after
    ensures '|' !in x && '|' !in y
  {
    PipesOfThree(before, row, after);
    PipesOfThree(x, p, y);
    NoPipes(before);
    NoPipes(after);
    NoPipes(x);
    NoPipes(y);
  }

  lemma PipesOfPlaceholder()
    ensures PipesIn(PLACEHOLDER) == 10
  {
    PlaceholderText();
    PlaceholderCellsAreClean();
    PipesOfRow(PLACEHOLDER_CELLS);
  }

  lemma PipesOfBoth(number: nat, input: AppendInput)
    ensures PipesIn(Row(number, input)) == PipesIn(PLACEHOLDER)
  {
    RowCellsAreClean(number, input);
    PipesOfRow(RowCells(number, input));
    PipesOfPlaceholder();
  }

  lemma RowCellsDiffer(number: nat, input: AppendInput)
    ensures RowCells(number, input) != PLACEHOLDER_CELLS
  {
    assert RowCells(number, input)[4] == Decimal(input.high) != PLACEHOLDER_CELLS[4];
  }

  lemma RowDiffers(number: nat, input: AppendInput)
    ensures Row(number, input) != PLACEHOLDER
  {
    RowSplits(number, input);
    PlaceholderSplits();
    RowCellsDiffer(number, input);
  }

  lemma PlaceholderEnds()
    ensures PLACEHOLDER != [] && PLACEHOLDER[0] == '|' && PLACEHOLDER[|PLACEHOLDER| - 1] == '|'
  {
  }

  /** A line holding a printed round row does not contain the placeholder. */
  lemma RowIsNoPlaceholder(line: string, number: nat, input: AppendInput)
    requires Trim(line) == Row(number, input)
    ensures !Contains(line, PLACEHOLDER)
  {
    PipesOfBoth(number, input);
    RowDiffers(number, input);
    if Contains(line, PLACEHOLDER) {
      var row := Row(number, input);
      var before, after := PaddingAround(line);
      var x, y := ContainedParts(line, PLACEHOLDER);
      RowSplits(number, input);
      PlaceholderEnds();
      NoPipesAround(before, row, after, x, PLACEHOLDER, y);
      RowInsideRow(before, row, after, x, PLACEHOLDER, y);
    }
  }

  // ---------- the state between two appends ----------

  predicate Tidy(lines: seq<string>) {
    lines != [] && NoLineFeed(lines) && NoneEndsWithCr(lines)
  }

  predicate Settled(lines: seq<string>) {
    UpgradeLines(false, lines) == lines && PlainHeaders(false, lines)
  }

  /** The ledger holds `n` rounds, or its one round row is the empty placeholder. */
  predicate Numbered(lines: seq<string>, n: nat) {
    var k := LineWith(lines, PLACEHOLDER);
    if k.Some? then
      n == 0 && InsertIndex(lines) == k.value + 1 && MaxRound(lines) <= 1
      && LineWith(lines[k.value + 1..], PLACEHOLDER).None?
    else MaxRound(lines) == n
  }

  /** An upgraded ledger with `n` rounds that can take the next row. */
  predicate ReadyLines(lines: seq<string>, n: nat) {
    Tidy(lines) && Settled(lines) && HasPlaceForRow(lines) && Numbered(lines, n)
  }

  /** Where the next row goes in a ready ledger. */
  function Cut(lines: seq<string>): nat {
    var k := LineWith(lines, PLACEHOLDER);
    if k.Some? then k.value else InsertIndex(lines)
  }

  lemma {:induction false} NoRoundBehind(lines: seq<string>, n: nat, i: nat)
    requires n <= |lines| && InsertIndexUpTo(lines, n) <= i < n
    requires InsertIndexUpTo(lines, n) <= n
    ensures !StartsRound(lines[i])
  {
    if !StartsRound(lines[n - 1]) && i < n - 1 {
      if InsertIndexUpTo(lines, n - 1) <= n - 1 {
        NoRoundBehind(lines, n - 1, i);
      }
    }
  }

  lemma {:induction false} InsertIndexIs(lines: seq<string>, n: nat, p: nat)
    requires 0 < p <= n <= |lines| && StartsRound(lines[p - 1])
    requires forall i :: p <= i < n ==> !StartsRound(lines[i])
    ensures InsertIndexUpTo(lines, n) == p
  {
    if n > p {
      InsertIndexIs(lines, n - 1, p);
    }
  }

  lemma {:induction false} MaxRoundInParts(a: seq<string>, b: seq<string>)
    ensures MaxRound(a + b) == if MaxRound(a) > MaxRound(b) then MaxRound(a) else MaxRound(b)
  {
    if a == [] {
      assert a + b == b;
    } else {
      assert (a + b)[1..] == a[1..] + b;
      MaxRoundInParts(a[1..], b);
    }
  }

  lemma {:induction false} LineWithInParts(a: seq<string>, b: seq<string>, p: string)
    ensures LineWith(a + b, p).None? <==> LineWith(a, p).None? && LineWith(b, p).None?
  {
    if a == [] {
      assert a + b == b;
    } else {
      assert (a + b)[1..] == a[1..] + b;
      LineWithInParts(a[1..], b, p);
    }
  }

  /** What the line of an appended row looks like from outside. */
  lemma RowLineLooks(line: string, number: nat, input: AppendInput)
    requires Trim(line) == Row(number, input) && number <= U64_MAX && NoCellSaysRound(input)
    ensures "|" <= TrimStart(line) && StartsRound(line) && SettledRow(line)
    ensures PlainCells(SplitCells(line)) && RoundNumber(line) == Some(number)
  {
    RowSplits(number, input);
    TightStays(Row(number, input));
    PaddedTableLine(line);
    SameTrimSameCells(line, Row(number, input));
    HeaderRowIffRound(number, input);
    RowStartsRound(line, number, input);
    RowCellsStay(number, input);
    LabelGivesNumber(line, number);
  }

  lemma RowCellsStay(number: nat, input: AppendInput)
    ensures !Replaces(RowCells(number, input))
  {
    assert RowCells(number, input)[0][0] == 'R';
  }

  lemma RowStartsPlainly(number: nat, input: AppendInput)
    ensures "| R" <= Row(number, input)
  {
    var row, cells := Row(number, input), RowCells(number, input);
    assert row == "| " + (cells[0] + " | " + Join(cells[1..], " | ")) + " |";
    assert row[0] == '|' && row[1] == ' ' && row[2] == cells[0][0] == 'R';
  }

  lemma RoundBehindWhite(before: string, t: string, after: string)
    requires AllWhite(before) && "| R" <= t
    ensures "| R" <= TrimStart(before + t + after)
  {
    assert before + t + after == before + (t + after);
    TrimStartDropsWhite(before, t + after);
    assert (t + after)[0] == '|';
  }

  lemma RowStartsRound(line: string, number: nat, input: AppendInput)
    requires Trim(line) == Row(number, input)
    ensures StartsRound(line)
  {
    var before, after := PaddingAround(line);
    RowStartsPlainly(number, input);
    RoundBehindWhite(before, Row(number, input), after);
  }

  lemma PlaceholderLooks(line: string)
    requires Trim(line) == PLACEHOLDER
    ensures SettledRow(line) && PlainCells(SplitCells(line))
  {
    PlaceholderSplits();
    PaddedTableLine(line);
    SameTrimSameCells(line, PLACEHOLDER);
    PlaceholderCellsAreHarmless();
  }

  lemma PlaceholderCellsAreHarmless()
    ensures !Replaces(PLACEHOLDER_CELLS) && PlainCells(PLACEHOLDER_CELLS)
  {
    assert PLACEHOLDER_CELLS[0][0] == 'R';
    forall i | 0 <= i < |PLACEHOLDER_CELLS|
      ensures !SameIgnoringCase(PLACEHOLDER_CELLS[i], "round")
    {
      Differ(PLACEHOLDER_CELLS[i], "round", 0);
    }
  }

  /** A ledger taken apart where the next row goes: the lines before it, the placeholder
      it replaces, if any, and the lines behind it. */
  ghost predicate Parts(lines: seq<string>, a: seq<string>, m: seq<string>, b: seq<string>) {
    lines == a + (m + b) && (m == [] || (|m| == 1 && Trim(m[0]) == PLACEHOLDER))
  }

  ghost predicate FreeOfPlaceholder(lines: seq<string>) {
    LineWith(lines, PLACEHOLDER).None?
  }

  ghost predicate NoRoundStarts(lines: seq<string>) {
    forall i :: 0 <= i < |lines| ==> !StartsRound(lines[i])
  }

  ghost predicate SummaryOpen(a: seq<string>, b: seq<string>) {
    var before := ParseLines(INITIAL, a);
    before.Ok? && before.value.inSummary && NoMoreRounds(before.value, b)
  }

  lemma ReadyCut(lines: seq<string>, n: nat) returns (cut: nat, resume: nat)
    requires ReadyLines(lines, n)
    ensures cut == Cut(lines) && resume == InsertIndex(lines) && cut <= resume <= |lines|
    ensures cut == resume || (resume == cut + 1 && Trim(lines[cut]) == PLACEHOLDER)
    ensures TakesRowAt(lines, cut, resume)
  {
    cut, resume := Cut(lines), InsertIndex(lines);
  }

  lemma SlicesArePieces(lines: seq<string>, cut: nat, resume: nat)
    requires cut <= resume <= |lines|
    ensures lines == lines[..cut] + (lines[cut..resume] + lines[resume..])
  {
  }

  lemma ReadyParts(lines: seq<string>, n: nat) returns (a: seq<string>, m: seq<string>, b: seq<string>)
    requires ReadyLines(lines, n)
    ensures Parts(lines, a, m, b) && SummaryOpen(a, b)
    ensures a == lines[..Cut(lines)] && b == lines[InsertIndex(lines)..]
  {
    var cut, resume := ReadyCut(lines, n);
    a, m, b := lines[..cut], lines[cut..resume], lines[resume..];
    SlicesArePieces(lines, cut, resume);
  }

  lemma ReadyTail(lines: seq<string>)
    ensures NoRoundStarts(lines[InsertIndex(lines)..])
  {
    var b := lines[InsertIndex(lines)..];
    forall i | 0 <= i < |b|
      ensures !StartsRound(b[i])
    {
      NoRoundBehind(lines, |lines|, InsertIndex(lines) + i);
    }
  }

  lemma {:induction false} PrefixBeforeFirst(lines: seq<string>, p: string)
    requires LineWith(lines, p).Some?
    ensures LineWith(lines[..LineWith(lines, p).value], p).None?
  {
    var k := LineWith(lines, p).value;
    if k > 0 {
      PrefixBeforeFirst(lines[1..], p);
      assert lines[..k][1..] == lines[1..][..k - 1];
    }
  }

  lemma FreeOfNone(lines: seq<string>, p: string, cut: nat)
    requires cut <= |lines| && LineWith(lines, p).None?
    ensures LineWith(lines[..cut], p).None? && LineWith(lines[cut..], p).None?
  {
    assert lines == lines[..cut] + lines[cut..];
    LineWithInParts(lines[..cut], lines[cut..], p);
  }

  lemma FreeOutside(lines: seq<string>, p: string, cut: nat, resume: nat)
    requires cut <= resume <= |lines|
    requires var k := LineWith(lines, p);
      if k.Some? then cut == k.value && resume == k.value + 1 && LineWith(lines[k.value + 1..], p).None?
      else cut == resume
    ensures LineWith(lines[..cut], p).None? && LineWith(lines[resume..], p).None?
  {
    if LineWith(lines, p).Some? {
      PrefixBeforeFirst(lines, p);
    } else {
      FreeOfNone(lines, p, cut);
    }
  }

  /** Outside the line the row replaces there is no placeholder. */
  lemma ReadyFree(lines: seq<string>, n: nat)
    requires ReadyLines(lines, n)
    ensures FreeOfPlaceholder(lines[..Cut(lines)]) && FreeOfPlaceholder(lines[InsertIndex(lines)..])
  {
    FreeOutside(lines, PLACEHOLDER, Cut(lines), InsertIndex(lines));
  }

  lemma ReadyMax(lines: seq<string>, n: nat)
    requires ReadyLines(lines, n)
    ensures MaxRound(lines) <= n + 1
  {
  }

  // ---------- from ready to ready ----------

  lemma TidyAround(a: seq<string>, m: seq<string>, b: seq<string>, line: string)
    requires Tidy(a + (m + b)) && '\n' !in line && !EndsWithCr(line)
    ensures Tidy(a + ([line] + b))
  {
    var lines := a + (m + b);
    var next := a + ([line] + b);
    forall i | 0 <= i < |next|
      ensures '\n' !in next[i] && !EndsWithCr(next[i])
    {
      if i < |a| {
        assert next[i] == lines[i];
      } else if i > |a| {
        assert next[i] == b[i - |a| - 1] == lines[i - 1 + |m|];
      }
    }
  }

  lemma FreeAround(a: seq<string>, b: seq<string>, line: string)
    requires FreeOfPlaceholder(a) && FreeOfPlaceholder(b) && !Contains(line, PLACEHOLDER)
    ensures FreeOfPlaceholder(a + ([line] + b))
  {
    LineWithInParts([line], b, PLACEHOLDER);
    LineWithInParts(a, [line] + b, PLACEHOLDER);
  }

  lemma InsertIndexAround(a: seq<string>, b: seq<string>, line: string)
    requires StartsRound(line) && NoRoundStarts(b)
    ensures InsertIndex(a + ([line] + b)) == |a| + 1
  {
    var next := a + ([line] + b);
    forall i | |a| + 1 <= i < |next|
      ensures !StartsRound(next[i])
    {
      assert next[i] == b[i - |a| - 1];
    }
    InsertIndexIs(next, |next|, |a| + 1);
  }

  lemma MaxAround(a: seq<string>, m: seq<string>, b: seq<string>, line: string, n: nat)
    requires MaxRound(a + (m + b)) <= n && RoundNumber(line) == Some(n)
    ensures MaxRound(a + ([line] + b)) == n
  {
    MaxRoundInParts(a, m + b);
    MaxRoundInParts(m, b);
    MaxRoundInParts([line], b);
    MaxRoundInParts(a, [line] + b);
    assert [line][1..] == [];
    assert MaxRound([line]) == n;
  }

  lemma SettledAround(a: seq<string>, m: seq<string>, b: seq<string>, line: string)
    requires Settled(a + (m + b)) && SettledRow(line) && PlainCells(SplitCells(line))
    requires m == [] || (|m| == 1 && Trim(m[0]) == PLACEHOLDER)
    ensures Settled(a + ([line] + b))
  {
    if m != [] {
      PlaceholderLooks(m[0]);
    }
    UpgradedAround(a, m, b, line);
    PlainAround(a, m, b, line);
  }

  lemma OpenAround(a: seq<string>, m: seq<string>, b: seq<string>, line: string, number: nat, input: AppendInput)
    requires SummaryOpen(a, b) && PlainHeaders(false, a + (m + b)) && InRange(input) && NoCellSaysRound(input)
    requires Trim(line) == Row(number, input)
    ensures SummaryOpen(a + [line], b)
  {
    PlainInParts(false, a, m + b);
    HeadersInForceArePlain(INITIAL, a);
    RowLineParses(ParseLines(INITIAL, a).value, line, number, input);
    assert [line][1..] == [];
    ParseInParts(INITIAL, a, [line]);
  }

  lemma ReadyFrom(lines: seq<string>, n: nat, a: seq<string>, b: seq<string>)
    requires Tidy(lines) && Settled(lines) && FreeOfPlaceholder(lines)
    requires lines == a + b && InsertIndex(lines) == |a| && SummaryOpen(a, b) && MaxRound(lines) == n
    ensures ReadyLines(lines, n)
  {
    assert lines[..|a|] == a && lines[|a|..] == b;
  }

  /** The lines after the next append, with `line` holding the new row. */
  function NextLines(lines: seq<string>, line: string): seq<string>
    requires Cut(lines) <= |lines|
  {
    lines[..Cut(lines)] + ([line] + lines[InsertIndex(lines)..])
  }

  /** An append leaves a ready ledger ready for the next one. */
  lemma NextIsReady(lines: seq<string>, n: nat, line: string, input: AppendInput)
    requires ReadyLines(lines, n) && n + 1 <= U64_MAX && InRange(input) && NoCellSaysRound(input)
    requires Trim(line) == Row(n + 1, input) && '\n' !in line && !EndsWithCr(line)
    ensures Cut(lines) <= |lines|
    ensures ReadyLines(NextLines(lines, line), n + 1) && FreeOfPlaceholder(NextLines(lines, line))
  {
    var a, m, b := ReadyParts(lines, n);
    ReadyTail(lines);
    ReadyFree(lines, n);
    ReadyMax(lines, n);
    PartsAreReady(a, m, b, line, n + 1, input);
  }

  /** What is known of a ready ledger's lines: `a` before the row to write, `m` the
      placeholder it replaces or nothing, `b` the lines after it. */
  ghost predicate ReadyAround(a: seq<string>, m: seq<string>, b: seq<string>, n: nat) {
    && (m == [] || (|m| == 1 && Trim(m[0]) == PLACEHOLDER))
    && Tidy(a + (m + b)) && Settled(a + (m + b)) && MaxRound(a + (m + b)) <= n
    && SummaryOpen(a, b) && FreeOfPlaceholder(a) && FreeOfPlaceholder(b) && NoRoundStarts(b)
  }

  /** The line holds the row of round `n`, possibly indented. */
  ghost predicate HoldsRow(line: string, n: nat, input: AppendInput) {
    && n <= U64_MAX && InRange(input) && NoCellSaysRound(input)
    && Trim(line) == Row(n, input) && '\n' !in line && !EndsWithCr(line)
  }

  lemma PartsStaySettled(a: seq<string>, m: seq<string>, b: seq<string>, line: string, n: nat, input: AppendInput)
    requires ReadyAround(a, m, b, n) && HoldsRow(line, n, input)
    ensures Tidy(a + ([line] + b)) && Settled(a + ([line] + b)) && FreeOfPlaceholder(a + ([line] + b))
  {
    RowLineLooks(line, n, input);
    RowIsNoPlaceholder(line, n, input);
    TidyAround(a, m, b, line);
    SettledAround(a, m, b, line);
    FreeAround(a, b, line);
  }

  lemma PartsStayNumbered(a: seq<string>, m: seq<string>, b: seq<string>, line: string, n: nat, input: AppendInput)
    requires ReadyAround(a, m, b, n) && HoldsRow(line, n, input)
    ensures InsertIndex(a + ([line] + b)) == |a + [line]| && SummaryOpen(a + [line], b)
    ensures MaxRound(a + ([line] + b)) == n
  {
    RowLineLooks(line, n, input);
    InsertIndexAround(a, b, line);
    MaxAround(a, m, b, line, n);
    OpenAround(a, m, b, line, n, input);
  }

  lemma Reassociate(a: seq<string>, line: string, b: seq<string>)
    ensures a + [line] + b == a + ([line] + b)
  {
  }

  lemma PartsAreReady(a: seq<string>, m: seq<string>, b: seq<string>, line: string, n: nat, input: AppendInput)
    requires ReadyAround(a, m, b, n) && HoldsRow(line, n, input)
    ensures ReadyLines(a + ([line] + b), n) && FreeOfPlaceholder(a + ([line] + b))
  {
    PartsStaySettled(a, m, b, line, n, input);
    PartsStayNumbered(a, m, b, line, n, input);
    Reassociate(a, line, b);
    ReadyFrom(a + ([line] + b), n, a + [line], b);
  }
}

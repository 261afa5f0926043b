/**
Labels are fresh: the number append gives a round is above the number of every line that
starts a round, and a line that carries a label, in whatever padding, carries that label's
number. So no round read before has the new label, unless the numbers have run out of
64 bits.
*/
module LedgerAppends {
  import opened Common
  import opened Text
  import opened LedgerAnalysis
  import opened LedgerTable
  import opened LedgerUpgrade
  import opened LedgerAppend
  import opened LedgerRoundTrip

  // ---------- fresh labels ----------

  function FirstPart(s: string): string {
    Split(s, '|')[0]
  }

  lemma {:induction false} FirstPartEndsAtPipe(s: string)
    ensures FirstPart(s) <= s && '|' !in FirstPart(s)
    ensures FirstPart(s) == s || s[|FirstPart(s)|] == '|'
  {
    if s != [] && s[0] != '|' {
      FirstPartEndsAtPipe(s[1..]);
    }
  }

  lemma FirstPartIs(f: string, rest: string)
    requires '|' !in f && (rest == [] || rest[0] == '|')
    ensures FirstPart(f + rest) == f
  {
    if rest == [] {
      assert f + rest == f;
      SplitPlain(f, '|');
    } else {
      assert f + rest == f + ['|'] + rest[1..];
      SplitAtSep(f, '|', rest[1..]);
    }
  }

  lemma {:induction false} StrippedPipes(s: string)
    ensures var t := StripTrailing(s, '|');
      t <= s && forall i :: |t| <= i < |s| ==> s[i] == '|'
  {
    if s != [] && s[|s| - 1] == '|' {
      StrippedPipes(s[..|s| - 1]);
    }
  }

  /** Trimmed, the first cell does not depend on trailing pipes and white space. */
  lemma FirstCellOfTail(x: string, after: string)
    requires AllWhite(after)
    ensures Trim(FirstPart(x + after)) == Trim(FirstPart(StripTrailing(x, '|')))
  {
    var y := StripTrailing(x, '|');
    StrippedPipes(x);
    FirstPartEndsAtPipe(y);
    var f := FirstPart(y);
    if f != y {
      assert x + after == f + (x + after)[|f|..];
      FirstPartIs(f, (x + after)[|f|..]);
    } else if y != x {
      assert x + after == y + (x + after)[|y|..];
      FirstPartIs(y, (x + after)[|y|..]);
    } else {
      assert '|' !in after;
      assert '|' !in x + after;
      SplitPlain(x + after, '|');
      TrimEndDropsWhite(x, after);
    }
  }

  lemma WithoutHead(c: char, x: string)
    ensures ([c] + x)[1..] == x
  {
  }

  lemma TrimOfLabelCell(f: string, digits: string)
    requires Trim(" R" + f) == "R" + digits && Tight(digits)
    ensures Trim(f) == digits
  {
    TrimEndShape(f);
    if TrimEnd(f) == [] {
      TrimEndDropsWhite(" R", f);
      assert TrimEnd(" R") == " R";
      assert " R"[1..] == "R";
      assert Trim(" R" + f) == TrimStart(" R") == "R";
    } else {
      var e := TrimEnd(f);
      var w := f[|e|..];
      assert " R" + f == (" R" + e) + w;
      TrimEndDropsWhite(" R" + e, w);
      assert TrimEnd(" R" + e) == " R" + e;
      WithoutHead(' ', "R" + e);
      assert " R" + e == [' '] + ("R" + e);
      assert TrimStart(" R" + e) == TrimStart("R" + e) == "R" + e;
      WithoutHead('R', e);
      WithoutHead('R', digits);
    }
    TightStays(digits);
  }

  /** A line that is not blank, trimmed on the left: the trimmed line and white space. */
  lemma TrimmedThenWhite(line: string) returns (after: string)
    requires TrimStart(line) != []
    ensures TrimStart(line) == Trim(line) + after && Trim(line) != [] && AllWhite(after)
  {
    var before, behind := PaddingAround(line);
    after := behind;
    var t := Trim(line);
    assert line == before + (t + after);
    TrimStartDropsWhite(before, t + after);
    if t == [] {
      assert t + after == after && after + [] == after;
      TrimStartDropsWhite(after, []);
    } else {
      TrimIsTight(line);
      assert (t + after)[0] == t[0];
    }
  }

  /** The parts of a line starting "| R": what follows the "R", up to the white space
      at the end. */
  lemma RoundLineParts(line: string) returns (x: string, after: string)
    requires StartsRound(line)
    ensures Trim(line) == "| R" + x && TrimStart(line) == Trim(line) + after
    ensures Tight(Trim(line)) && forall j :: 0 <= j < |after| ==> IsWhite(after[j])
  {
    after := TrimmedThenWhite(line);
    var t := Trim(line);
    TrimIsTight(line);
    var s := TrimStart(line);
    assert s[0] == '|' && s[1] == ' ' && s[2] == 'R';
    assert !IsWhite(t[|t| - 1]);
    assert forall j :: |t| <= j < |s| ==> IsWhite(s[j]);
    x := t[3..];
  }

  /** A line starting "| R" whose first cell is a label carries that label's number. */
  lemma LabelGivesNumber(line: string, n: nat)
    requires StartsRound(line) && SplitCells(line)[0] == LabelOf(n) && n <= U64_MAX
    ensures RoundNumber(line) == Some(n)
  {
    var x, after := RoundLineParts(line);
    var t := Trim(line);
    assert t[1..] == " R" + x;
    assert StripLeading(t, '|') == " R" + x;
    LabelCell(x);
    assert (t + after)[3..] == x + after;
    FirstCellOfTail(x, after);
    DecimalIsTight(n);
    TrimOfLabelCell(FirstPart(StripTrailing(x, '|')), Decimal(n));
    ParseDecimal(n);
  }

  lemma {:induction false} StripTrailingBehind(p: string, x: string)
    requires p != [] && p[|p| - 1] != '|'
    ensures StripTrailing(p + x, '|') == p + StripTrailing(x, '|')
  {
    if x == [] {
      assert p + x == p;
    } else {
      assert (p + x)[..|p + x| - 1] == p + x[..|x| - 1];
      if x[|x| - 1] == '|' {
        StripTrailingBehind(p, x[..|x| - 1]);
      }
    }
  }

  lemma LabelCell(x: string)
    ensures FirstPart(StripTrailing(" R" + x, '|')) == " R" + FirstPart(StripTrailing(x, '|'))
  {
    StripTrailingBehind(" R", x);
    var y := StripTrailing(x, '|');
    FirstPartEndsAtPipe(y);
    var f := FirstPart(y);
    assert " R" + y == (" R" + f) + y[|f|..];
    FirstPartIs(" R" + f, y[|f|..]);
  }

  lemma {:induction false} MaxRoundBoundsAll(lines: seq<string>, i: nat)
    requires i < |lines| && RoundNumber(lines[i]).Some?
    ensures RoundNumber(lines[i]).value <= MaxRound(lines)
  {
    if i > 0 {
      MaxRoundBoundsAll(lines[1..], i - 1);
    }
  }

  /** Every round read comes from a line whose first cell is its label. */
  lemma {:induction false} RoundsComeFromRows(st: ParseState, lines: seq<string>, r: Round)
    requires ParseLines(st, lines).Ok? && r in ParseLines(st, lines).value.rounds
    ensures r in st.rounds || exists i :: 0 <= i < |lines| && SplitCells(lines[i])[0] == r.roundLabel
    decreases |lines|
  {
    if lines != [] {
      var next := ParseLine(st, lines[0]).value;
      RoundsComeFromRows(next, lines[1..], r);
      if r !in next.rounds {
        var i :| 0 <= i < |lines[1..]| && SplitCells(lines[1..][i])[0] == r.roundLabel;
        assert SplitCells(lines[i + 1])[0] == r.roundLabel;
      } else if r !in st.rounds {
        assert SplitCells(lines[0])[0] == r.roundLabel;
      }
    }
  }

  /** Rows that carry a round label start "| R", as append and the upgrade print them. */
  predicate RowsStartPlainly(lines: seq<string>) {
    forall i :: 0 <= i < |lines| && IsRoundCell(SplitCells(lines[i])[0]) ==> StartsRound(lines[i])
  }

  /** A line whose number is below `n` does not carry the label of `n`. */
  lemma LabelAbove(line: string, n: nat)
    requires n <= U64_MAX && (RoundNumber(line).Some? ==> RoundNumber(line).value < n)
    requires IsRoundCell(SplitCells(line)[0]) ==> StartsRound(line)
    ensures SplitCells(line)[0] != LabelOf(n)
  {
    if SplitCells(line)[0] == LabelOf(n) {
      ParseDecimal(n);
      assert LabelOf(n)[1..] == Decimal(n);
      LabelGivesNumber(line, n);
    }
  }

  lemma LabelIsNotRead(lines: seq<string>, n: nat, r: Round)
    requires RowsStartPlainly(lines) && MaxRound(lines) < n <= U64_MAX
    requires ParseLines(INITIAL, lines).Ok? && r in ParseLines(INITIAL, lines).value.rounds
    ensures r.roundLabel != LabelOf(n)
  {
    RoundsComeFromRows(INITIAL, lines, r);
    var i :| 0 <= i < |lines| && SplitCells(lines[i])[0] == r.roundLabel;
    if RoundNumber(lines[i]).Some? {
      MaxRoundBoundsAll(lines, i);
    }
    LabelAbove(lines[i], n);
  }

  lemma NextNumberAboveAll(text: string)
    requires LineWith(Lines(Upgrade(text)), PLACEHOLDER).None? && MaxRound(Lines(Upgrade(text))) < U64_MAX
    ensures MaxRound(Lines(Upgrade(text))) < NextNumber(Upgrade(text)) <= U64_MAX
  {
    NumberFollowsRounds(text);
  }

  lemma NoOtherFirst(line: string)
    requires RoundNumber(line) != Some(1) && (IsRoundCell(SplitCells(line)[0]) ==> StartsRound(line))
    ensures SplitCells(line)[0] != LabelOf(1)
  {
    if SplitCells(line)[0] == LabelOf(1) {
      ParseDecimal(1);
      assert LabelOf(1)[1..] == Decimal(1);
      LabelGivesNumber(line, 1);
    }
  }

  predicate NoneNumberedOne(lines: seq<string>) {
    forall i :: 0 <= i < |lines| ==> RoundNumber(lines[i]) != Some(1)
  }

  /** What is read from these lines, from state `st` on, adds no round R1. */
  lemma NoFirstRead(st: ParseState, lines: seq<string>, r: Round)
    requires RowsStartPlainly(lines) && NoneNumberedOne(lines)
    requires ParseLines(st, lines).Ok? && r in ParseLines(st, lines).value.rounds && r !in st.rounds
    ensures r.roundLabel != LabelOf(1)
  {
    RoundsComeFromRows(st, lines, r);
    var i :| 0 <= i < |lines| && SplitCells(lines[i])[0] == r.roundLabel;
    NoOtherFirst(lines[i]);
  }

  lemma ReadAround(a: seq<string>, line: string, b: seq<string>)
    requires ParseLines(INITIAL, a).Ok? && ParseLine(ParseLines(INITIAL, a).value, line) == ParseLines(INITIAL, a)
    ensures ParseLines(INITIAL, a + ([line] + b)) == ParseLines(ParseLines(INITIAL, a).value, b)
  {
    ParseInParts(INITIAL, a, [line] + b);
    assert ([line] + b)[1..] == b;
  }

  /** The lines around the placeholder are read as if it were not there. */
  lemma ReadAroundPlaceholder(a: seq<string>, line: string, b: seq<string>)
    requires Trim(line) == PLACEHOLDER && PlainHeaders(false, a) && ParseLines(INITIAL, a + ([line] + b)).Ok?
    ensures ParseLines(INITIAL, a).Ok?
    ensures ParseLines(INITIAL, a + ([line] + b)) == ParseLines(ParseLines(INITIAL, a).value, b)
  {
    ParseInParts(INITIAL, a, [line] + b);
    HeadersInForceArePlain(INITIAL, a);
    PlaceholderReadsAsNothing(ParseLines(INITIAL, a).value, line);
    ReadAround(a, line, b);
  }

  /** The placeholder stands alone on its line, and no other line is numbered 1. */
  ghost predicate OnlyPlaceholder(lines: seq<string>, k: nat)
    requires k < |lines|
  {
    Trim(lines[k]) == PLACEHOLDER && NoneNumberedOne(lines[..k]) && NoneNumberedOne(lines[k + 1..])
  }

  lemma FirstIsNotReadAround(lines: seq<string>, a: seq<string>, line: string, b: seq<string>, r: Round)
    requires lines == a + ([line] + b) && Trim(line) == PLACEHOLDER && PlainHeaders(false, a)
    requires NoneNumberedOne(a) && NoneNumberedOne(b) && RowsStartPlainly(a) && RowsStartPlainly(b)
    requires ParseLines(INITIAL, lines).Ok? && r in ParseLines(INITIAL, lines).value.rounds
    ensures r.roundLabel != LabelOf(1)
  {
    ReadAroundPlaceholder(a, line, b);
    var before := ParseLines(INITIAL, a).value;
    if r in before.rounds {
      NoFirstRead(INITIAL, a, r);
    } else {
      NoFirstRead(before, b, r);
    }
  }

  lemma PartsStartPlainly(lines: seq<string>, k: nat)
    requires RowsStartPlainly(lines) && k < |lines|
    ensures RowsStartPlainly(lines[..k]) && RowsStartPlainly(lines[k + 1..])
  {
  }

  lemma Around<T>(lines: seq<T>, k: nat)
    requires k < |lines|
    ensures lines == lines[..k] + ([lines[k]] + lines[k + 1..])
  {
  }

  lemma FirstIsNotRead(lines: seq<string>, k: nat, r: Round)
    requires k < |lines| && OnlyPlaceholder(lines, k) && RowsStartPlainly(lines) && PlainHeaders(false, lines)
    requires ParseLines(INITIAL, lines).Ok? && r in ParseLines(INITIAL, lines).value.rounds
    ensures r.roundLabel != LabelOf(1)
  {
    Around(lines, k);
    PartsStartPlainly(lines, k);
    PlainHeadersOfPrefix(false, lines, k);
    FirstIsNotReadAround(lines, lines[..k], lines[k], lines[k + 1..], r);
  }

  lemma FirstNumber(text: string)
    requires LineWith(Lines(Upgrade(text)), PLACEHOLDER).Some?
    ensures NextNumber(Upgrade(text)) == 1
  {
    PlaceholderInUpgraded(text);
  }

  /** The label of the appended round is carried by no round read before: not where the row
      replaces the placeholder, and not where it follows the last round, unless the numbers
      have run out of 64 bits. */
  lemma LabelIsFresh(text: string, lines: seq<string>, r: Round)
    requires lines == Lines(Upgrade(text))
    requires PlainHeaders(false, Lines(text)) && Parse(text).Ok? && r in Parse(text).value
    requires RowsStartPlainly(lines)
    requires var k := LineWith(lines, PLACEHOLDER);
      if k.Some? then OnlyPlaceholder(lines, k.value) else MaxRound(lines) < U64_MAX
    ensures r.roundLabel != LabelOf(NextNumber(Upgrade(text)))
  {
    ParseUpgraded(text);
    if LineWith(lines, PLACEHOLDER).Some? {
      FirstNumber(text);
      UpgradedHeadersArePlain(text);
      FirstIsNotRead(lines, LineWith(lines, PLACEHOLDER).value, r);
    } else {
      NextNumberAboveAll(text);
      LabelIsNotRead(lines, NextNumber(Upgrade(text)), r);
    }
  }
}

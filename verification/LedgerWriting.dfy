/**
What src/audit_ledger.rs writes, told by lines, cells and characters: the upgrade line by
line, the cells of a row, its number and its place.
*/
module LedgerWriting {
  import opened Common
  import opened Text
  import opened TextMeaning
  import opened LedgerTable
  import opened LedgerAppend
  import opened LedgerRoundTrip

  // ---------- the upgrade ----------

  predicate SectionAt(lines: seq<string>, i: int) {
    0 <= i < |lines| && "## " <= TrimStart(lines[i])
  }

  /** The last heading among the first `n` lines, indented or not, is that of the summary. */
  ghost predicate InSection(lines: seq<string>, n: int) {
    exists h :: h < n && SectionAt(lines, h) && SameIgnoringCase(Trim(lines[h]), "## Round Summary")
                && forall j :: h < j < n ==> !SectionAt(lines, j)
  }

  lemma SectionMore(lines: seq<string>, n: nat)
    requires n < |lines|
    ensures InSection(lines, n + 1) <==>
      if SectionAt(lines, n) then SameIgnoringCase(Trim(lines[n]), "## Round Summary") else InSection(lines, n)
  {
    if SectionAt(lines, n) {
      if SameIgnoringCase(Trim(lines[n]), "## Round Summary") {
        assert n < n + 1 && SectionAt(lines, n);
      }
    } else if InSection(lines, n) {
      var h :| h < n && SectionAt(lines, h) && SameIgnoringCase(Trim(lines[h]), "## Round Summary")
               && forall j :: h < j < n ==> !SectionAt(lines, j);
      assert forall j :: h < j < n + 1 ==> !SectionAt(lines, j);
    }
  }

  lemma {:induction false} SectionMeans(lines: seq<string>, n: nat)
    requires n <= |lines|
    ensures InSummaryAt(false, lines, n) <==> InSection(lines, n)
  {
    if n > 0 {
      SectionMeans(lines, n - 1);
      SectionMore(lines, n - 1);
      InSummaryOneMore(false, lines, n - 1);
    }
  }

  /** What becomes of a line of the summary, by its cells. */
  function WidenedLine(line: string): string {
    var cells := SplitRow(line);
    if cells == ["round", "artifact", "auditors", "high", "critical", "minor", "trend", "status"] then
      "| " + Join(["round", "artifact", "auditors", "coverage", "high", "critical", "minor", "trend", "status"], " | ")
        + " |"
    else if cells != [] && forall i :: 0 <= i < |cells| ==> cells[i] == "---" || cells[i] == "---:" then
      "|" + Join(["---", "---", "---", "---", "---:", "---:", "---:", "---", "---"], "|") + "|"
    else if |cells| == 8 && cells[0] != [] && cells[0][0] == 'R' && ParseU64(cells[0][1..]).Some? then
      "| " + Join(cells[..3] + [""] + cells[3..], " | ") + " |"
    else line
  }

  lemma LegacyWithCoverage()
    ensures InsertCell(LEGACY_HEADER, "coverage") ==
      ["round", "artifact", "auditors", "coverage", "high", "critical", "minor", "trend", "status"]
  {
  }

  lemma LineIsWidened(inside: bool, line: string)
    ensures UpgradeLine(inside, line) == if inside then WidenedLine(line) else line
  {
    LegacyWithCoverage();
  }

  lemma {:induction false} UpgradedAt(lines: seq<string>, n: nat, i: nat)
    requires i < n <= |lines|
    ensures UpgradeLines(false, lines[..n])[i] == UpgradeLine(InSummaryAt(false, lines, i + 1), lines[i])
  {
    UpgradeOneMore(false, lines, n - 1);
    if i < n - 1 {
      UpgradedAt(lines, n - 1, i);
    }
  }

  /** The upgrade writes one line for each line, with a line feed behind each: inside the
      summary the widened one, and elsewhere the line as it was. */
  lemma UpgradeMeans(text: string) returns (out: seq<string>)
    ensures Upgrade(text) == Join(out, "\n") + "\n" && |out| == |Lines(text)|
    ensures forall i :: 0 <= i < |out| ==>
      out[i] == if InSection(Lines(text), i + 1) then WidenedLine(Lines(text)[i]) else Lines(text)[i]
  {
    var lines := Lines(text);
    out := UpgradeLines(false, lines);
    assert lines[..|lines|] == lines;
    forall i | 0 <= i < |out|
      ensures out[i] == if InSection(lines, i + 1) then WidenedLine(lines[i]) else lines[i]
    {
      UpgradedAt(lines, |lines|, i);
      SectionMeans(lines, i + 1);
      LineIsWidened(InSection(lines, i + 1), lines[i]);
    }
  }

  // ---------- cleaned cells ----------

  lemma {:induction false} WordsOfWhite(s: string)
    requires forall i :: 0 <= i < |s| ==> IsWhite(s[i])
    ensures Words(s) == []
  {
    if s != [] {
      WordsOfWhite(s[1..]);
    }
  }

  lemma {:induction false} WordsOfOne(s: string)
    requires s != [] && forall i :: 0 <= i < |s| ==> !IsWhite(s[i])
    ensures Words(s) == [s]
  {
    if |s| > 1 {
      WordsOfOne(s[1..]);
      assert [s[0]] + s[1..] == s;
    } else {
      assert s == [s[0]] && s[1..] == [];
    }
  }

  /** White space parts words. */
  lemma {:induction false} WordsPart(a: string, w: char, b: string)
    requires IsWhite(w)
    ensures Words(a + [w] + b) == Words(a) + Words(b)
  {
    var s := a + [w] + b;
    if a == [] {
      assert s[1..] == b;
    } else {
      assert s[1..] == a[1..] + [w] + b;
      WordsPart(a[1..], w, b);
      if !IsWhite(a[0]) {
        WordsPartBehind(a, w, b);
      }
    }
  }

  lemma LongerWord(s: string)
    requires |s| > 1 && !IsWhite(s[0]) && !IsWhite(s[1])
    ensures var rest := Words(s[1..]);
      rest != [] && Words(s) == [[s[0]] + rest[0]] + rest[1..]
  {
    FirstWord(s[1..]);
  }

  lemma WordsPartBehind(a: string, w: char, b: string)
    requires IsWhite(w) && a != [] && !IsWhite(a[0])
    requires Words((a + [w] + b)[1..]) == Words(a[1..]) + Words(b)
    ensures Words(a + [w] + b) == Words(a) + Words(b)
  {
    var s := a + [w] + b;
    if |a| == 1 {
      assert s[1] == w && a[1..] == [];
    } else if IsWhite(a[1]) {
      assert s[1] == a[1];
    } else {
      assert s[1] == a[1];
      LongerWord(a);
      LongerWord(s);
    }
  }

  lemma FirstWord(s: string)
    requires s != [] && !IsWhite(s[0])
    ensures Words(s) != []
  {
  }

  lemma {:induction false} JoinInParts(a: seq<string>, b: seq<string>, sep: string)
    requires a != [] && b != []
    ensures Join(a + b, sep) == Join(a, sep) + sep + Join(b, sep)
  {
    if |a| == 1 {
      JoinFirst(a[0], b, sep);
      assert [a[0]] + b == a + b;
    } else {
      JoinInParts(a[1..], b, sep);
      assert (a + b)[1..] == a[1..] + b && (a + b)[0] == a[0];
    }
  }

  lemma NoWordsNoText(s: string)
    ensures Join(Words(s), " ") == [] <==> Words(s) == []
  {
    WordsAreSolid(s);
    if Words(s) != [] {
      assert Words(s)[0] != [];
    }
  }

  lemma {:induction false} JoinedWordsPart(a: seq<string>, b: seq<string>)
    ensures Join(a + b, " ") == if a == [] then Join(b, " ") else if b == [] then Join(a, " ")
                                else Join(a, " ") + " " + Join(b, " ")
  {
    if a == [] {
      assert a + b == b;
    } else if b == [] {
      assert a + b == a;
    } else {
      JoinInParts(a, b, " ");
    }
  }

  lemma SlashesPart(a: string, w: char, b: string)
    requires IsWhite(w)
    ensures SlashPipes(a + [w] + b) == SlashPipes(a) + [w] + SlashPipes(b)
  {
  }

  /** How values are cleaned: white space alone leaves nothing; a word stays, with a slash for
      every pipe; and words parted by white space are parted by one blank. */
  lemma CleanMeans(value: string)
    ensures (forall i :: 0 <= i < |value| ==> IsWhite(value[i])) ==> Clean(value) == []
    ensures (forall i :: 0 <= i < |value| ==> !IsWhite(value[i])) ==>
      |Clean(value)| == |value|
      && forall i :: 0 <= i < |value| ==> Clean(value)[i] == if value[i] == '|' then '/' else value[i]
    ensures forall a, w, b :: value == a + [w] + b && IsWhite(w) ==>
      Clean(value) == Clean(a) + (if Clean(a) == [] || Clean(b) == [] then "" else " ") + Clean(b)
  {
    var s := SlashPipes(value);
    if forall i :: 0 <= i < |value| ==> IsWhite(value[i]) {
      WordsOfWhite(s);
    }
    if value != [] && forall i :: 0 <= i < |value| ==> !IsWhite(value[i]) {
      WordsOfOne(s);
    }
    forall a: string, w: char, b: string | value == a + [w] + b && IsWhite(w)
      ensures Clean(value) == Clean(a) + (if Clean(a) == [] || Clean(b) == [] then "" else " ") + Clean(b)
    {
      SlashesPart(a, w, b);
      WordsPart(SlashPipes(a), w, SlashPipes(b));
      JoinedWordsPart(Words(SlashPipes(a)), Words(SlashPipes(b)));
      NoWordsNoText(SlashPipes(a));
      NoWordsNoText(SlashPipes(b));
    }
  }

  // ---------- the row ----------

  /** The row of a round: its label, the three cleaned texts, the three counts, "start" for
      the first round, and "open". */
  lemma RowMeans(number: nat, input: AppendInput)
    ensures RowCells(number, input) == [
      "R" + Decimal(number), Clean(input.artifact), Clean(Join(input.auditors, " ")), Clean(input.coverage),
      Decimal(input.high), Decimal(input.critical), Decimal(input.minor), if number == 1 then "start" else "flat",
      "open"]
    ensures Row(number, input) == "| " + Join(RowCells(number, input), " | ") + " |"
  {
  }

  // ---------- labels ----------

  /** A text that starts a round: "| R" and, up to the next pipe, a number. */
  ghost predicate NumberIn(t: string, n: nat) {
    exists cell, rest :: CellIn(t, cell, rest, n)
  }

  predicate CellIn(t: string, cell: string, rest: string, n: nat) {
    && t == "| R" + cell + rest && '|' !in cell && (rest == [] || rest[0] == '|')
    && ParseU64(Trim(cell)) == Some(n)
  }

  lemma InFront(c: char, a: string, b: string)
    ensures [c] + (a + b) == ([c] + a) + b
  {
  }

  lemma {:induction false} FirstPart(s: string, sep: char) returns (rest: string)
    ensures s == Split(s, sep)[0] + rest && (rest == [] || rest[0] == sep)
  {
    rest := s;
    if s != [] && s[0] != sep {
      rest := FirstPart(s[1..], sep);
      InFront(s[0], Split(s[1..], sep)[0], rest);
      assert s == [s[0]] + s[1..];
    }
  }

  lemma PartUpTo(cell: string, rest: string)
    requires '|' !in cell && (rest == [] || rest[0] == '|')
    ensures Split(cell + rest, '|')[0] == cell
  {
    if rest == [] {
      assert cell + rest == cell;
      SplitPlain(cell, '|');
    } else {
      assert cell + rest == cell + ['|'] + rest[1..];
      SplitAtSep(cell, '|', rest[1..]);
    }
  }

  lemma Behind(p: string, cell: string, rest: string)
    ensures p <= p + cell + rest && (p + cell + rest)[|p|..] == cell + rest
  {
  }

  lemma CellAfter(t: string) returns (cell: string, rest: string)
    requires "| R" <= t
    ensures t == "| R" + cell + rest && '|' !in cell && (rest == [] || rest[0] == '|')
    ensures Split(t[3..], '|')[0] == cell
  {
    rest := FirstPart(t[3..], '|');
    cell := Split(t[3..], '|')[0];
    SplitHasNoSep(t[3..], '|');
    assert t == "| R" + t[3..];
  }

  lemma NumberMeans(line: string, n: nat)
    ensures RoundNumber(line) == Some(n) <==> NumberIn(TrimStart(line), n)
  {
    var t := TrimStart(line);
    if RoundNumber(line) == Some(n) {
      var cell, rest := CellAfter(t);
      assert CellIn(t, cell, rest, n);
    }
    if NumberIn(t, n) {
      var cell, rest :| CellIn(t, cell, rest, n);
      Behind("| R", cell, rest);
      PartUpTo(cell, rest);
    }
  }

  ghost predicate NumberAt(lines: seq<string>, i: int, n: nat) {
    0 <= i < |lines| && NumberIn(TrimStart(lines[i]), n)
  }

  lemma {:induction false} MaxRoundMeans(lines: seq<string>)
    ensures forall i: nat, n: nat :: NumberAt(lines, i, n) ==> n <= MaxRound(lines)
    ensures MaxRound(lines) > 0 ==> exists i: nat :: NumberAt(lines, i, MaxRound(lines))
  {
    if lines != [] {
      MaxRoundMeans(lines[1..]);
      forall i: nat, n: nat | NumberAt(lines, i, n)
        ensures n <= MaxRound(lines)
      {
        NumberMeans(lines[i], n);
        if i > 0 {
          assert NumberAt(lines[1..], i - 1, n);
        }
      }
      var max := MaxRound(lines);
      if max > MaxRound(lines[1..]) {
        NumberMeans(lines[0], max);
        assert NumberAt(lines, 0, max);
      } else if max > 0 {
        var i: nat :| NumberAt(lines[1..], i, max);
        assert NumberAt(lines, i + 1, max);
      }
    }
  }

  /** The next number: one more than the largest in the text, back to 0 behind the largest
      64-bit number, and 1 where there is none above 0 or the placeholder is still there. */
  lemma NextMeans(content: string)
    ensures var lines := Lines(content);
      if Contains(content, PLACEHOLDER) || !exists i: nat, n: nat :: NumberAt(lines, i, n) && n > 0 then
        NextNumber(content) == 1
      else
        exists i: nat, n: nat ::
          && NumberAt(lines, i, n) && (forall j: nat, m: nat :: NumberAt(lines, j, m) ==> m <= n)
          && NextNumber(content) == if n == 18446744073709551615 then 0 else n + 1
  {
    MaxRoundMeans(Lines(content));
  }

  // ---------- where the row goes ----------

  predicate StartsRoundAt(lines: seq<string>, i: int) {
    0 <= i < |lines| && "| R" <= TrimStart(lines[i])
  }

  lemma {:induction false} IndexMeans(lines: seq<string>, n: nat)
    requires n <= |lines|
    ensures var p := InsertIndexUpTo(lines, n);
      || (0 < p <= n && StartsRoundAt(lines, p - 1) && forall i :: p <= i < n ==> !StartsRoundAt(lines, i))
      || (p == |lines| && forall i :: 0 <= i < n ==> !StartsRoundAt(lines, i))
  {
    if n > 0 && !StartsRoundAt(lines, n - 1) {
      IndexMeans(lines, n - 1);
    }
  }

  /** The row is inserted behind the last line that starts a round, or else at the end. */
  lemma InsertMeans(content: string, row: string) returns (p: nat)
    ensures var lines := Lines(content);
      && p <= |lines| && InsertRow(content, row) == Join(lines[..p] + [row] + lines[p..], "\n") + "\n"
      && (StartsRoundAt(lines, p - 1) || p == |lines|)
      && forall i :: (p <= i || !StartsRoundAt(lines, p - 1)) ==> !StartsRoundAt(lines, i)
  {
    var lines := Lines(content);
    p := InsertIndex(lines);
    IndexMeans(lines, |lines|);
  }

  lemma NotBefore(s: string, p: string, k: nat)
    requires k < |s| && !(p <= s) && forall n :: 0 <= n < k ==> !(p <= s[1..][n..])
    ensures forall n :: 0 <= n < k + 1 ==> !(p <= s[n..])
  {
    assert s[0..] == s;
    forall n | 1 <= n < k + 1
      ensures s[n..] == s[1..][n - 1..]
    {
    }
  }

  /** Replacing takes the first occurrence. */
  lemma {:induction false} ReplaceMeans(s: string, p: string, r: string) returns (x: string, y: string)
    requires Contains(s, p)
    ensures s == x + p + y && ReplaceFirst(s, p, r) == x + r + y
    ensures forall n :: 0 <= n < |x| ==> !(p <= s[n..])
  {
    if p <= s {
      x, y := [], s[|p|..];
    } else {
      x, y := ReplaceMeans(s[1..], p, r);
      NotBefore(s, p, |x|);
      InFront(s[0], x + p, y);
      InFront(s[0], x, p);
      InFront(s[0], x + r, y);
      InFront(s[0], x, r);
      assert s == [s[0]] + s[1..];
      x := [s[0]] + x;
    }
  }

  /** Where an append puts the row: in place of the placeholder if the round is the first and
      the upgraded text has one, and else behind the last line that starts a round. */
  lemma AppendMeans(text: string, input: AppendInput) returns (x: string, y: string)
    ensures var content := Upgrade(text);
      var row := Row(NextNumber(content), input);
      if Contains(content, PLACEHOLDER) then
        content == x + PLACEHOLDER + y && AppendText(text, input) == x + row + y
        && forall n :: 0 <= n < |x| ==> !(PLACEHOLDER <= content[n..])
      else AppendText(text, input) == InsertRow(content, row)
  {
    var content := Upgrade(text);
    x, y := [], [];
    if Contains(content, PLACEHOLDER) {
      x, y := ReplaceMeans(content, PLACEHOLDER, Row(NextNumber(content), input));
    }
  }
}

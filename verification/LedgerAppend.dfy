/**
Appending a round to the audit ledger (src/audit_ledger.rs) and reading it back.
*/
module LedgerAppend {
  import opened Common
  import opened Text
  import opened LedgerAnalysis
  import opened LedgerTable
  import opened LedgerUpgrade

  datatype AppendInput = AppendInput(
    artifact: string, auditors: seq<string>, coverage: string, high: nat, critical: nat, minor: nat)

  const PLACEHOLDER_CELLS: seq<string> := ["R1", "", "", "", "", "", "", "start", "open"]

  /** The round row of the empty template. */
  const PLACEHOLDER := "| R1 |  |  |  |  |  |  | start | open |"

  lemma PlaceholderText()
    ensures PLACEHOLDER == PrintRow(PLACEHOLDER_CELLS)
  {
    var c := PLACEHOLDER_CELLS;
    assert c[8..] == ["open"];
    JoinStep(c, 7);
    JoinStep(c, 6);
    JoinStep(c, 5);
    JoinStep(c, 4);
    JoinStep(c, 3);
    JoinStep(c, 2);
    JoinStep(c, 1);
    JoinStep(c, 0);
    assert c[0..] == c;
  }

  lemma JoinStep(parts: seq<string>, i: nat)
    requires i + 1 < |parts|
    ensures Join(parts[i..], " | ") == parts[i] + " | " + Join(parts[i + 1..], " | ")
  {
    assert parts[i..][1..] == parts[i + 1..];
  }

  // ---------- cells ----------

  /** `split_whitespace`: the maximal runs of characters that are no white space. */
  function Words(s: string): seq<string> {
    if s == [] then []
    else if IsWhite(s[0]) then Words(s[1..])
    else
      var rest := Words(s[1..]);
      if |s| > 1 && !IsWhite(s[1]) && rest != [] then [[s[0]] + rest[0]] + rest[1..]
      else [[s[0]]] + rest
  }

  function SlashPipes(s: string): (r: string)
    ensures |r| == |s| && forall i :: 0 <= i < |r| ==> r[i] == if s[i] == '|' then '/' else s[i]
  {
    seq(|s|, i requires 0 <= i < |s| => if s[i] == '|' then '/' else s[i])
  }

  function Clean(value: string): string {
    Join(Words(SlashPipes(value)), " ")
  }

  lemma {:induction false} WordsAreSolid(s: string)
    ensures forall i :: 0 <= i < |Words(s)| ==>
      Words(s)[i] != [] && forall c :: c in Words(s)[i] ==> c in s && !IsWhite(c)
  {
    if s != [] {
      WordsAreSolid(s[1..]);
    }
  }

  lemma {:induction false} JoinedWordsAreTight(words: seq<string>)
    requires forall i :: 0 <= i < |words| ==> words[i] != [] && forall c :: c in words[i] ==> !IsWhite(c) && c != '|'
    ensures CleanCell(Join(words, " ")) && (words != [] ==> Join(words, " ") != [])
    ensures '\n' !in Join(words, " ") && '\r' !in Join(words, " ")
  {
    if |words| == 1 {
      assert words[0][0] in words[0] && words[0][|words[0]| - 1] in words[0];
      assert forall c :: c in words[0] ==> !IsWhite(c);
    } else if |words| > 1 {
      JoinedWordsAreTight(words[1..]);
      assert words[0][0] in words[0];
    }
  }

  lemma CleanIsClean(value: string)
    ensures CleanCell(Clean(value)) && '\n' !in Clean(value) && '\r' !in Clean(value)
  {
    var s := SlashPipes(value);
    WordsAreSolid(s);
    assert '|' !in s;
    JoinedWordsAreTight(Words(s));
  }

  // ---------- labels ----------

  /** The number of a line of the form "| R<number> |". */
  function RoundNumber(line: string): Option<nat> {
    var t := TrimStart(line);
    if "| R" <= t then ParseU64(Trim(Split(t[3..], '|')[0])) else None
  }

  function MaxRound(lines: seq<string>): nat {
    if lines == [] then 0
    else
      var rest := MaxRound(lines[1..]);
      var number := RoundNumber(lines[0]);
      if number.Some? && number.value > rest then number.value else rest
  }

  function ReplaceFirst(s: string, p: string, r: string): string {
    if p <= s then r + s[|p|..]
    else if s == [] then s
    else [s[0]] + ReplaceFirst(s[1..], p, r)
  }

  /** One more in 64 bits, wrapping around. */
  function Successor(n: nat): nat {
    if n == U64_MAX then 0 else n + 1
  }

  /** The number the next round gets. */
  function NextNumber(content: string): nat {
    var max := MaxRound(Lines(content));
    if Contains(content, PLACEHOLDER) || max == 0 then 1 else Successor(max)
  }

  function LabelOf(number: nat): string {
    "R" + Decimal(number)
  }

  // ---------- the row ----------

  function RowCells(number: nat, input: AppendInput): seq<string> {
    [LabelOf(number), Clean(input.artifact), Clean(Join(input.auditors, " ")), Clean(input.coverage),
     Decimal(input.high), Decimal(input.critical), Decimal(input.minor),
     if number == 1 then "start" else "flat", "open"]
  }

  function Row(number: nat, input: AppendInput): string {
    PrintRow(RowCells(number, input))
  }

  function NoneIfEmpty(s: string): Option<string> {
    if s == [] then None else Some(s)
  }

  /** The round a reader should find in the row. */
  function NewRound(number: nat, input: AppendInput): Round {
    Round(LabelOf(number), input.high, input.critical,
          NoneIfEmpty(Clean(Join(input.auditors, " "))), NoneIfEmpty(Clean(input.coverage)))
  }

  /** No cell of the row reads "round", which would make the parser take it for a header. */
  predicate NoCellSaysRound(input: AppendInput) {
    && !SameIgnoringCase(Clean(input.artifact), "round")
    && !SameIgnoringCase(Clean(Join(input.auditors, " ")), "round")
    && !SameIgnoringCase(Clean(input.coverage), "round")
  }

  /** The counts are the u64 values the command takes. */
  predicate InRange(input: AppendInput) {
    input.high <= U64_MAX && input.critical <= U64_MAX && input.minor <= U64_MAX
  }

  lemma RowCellsAreClean(number: nat, input: AppendInput)
    ensures CleanCells(RowCells(number, input)) && |RowCells(number, input)| == 9
    ensures forall i :: 0 <= i < 9 ==> '\n' !in RowCells(number, input)[i]
  {
    CleanIsClean(input.artifact);
    CleanIsClean(Join(input.auditors, " "));
    CleanIsClean(input.coverage);
    DecimalIsTight(number);
    DecimalIsTight(input.high);
    DecimalIsTight(input.critical);
    DecimalIsTight(input.minor);
    assert Tight(LabelOf(number)) && '|' !in LabelOf(number) && '\n' !in LabelOf(number);
  }

  lemma RowSplits(number: nat, input: AppendInput)
    ensures SplitCells(Row(number, input)) == RowCells(number, input) == SplitRow(Row(number, input))
    ensures Tight(Row(number, input)) && "|" <= Row(number, input) && '\n' !in Row(number, input)
    ensures Row(number, input)[|Row(number, input)| - 1] == '|'
  {
    RowCellsAreClean(number, input);
    PrintedRowSplits(RowCells(number, input));
    PrintRowHasNo(RowCells(number, input), '\n');
  }

  lemma NumbersDoNotSayRound(n: nat)
    ensures !SameIgnoringCase(Decimal(n), "round") && !SameIgnoringCase(LabelOf(n), "round")
  {
    assert IsDigit(Decimal(n)[0]);
    Differ(Decimal(n), "round", 0);
    assert LabelOf(n)[1] == Decimal(n)[0];
    Differ(LabelOf(n), "round", 1);
  }

  lemma HeaderRowIffRound(number: nat, input: AppendInput)
    ensures IsHeaderRow(RowCells(number, input)) <==> !NoCellSaysRound(input)
  {
    var cells := RowCells(number, input);
    NumbersDoNotSayRound(number);
    NumbersDoNotSayRound(input.high);
    NumbersDoNotSayRound(input.critical);
    NumbersDoNotSayRound(input.minor);
    Differ("start", "round", 0);
    Differ("flat", "round", 0);
    Differ("open", "round", 0);
    if !SameIgnoringCase(cells[1], "round") && !SameIgnoringCase(cells[2], "round")
       && !SameIgnoringCase(cells[3], "round") {
      assert forall i :: 0 <= i < 9 ==> !SameIgnoringCase(cells[i], "round");
    }
  }

  lemma RowIsRead(number: nat, input: AppendInput)
    requires InRange(input)
    ensures ReadRow(ForWidth(9), RowCells(number, input)) == Found(NewRound(number, input))
    ensures !IsSeparatorRow(RowCells(number, input))
  {
    var cells := RowCells(number, input);
    DecimalCounts(input.high);
    DecimalCounts(input.critical);
    assert 'R' in cells[0];
  }

  /** The printed row is read back as the round it was printed for exactly when none of
      its cells says "round"; otherwise it is lost. */
  lemma RowReadsBack(st: ParseState, number: nat, input: AppendInput)
    requires st.inSummary && PlainHeader(st.header) && InRange(input)
    ensures ParseCells(st, RowCells(number, input)) == Ok(st.(rounds := st.rounds + [NewRound(number, input)]))
      <==> NoCellSaysRound(input)
    ensures !NoCellSaysRound(input) ==>
      ParseCells(st, RowCells(number, input)).Ok? && ParseCells(st, RowCells(number, input)).value.rounds == st.rounds
  {
    RowIsRead(number, input);
    HeaderRowIffRound(number, input);
    assert Effective(st.header, 9) == ForWidth(9);
    assert |st.rounds + [NewRound(number, input)]| == |st.rounds| + 1;
  }
}

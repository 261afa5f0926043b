/**
Any number of appends to a ledger: the labels count up and the rounds read are the inputs.

A ledger that is ready for an append stays ready, so appends chain.
*/
module LedgerRuns {
  import opened Common
  import opened Text
  import opened LedgerAnalysis
  import opened LedgerTable
  import opened LedgerUpgrade
  import opened LedgerAppend
  import opened LedgerRoundTrip
  import opened LedgerGrowth

  // ---------- one append after another ----------

  /** The text is a ledger that its next upgrade makes ready for round n + 1. */
  predicate ReadyText(text: string, n: nat) {
    PlainHeaders(false, Lines(text)) && ReadyLines(Upgraded(text), n)
  }

  lemma UpgradedIsRead(text: string, n: nat)
    requires ReadyText(text, n)
    ensures Lines(Upgrade(text)) == Upgraded(text)
  {
    UpgradedText(text);
    StripAllChangesOnlyCr(Upgraded(text));
  }

  lemma ReadyIsAppendable(text: string, n: nat)
    requires ReadyText(text, n)
    ensures Appendable(text)
  {
    UpgradedIsRead(text, n);
  }

  /** Ready lines, written out, are a ready text and come back unchanged. */
  lemma WrittenIsReady(lines: seq<string>, n: nat)
    requires ReadyLines(lines, n)
    ensures Lines(Unlines(lines)) == lines && Upgraded(Unlines(lines)) == lines && ReadyText(Unlines(lines), n)
  {
    LinesOfUnlines(lines);
    StripAllChangesOnlyCr(lines);
  }

  lemma NumberOf(content: string, n: nat)
    requires if Contains(content, PLACEHOLDER) then n == 0 else MaxRound(Lines(content)) == n
    requires n + 1 <= U64_MAX
    ensures NextNumber(content) == n + 1
  {
  }

  lemma NumberWhenReady(text: string, n: nat)
    requires ReadyText(text, n) && n + 1 <= U64_MAX
    ensures NextNumber(Upgrade(text)) == n + 1
  {
    UpgradedIsRead(text, n);
    PlaceholderInUpgraded(text);
    NumberOf(Upgrade(text), n);
  }

  /** One append to a ready text: the new text, and that it is ready again. */
  lemma AppendKeepsReady(text: string, n: nat, input: AppendInput)
    requires ReadyText(text, n) && n + 1 <= U64_MAX && InRange(input) && NoCellSaysRound(input)
    ensures ReadyText(AppendText(text, input), n + 1)
  {
    var lines := Upgraded(text);
    var line := WrittenRow(text, n, input);
    NextIsReady(lines, n, line, input);
    WrittenIsReady(NextLines(lines, line), n + 1);
  }

  lemma WrittenRow(text: string, n: nat, input: AppendInput) returns (line: string)
    requires ReadyText(text, n) && n + 1 <= U64_MAX
    ensures Cut(Upgraded(text)) <= |Upgraded(text)|
    ensures AppendText(text, input) == Unlines(NextLines(Upgraded(text), line))
    ensures Trim(line) == Row(n + 1, input) && '\n' !in line && !EndsWithCr(line)
  {
    UpgradedIsRead(text, n);
    NumberWhenReady(text, n);
    var lines := Upgraded(text);
    if LineWith(lines, PLACEHOLDER).Some? {
      line := WrittenOverPlaceholder(text, lines, n, input);
    } else {
      line := Row(n + 1, input);
      RowIsTidy(n + 1, input);
      WrittenBehindRounds(text, lines, n, input);
    }
  }

  lemma RowIsTidy(number: nat, input: AppendInput)
    ensures var row := Row(number, input); Trim(row) == row && '\n' !in row && !EndsWithCr(row)
  {
    RowSplits(number, input);
    TightStays(Row(number, input));
  }

  lemma WrittenBehindRounds(text: string, lines: seq<string>, n: nat, input: AppendInput)
    requires NextNumber(Upgrade(text)) == n + 1 && LineWith(lines, PLACEHOLDER).None?
    requires Lines(Upgrade(text)) == lines
    ensures AppendText(text, input) == Unlines(NextLines(lines, Row(n + 1, input)))
  {
    RowFollowsRounds(text, n + 1, input);
    var p := InsertIndex(lines);
    Reassociate(lines[..p], Row(n + 1, input), lines[p..]);
  }

  lemma UpdateIsSplice(lines: seq<string>, k: nat, line: string)
    requires k < |lines|
    ensures lines[k := line] == lines[..k] + ([line] + lines[k + 1..])
  {
  }

  lemma WrittenOverPlaceholder(text: string, lines: seq<string>, n: nat, input: AppendInput) returns (line: string)
    requires lines == Upgraded(text) == Lines(Upgrade(text)) && ReadyLines(lines, n)
    requires NextNumber(Upgrade(text)) == n + 1 && LineWith(lines, PLACEHOLDER).Some?
    ensures AppendText(text, input) == Unlines(NextLines(lines, line))
    ensures Trim(line) == Row(n + 1, input) && '\n' !in line && !EndsWithCr(line)
  {
    var k, replaced := RowReplacesPlaceholder(text, input);
    line := replaced;
    UpdateIsSplice(lines, k, line);
    assert lines[k := line][k] == line;
  }

  function AppendMany(text: string, inputs: seq<AppendInput>): string
    decreases |inputs|
  {
    if inputs == [] then text else AppendMany(AppendText(text, inputs[0]), inputs[1..])
  }

  /** The rounds the inputs amount to, numbered from n + 1 on. */
  function RoundsFor(n: nat, inputs: seq<AppendInput>): seq<Round>
    decreases |inputs|
  {
    if inputs == [] then [] else [NewRound(n + 1, inputs[0])] + RoundsFor(n + 1, inputs[1..])
  }

  lemma {:induction false} RoundsForInOrder(n: nat, inputs: seq<AppendInput>)
    ensures |RoundsFor(n, inputs)| == |inputs|
    ensures forall i :: 0 <= i < |inputs| ==> RoundsFor(n, inputs)[i] == NewRound(n + 1 + i, inputs[i])
    decreases |inputs|
  {
    if inputs != [] {
      RoundsForInOrder(n + 1, inputs[1..]);
    }
  }

  ghost predicate GoodInput(input: AppendInput) {
    InRange(input) && NoCellSaysRound(input)
  }

  ghost predicate GoodInputs(inputs: seq<AppendInput>)
    decreases |inputs|
  {
    inputs == [] || (GoodInput(inputs[0]) && GoodInputs(inputs[1..]))
  }

  lemma OneMoreRound(text: string, n: nat, input: AppendInput)
    requires ReadyText(text, n) && n + 1 <= U64_MAX && GoodInput(input)
    ensures Parse(text).Ok? && ReadyText(AppendText(text, input), n + 1)
    ensures Parse(AppendText(text, input)) == Ok(Parse(text).value + [NewRound(n + 1, input)])
  {
    ReadyIsAppendable(text, n);
    NumberWhenReady(text, n);
    AppendRoundTrip(text, input);
    AppendKeepsReady(text, n, input);
  }

  lemma OneThenTheRest<T>(earlier: seq<T>, first: T, rest: seq<T>)
    ensures (earlier + [first]) + rest == earlier + ([first] + rest)
  {
  }

  ghost predicate ReadsBack(text: string, n: nat, inputs: seq<AppendInput>) {
    && Parse(text).Ok?
    && Parse(AppendMany(text, inputs)) == Ok(Parse(text).value + RoundsFor(n, inputs))
  }

  lemma NothingAppended(text: string, n: nat)
    requires ReadyText(text, n)
    ensures ReadsBack(text, n, [])
  {
    ReadyIsAppendable(text, n);
    OldRoundsAreRead(text);
    assert Parse(text).value + [] == Parse(text).value;
  }

  lemma ReadsBackAfterOne(text: string, next: string, n: nat, inputs: seq<AppendInput>)
    requires inputs != [] && next == AppendText(text, inputs[0]) && ReadsBack(next, n + 1, inputs[1..])
    requires Parse(text).Ok? && Parse(next) == Ok(Parse(text).value + [NewRound(n + 1, inputs[0])])
    ensures ReadsBack(text, n, inputs)
  {
    OneThenTheRest(Parse(text).value, NewRound(n + 1, inputs[0]), RoundsFor(n + 1, inputs[1..]));
  }

  lemma FirstAppended(text: string, n: nat, inputs: seq<AppendInput>) returns (next: string)
    requires ReadyText(text, n) && n + |inputs| <= U64_MAX && inputs != [] && GoodInputs(inputs)
    ensures next == AppendText(text, inputs[0]) && ReadyText(next, n + 1) && GoodInputs(inputs[1..])
    ensures ReadsBack(next, n + 1, inputs[1..]) ==> ReadsBack(text, n, inputs)
  {
    next := AppendText(text, inputs[0]);
    OneMoreRound(text, n, inputs[0]);
    if ReadsBack(next, n + 1, inputs[1..]) {
      ReadsBackAfterOne(text, next, n, inputs);
    }
  }

  /** Any number of appends: the earlier rounds, then the inputs in order, labelled from
      R(n + 1) on. From an empty ledger these are R1, R2, ... */
  lemma {:induction false} ManyAppendsRoundTrip(text: string, n: nat, inputs: seq<AppendInput>)
    requires ReadyText(text, n) && n + |inputs| <= U64_MAX
    requires GoodInputs(inputs)
    ensures ReadsBack(text, n, inputs)
    decreases |inputs|
  {
    if inputs == [] {
      NothingAppended(text, n);
    } else {
      var next := FirstAppended(text, n, inputs);
      ManyAppendsRoundTrip(next, n + 1, inputs[1..]);
    }
  }

  lemma OldRoundsAreRead(text: string)
    requires Appendable(text)
    ensures Parse(text).Ok?
  {
    var none := AppendInput("", [], "", 0, 0, 0);
    assert NoCellSaysRound(none) by {
      Differ("", "round", 0);
      assert Clean("") == "" && Join([], " ") == "";
    }
    AppendRoundTrip(text, none);
  }
}

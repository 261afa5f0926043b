/**
What parse_ledger of src/ledger.rs finds in a text, told by lines, cells and characters.
*/
module LedgerReading {
  import opened Common
  import opened Selections
  import opened Text
  import opened TextMeaning
  import opened LedgerAnalysis
  import opened LedgerTable

  // ---------- cells ----------

  lemma StripLeadingMeans(s: string, c: char) returns (i: nat)
    ensures i <= |s| && StripLeading(s, c) == s[i..]
    ensures (forall k :: 0 <= k < i ==> s[k] == c) && (i < |s| ==> s[i] != c)
    decreases |s|
  {
    i := 0;
    if s != [] && s[0] == c {
      var n := StripLeadingMeans(s[1..], c);
      i := n + 1;
    }
  }

  lemma StripTrailingMeans(s: string, c: char) returns (j: nat)
    ensures j <= |s| && StripTrailing(s, c) == s[..j]
    ensures (forall k :: j <= k < |s| ==> s[k] == c) && (j > 0 ==> s[j - 1] != c)
    decreases |s|
  {
    j := |s|;
    if s != [] && s[|s| - 1] == c {
      j := StripTrailingMeans(s[..|s| - 1], c);
    }
  }

  /** The cells of a line: its text between the outer pipes, parted by pipes and trimmed. */
  lemma CellsMean(line: string) returns (i: nat, j: nat, parts: seq<string>)
    ensures var t := Trim(line);
      && i <= j <= |t|
      && (forall k :: 0 <= k < i || j <= k < |t| ==> t[k] == '|')
      && (i < j ==> t[i] != '|' && t[j - 1] != '|')
      && Join(parts, "|") == t[i..j]
    ensures |parts| == |SplitCells(line)| && parts != []
    ensures forall k :: 0 <= k < |parts| ==> '|' !in parts[k] && SplitCells(line)[k] == Trim(parts[k])
    ensures SplitRow(line) == if TrimStart(line) != [] && TrimStart(line)[0] == '|' then SplitCells(line) else []
  {
    var t := Trim(line);
    i := StripLeadingMeans(t, '|');
    var n := StripTrailingMeans(t[i..], '|');
    j := i + n;
    assert t[i..][..n] == t[i..j];
    assert forall k :: j <= k < |t| ==> t[k] == t[i..][k - i];
    parts := Split(t[i..j], '|');
    SplitMeans(t[i..j], '|');
  }

  // ---------- counts ----------

  /** A part counts as its number, or nothing where it is blank. */
  function PartCount(part: string): Option<nat> {
    if Trim(part) == [] then Some(0) else ParseU64(Trim(part))
  }

  predicate HasNoNumber(parts: seq<string>) {
    exists i :: 0 <= i < |parts| && PartCount(parts[i]) == None
  }

  function SumOf(parts: seq<string>): nat {
    if parts == [] then 0
    else
      var count := PartCount(parts[0]);
      (if count.Some? then count.value else 0) + SumOf(parts[1..])
  }

  function Capped(n: nat): nat {
    if n <= 18446744073709551615 then n else 18446744073709551615
  }

  lemma OnePart(parts: seq<string>, total: nat)
    requires parts != [] && total == Capped(total)
    ensures SumParts(parts, total) ==
      match PartCount(parts[0])
      case None => None
      case Some(count) => SumParts(parts[1..], Capped(total + count))
  {
  }

  lemma NoNumberInFront(parts: seq<string>)
    requires parts != []
    ensures HasNoNumber(parts) <==> PartCount(parts[0]) == None || HasNoNumber(parts[1..])
  {
    assert forall i :: 0 < i < |parts| ==> parts[i] == parts[1..][i - 1];
    assert forall i :: 0 <= i < |parts| - 1 ==> parts[1..][i] == parts[i + 1];
  }

  lemma {:induction false} SumPartsMean(parts: seq<string>, total: nat)
    requires total == Capped(total)
    ensures SumParts(parts, total) == if HasNoNumber(parts) then None else Some(Capped(total + SumOf(parts)))
    decreases |parts|
  {
    if parts != [] {
      OnePart(parts, total);
      NoNumberInFront(parts);
      var count := PartCount(parts[0]);
      if count.Some? {
        SumPartsMean(parts[1..], Capped(total + count.value));
      }
    }
  }

  /** A count is a sum written with plus signs. It is no count if a part that is not blank is
      no 64-bit number, and its value stays at the largest such number. */
  lemma CountMeans(raw: string)
    ensures var parts := Split(raw, '+');
      CountIn(raw) == if HasNoNumber(parts) then None else Some(Capped(SumOf(parts)))
  {
    SumPartsMean(Split(raw, '+'), 0);
  }

  lemma SplitSum(a: string, b: string)
    requires '+' !in a && '+' !in b
    ensures Split(a + "+" + b, '+') == [a, b]
  {
    SplitAtSep(a, '+', b);
    SplitPlain(b, '+');
    assert a + ['+'] + b == a + "+" + b;
  }

  lemma SumOfTwo(a: string, b: string, m: nat, n: nat)
    requires PartCount(a) == Some(m) && PartCount(b) == Some(n)
    ensures SumOf([a, b]) == m + n && !HasNoNumber([a, b])
  {
    assert [a, b][1..] == [b] && [b][1..] == [];
    assert SumOf([b]) == n + SumOf([]);
  }

  lemma DecimalPart(n: nat)
    requires Capped(n) == n
    ensures PartCount(Decimal(n)) == Some(n) && '+' !in Decimal(n)
  {
    DecimalIsTight(n);
    TightStays(Decimal(n));
    ParseDecimal(n);
  }

  /** Two numbers with a plus sign between them count as their sum. */
  lemma SumCounts(a: nat, b: nat)
    requires Capped(a) == a && Capped(b) == b
    ensures CountIn(Decimal(a) + "+" + Decimal(b)) == Some(Capped(a + b))
  {
    DecimalPart(a);
    DecimalPart(b);
    SplitSum(Decimal(a), Decimal(b));
    SumOfTwo(Decimal(a), Decimal(b), a, b);
    CountMeans(Decimal(a) + "+" + Decimal(b));
  }

  // ---------- columns ----------

  /** The first cell of that name, in whatever case. */
  predicate IsFirst(cells: seq<string>, name: string, i: nat) {
    && i < |cells| && SameIgnoringCase(cells[i], name)
    && forall j :: 0 <= j < i ==> !SameIgnoringCase(cells[j], name)
  }

  ghost predicate IsColumn(cells: seq<string>, name: string, column: Option<nat>) {
    if column.Some? then IsFirst(cells, name, column.value)
    else forall j :: 0 <= j < |cells| ==> !SameIgnoringCase(cells[j], name)
  }

  lemma {:induction false} PositionMeans(cells: seq<string>, name: string, i: nat)
    requires i <= |cells| && forall j :: 0 <= j < i ==> !SameIgnoringCase(cells[j], name)
    ensures IsColumn(cells, name, PositionFrom(cells, name, i))
    decreases |cells| - i
  {
    if i < |cells| && !SameIgnoringCase(cells[i], name) {
      PositionMeans(cells, name, i + 1);
    }
  }

  /** A header names its columns if it has the two counts; the others it may lack. */
  lemma HeaderMeans(cells: seq<string>)
    ensures FromHeader(cells).None? <==> IsColumn(cells, "high", None) || IsColumn(cells, "critical", None)
    ensures FromHeader(cells).Some? ==>
      var c := FromHeader(cells).value;
      && IsFirst(cells, "high", c.high) && IsFirst(cells, "critical", c.critical)
      && IsColumn(cells, "auditors", c.auditors) && IsColumn(cells, "coverage", c.coverage)
  {
    PositionMeans(cells, "high", 0);
    PositionMeans(cells, "critical", 0);
    PositionMeans(cells, "auditors", 0);
    PositionMeans(cells, "coverage", 0);
  }

  /** A row as wide as the header has the header's columns. Elsewhere the width tells. */
  lemma ColumnsMean(header: Option<(nat, Columns)>, width: nat)
    ensures Effective(header, width) ==
      if exists c :: header == Some((width, c)) then header.value.1
      else if width >= 9 then Columns(4, 5, Some(2), Some(3))
      else if width == 8 then Columns(3, 4, Some(2), None)
      else Columns(3, 4, None, None)
  {
    if header.Some? {
      assert header == Some((header.value.0, header.value.1));
    }
  }

  /** What a row says: nothing where both counts are empty, and else a round, or an error for
      the first of the two counts that is none. */
  lemma RowMeans(c: Columns, cells: seq<string>)
    requires cells != []
    ensures var h := if c.high < |cells| then cells[c.high] else [];
      var k := if c.critical < |cells| then cells[c.critical] else [];
      && (ReadRow(c, cells) == Nothing <==> h == [] && k == [])
      && (forall e :: ReadRow(c, cells) == Bad(e) <==>
            && !(h == [] && k == []) && (CountIn(h) == None || CountIn(k) == None)
            && e == if CountIn(h) == None then NonNumeric("high", cells[0], h) else NonNumeric("critical", cells[0], k))
      && (ReadRow(c, cells).Found? ==>
            var r := ReadRow(c, cells).round;
            && r.roundLabel == cells[0] && CountIn(h) == Some(r.high) && CountIn(k) == Some(r.critical)
            && (forall a :: r.auditors == Some(a) <==> exists i ::
                  c.auditors == Some(i) && i < |cells| && cells[i] == a != [])
            && (forall a :: r.coverage == Some(a) <==> exists i ::
                  c.coverage == Some(i) && i < |cells| && cells[i] == a != []))
  {
  }

  // ---------- lines ----------

  predicate HeadingAt(lines: seq<string>, i: int) {
    0 <= i < |lines| && "## " <= lines[i]
  }

  /** The last heading before line `n` is that of the summary. */
  ghost predicate InSummary(lines: seq<string>, n: int) {
    exists h :: h < n && HeadingAt(lines, h) && SameIgnoringCase(Trim(lines[h]), "## Round Summary")
                && forall j :: h < j < n ==> !HeadingAt(lines, j)
  }

  /** At least five cells, which are not all made of dashes, colons and spaces. */
  predicate IsTableRow(cells: seq<string>) {
    && |cells| >= 5
    && ((forall i :: 0 <= i < |cells| ==> cells[i] == [])
        || exists i :: 0 <= i < |cells| && exists c :: c in cells[i] && c != '-' && c != ':' && c != ' ')
  }

  predicate SaysRound(cells: seq<string>) {
    exists i :: 0 <= i < |cells| && SameIgnoringCase(cells[i], "round")
  }

  ghost predicate TableLineAt(lines: seq<string>, i: int) {
    && 0 <= i < |lines| && !HeadingAt(lines, i) && InSummary(lines, i)
    && '|' in lines[i] && IsTableRow(SplitCells(lines[i]))
  }

  ghost predicate HeaderAt(lines: seq<string>, i: int) {
    TableLineAt(lines, i) && SaysRound(SplitCells(lines[i]))
  }

  ghost predicate RowAt(lines: seq<string>, i: int) {
    TableLineAt(lines, i) && !SaysRound(SplitCells(lines[i]))
  }

  /** The last header before line `n` in the same section. */
  ghost predicate LastHeader(lines: seq<string>, n: int, g: int) {
    g < n && HeaderAt(lines, g) && forall j :: g < j < n ==> !HeadingAt(lines, j) && !HeaderAt(lines, j)
  }

  /** The columns of the last header, if there is one that has the two counts. */
  ghost predicate HeaderIs(lines: seq<string>, n: int, header: Option<(nat, Columns)>) {
    && (forall g :: LastHeader(lines, n, g) ==> header == HeaderOf(SplitCells(lines[g])))
    && (header != None ==> exists g :: LastHeader(lines, n, g))
  }

  function HeaderOf(cells: seq<string>): Option<(nat, Columns)> {
    if FromHeader(cells).Some? then Some((|cells|, FromHeader(cells).value)) else None
  }

  /** What the row at line `i` reads as under the header before it. */
  ghost predicate ReadsAs(lines: seq<string>, i: int, reading: RowReading) {
    RowAt(lines, i) && exists header ::
      HeaderIs(lines, i, header) && reading == ReadRow(Effective(header, |SplitCells(lines[i])|), SplitCells(lines[i]))
  }

  lemma SeparatorMeans(cells: seq<string>)
    ensures IsTableRow(cells) <==> |cells| > 4 && !IsSeparatorRow(cells)
  {
    if exists i :: 0 <= i < |cells| && cells[i] != [] {
      if forall i :: 0 <= i < |cells| ==> forall c :: c in cells[i] ==> c == '-' || c == ':' || c == ' ' {
        assert IsSeparatorRow(cells);
      }
    }
  }

  // ---------- the fold, line by line ----------

  lemma {:induction false} OneLineMore(st: ParseState, lines: seq<string>, n: nat)
    requires n < |lines|
    ensures ParseLines(st, lines[..n + 1]) ==
      match ParseLines(st, lines[..n])
      case Err(e) => Err(e)
      case Ok(next) => ParseLine(next, lines[n])
    decreases n
  {
    if n == 0 {
      assert lines[..1] == [lines[0]] && lines[..1][1..] == [];
    } else {
      assert lines[..n + 1][1..] == lines[1..][..n] && lines[..n][1..] == lines[1..][..n - 1];
      var next := ParseLine(st, lines[0]);
      if next.Ok? {
        OneLineMore(next.value, lines[1..], n - 1);
      }
    }
  }

  lemma SummaryMore(lines: seq<string>, n: nat)
    requires n < |lines|
    ensures InSummary(lines, n + 1) <==>
      if HeadingAt(lines, n) then SameIgnoringCase(Trim(lines[n]), "## Round Summary") else InSummary(lines, n)
  {
    if HeadingAt(lines, n) {
      if SameIgnoringCase(Trim(lines[n]), "## Round Summary") {
        assert n < n + 1 && HeadingAt(lines, n);
      }
    } else if InSummary(lines, n) {
      var h :| h < n && HeadingAt(lines, h) && SameIgnoringCase(Trim(lines[h]), "## Round Summary")
               && forall j :: h < j < n ==> !HeadingAt(lines, j);
      assert forall j :: h < j < n + 1 ==> !HeadingAt(lines, j);
    }
  }

  lemma LastHeaderMore(lines: seq<string>, n: nat, g: int)
    requires n < |lines|
    ensures LastHeader(lines, n + 1, g) <==>
      !HeadingAt(lines, n) && if HeaderAt(lines, n) then g == n else LastHeader(lines, n, g)
  {
    assert HeaderAt(lines, n) ==> !HeadingAt(lines, n);
    if g < n {
      assert LastHeader(lines, n + 1, g) <==> LastHeader(lines, n, g) && !HeadingAt(lines, n) && !HeaderAt(lines, n);
    }
  }

  lemma NoHeaderAfterHeading(lines: seq<string>, n: nat)
    requires HeadingAt(lines, n)
    ensures HeaderIs(lines, n + 1, None)
  {
    var m := n + 1;
    if g :| LastHeader(lines, m, g) {
      LastHeaderMore(lines, n, g);
    }
  }

  lemma NewHeader(lines: seq<string>, n: nat)
    requires HeaderAt(lines, n)
    ensures HeaderIs(lines, n + 1, HeaderOf(SplitCells(lines[n])))
  {
    LastHeaderMore(lines, n, n);
    var m := n + 1;
    assert LastHeader(lines, m, n);
    forall g | LastHeader(lines, m, g)
      ensures g == n
    {
      LastHeaderMore(lines, n, g);
    }
  }

  lemma SameHeader(lines: seq<string>, n: nat, header: Option<(nat, Columns)>)
    requires n < |lines| && HeaderIs(lines, n, header) && !HeadingAt(lines, n) && !HeaderAt(lines, n)
    ensures HeaderIs(lines, n + 1, header)
  {
    forall g | LastHeader(lines, n + 1, g)
      ensures LastHeader(lines, n, g)
    {
      LastHeaderMore(lines, n, g);
    }
    if header != None {
      var g :| LastHeader(lines, n, g);
      LastHeaderMore(lines, n, g);
      assert LastHeader(lines, n + 1, g);
    }
  }

  // ---------- the whole text ----------

  /** Where the parser is after `n` lines. */
  ghost predicate StandsAt(lines: seq<string>, n: nat, st: ParseState) {
    (st.inSummary <==> InSummary(lines, n)) && HeaderIs(lines, n, st.header)
  }

  ghost function FoundIn(lines: seq<string>): (nat, Round) -> bool {
    (i, r) => ReadsAs(lines, i, Found(r))
  }

  ghost function NothingIn(lines: seq<string>): nat -> bool {
    i => RowAt(lines, i) ==> ReadsAs(lines, i, Nothing)
  }

  /** The rounds of the rows among the first `n` lines, in order, and where they are. */
  ghost predicate RoundsAre(lines: seq<string>, n: nat, rounds: seq<Round>, at: seq<nat>) {
    Gathered(rounds, at, n, FoundIn(lines), NothingIn(lines))
  }

  lemma LineReads(lines: seq<string>, n: nat, st: ParseState)
    requires n < |lines| && StandsAt(lines, n, st)
    ensures var cells := SplitCells(lines[n]);
      ParseLine(st, lines[n]) ==
        if HeadingAt(lines, n) then Ok(st.(inSummary := InSummary(lines, n + 1), header := None))
        else if HeaderAt(lines, n) then Ok(st.(header := HeaderOf(cells)))
        else if RowAt(lines, n) then
          match ReadRow(Effective(st.header, |cells|), cells)
          case Nothing => Ok(st)
          case Found(r) => Ok(st.(rounds := st.rounds + [r]))
          case Bad(e) => Err(e)
        else Ok(st)
  {
    SummaryMore(lines, n);
    SeparatorMeans(SplitCells(lines[n]));
  }

  lemma StandsMore(lines: seq<string>, n: nat, st: ParseState)
    requires n < |lines| && StandsAt(lines, n, st) && ParseLine(st, lines[n]).Ok?
    ensures StandsAt(lines, n + 1, ParseLine(st, lines[n]).value)
  {
    LineReads(lines, n, st);
    SummaryMore(lines, n);
    if HeadingAt(lines, n) {
      NoHeaderAfterHeading(lines, n);
    } else if HeaderAt(lines, n) {
      NewHeader(lines, n);
    } else {
      SameHeader(lines, n, st.header);
    }
  }

  lemma RowReads(lines: seq<string>, n: nat, st: ParseState) returns (reading: RowReading)
    requires StandsAt(lines, n, st) && RowAt(lines, n)
    ensures ReadsAs(lines, n, reading)
    ensures ParseLine(st, lines[n]) ==
      match reading
      case Nothing => Ok(st)
      case Found(r) => Ok(st.(rounds := st.rounds + [r]))
      case Bad(e) => Err(e)
  {
    LineReads(lines, n, st);
    reading := ReadRow(Effective(st.header, |SplitCells(lines[n])|), SplitCells(lines[n]));
  }

  lemma RoundsMore(lines: seq<string>, n: nat, st: ParseState, at: seq<nat>) returns (at': seq<nat>)
    requires n < |lines| && StandsAt(lines, n, st) && RoundsAre(lines, n, st.rounds, at)
    ensures match ParseLine(st, lines[n])
      case Ok(next) => RoundsAre(lines, n + 1, next.rounds, at')
      case Err(e) => ReadsAs(lines, n, Bad(e))
  {
    at' := at;
    if RowAt(lines, n) {
      var reading := RowReads(lines, n, st);
      match reading {
        case Found(r) =>
          GatherOne(st.rounds, at, n, FoundIn(lines), NothingIn(lines), r);
          at' := at + [n];
        case Nothing => GatherNone(st.rounds, at, n, FoundIn(lines), NothingIn(lines));
        case Bad(_) =>
      }
    } else {
      LineReads(lines, n, st);
      GatherNone(st.rounds, at, n, FoundIn(lines), NothingIn(lines));
    }
  }

  /** The first row that is in error, among the first `n` lines. */
  ghost predicate FailsIn(lines: seq<string>, n: nat, e: ParseError, at: seq<nat>) {
    exists i: nat, rounds :: i < n && ReadsAs(lines, i, Bad(e)) && RoundsAre(lines, i, rounds, at)
  }

  lemma FailsLater(lines: seq<string>, n: nat, e: ParseError, at: seq<nat>)
    requires FailsIn(lines, n, e, at)
    ensures FailsIn(lines, n + 1, e, at)
  {
    var i: nat, rounds :| i < n && ReadsAs(lines, i, Bad(e)) && RoundsAre(lines, i, rounds, at);
    assert i < n + 1;
  }

  /** After `n` lines the parser has the rounds of the rows so far, or has stopped at the
      first row that is in error. */
  ghost predicate ReadUpTo(lines: seq<string>, n: nat, result: Result<ParseState, ParseError>, at: seq<nat>) {
    match result
    case Ok(st) => StandsAt(lines, n, st) && RoundsAre(lines, n, st.rounds, at)
    case Err(e) => FailsIn(lines, n, e, at)
  }

  lemma NothingRead(lines: seq<string>)
    ensures ReadUpTo(lines, 0, Ok(INITIAL), [])
  {
  }

  lemma ReadMore(lines: seq<string>, n: nat, st: ParseState, at: seq<nat>) returns (at': seq<nat>)
    requires n < |lines| && ReadUpTo(lines, n, Ok(st), at)
    ensures ReadUpTo(lines, n + 1, ParseLine(st, lines[n]), at')
  {
    at' := RoundsMore(lines, n, st, at);
    match ParseLine(st, lines[n]) {
      case Ok(next) => StandsMore(lines, n, st);
      case Err(e) =>
        at' := at;
        assert n < n + 1 && ReadsAs(lines, n, Bad(e)) && RoundsAre(lines, n, st.rounds, at);
    }
  }

  lemma {:induction false} ReadLines(lines: seq<string>, n: nat) returns (at: seq<nat>)
    requires n <= |lines|
    ensures ReadUpTo(lines, n, ParseLines(INITIAL, lines[..n]), at)
  {
    if n == 0 {
      at := [];
      NothingRead(lines);
    } else {
      at := ReadLines(lines, n - 1);
      OneLineMore(INITIAL, lines, n - 1);
      match ParseLines(INITIAL, lines[..n - 1]) {
        case Ok(st) => at := ReadMore(lines, n - 1, st, at);
        case Err(e) => FailsLater(lines, n - 1, e, at);
      }
    }
  }

  /** Reading a ledger gives the rounds of all rows of the summary that say one, in order. It
      fails exactly if a row is in error, with the error of the first such row. */
  lemma ParseMeans(text: string) returns (at: seq<nat>)
    ensures match Parse(text)
      case Ok(rounds) => RoundsAre(Lines(text), |Lines(text)|, rounds, at)
      case Err(e) => FailsIn(Lines(text), |Lines(text)|, e, at)
  {
    var lines := Lines(text);
    at := ReadLines(lines, |lines|);
    assert lines[..|lines|] == lines;
  }
}

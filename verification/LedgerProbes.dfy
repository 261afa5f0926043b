/**
A row that tells columns apart: R1, 1, 2, ..., the cell of every column being its number, and
the same row widened by the upgrade.

Two ways of reading eight or nine cells that agree on this row agree on every row, because the
counts they find, and the auditors and the coverage, give away the columns they look at; a
column that holds the label is no count, and the empty cell of a widened row counts zero or is
no cell at all.
*/
module LedgerProbes {
  import opened Common
  import opened Text
  import opened LedgerAnalysis
  import opened LedgerTable
  import opened LedgerUpgrade
  import opened LedgerMeaning

  // ---------- rows that tell columns apart ----------

  /** R1, 1, 2, ...: the cell of every column is its number. */
  function Probe(width: nat): (cells: seq<string>)
    requires 0 < width < 11
    ensures |cells| == width && cells[0] == "R1" && forall i :: 0 < i < width ==> cells[i] == Decimal(i)
  {
    ["R1"] + seq(width - 1, i requires 0 <= i < width - 1 => Decimal(i + 1))
  }

  predicate ColumnsBelow(c: Columns, width: nat) {
    && c.high < width && c.critical < width
    && (c.auditors.Some? ==> c.auditors.value < width) && (c.coverage.Some? ==> c.coverage.value < width)
  }

  lemma LabelCountsNothing()
    ensures CountIn("R1") == None && IsRoundCell("R1")
  {
    SplitPlain("R1", '+');
    TightStays("R1");
    assert !IsDigit("R1"[0]);
    assert "R1"[1..] == "1" == Decimal(1);
    ParseDecimal(1);
  }

  lemma ProbeCellsDiffer(width: nat, i: nat, j: nat)
    requires i < width < 11 && j < width
    ensures Probe(width)[i] == Probe(width)[j] ==> i == j
  {
    if 0 < i {
      DecimalValue(i);
      assert Decimal(i)[0] != 'R';
    }
    if 0 < j {
      DecimalValue(j);
      assert Decimal(j)[0] != 'R';
    }
  }

  lemma SameOptionalProbe(width: nat, a: Option<nat>, b: Option<nat>)
    requires 0 < width < 11 && (a.Some? ==> a.value < width) && (b.Some? ==> b.value < width)
    requires OptionalCell(Probe(width), a) == OptionalCell(Probe(width), b)
    ensures a == b
  {
    if a.Some? && b.Some? {
      ProbeCellsDiffer(width, a.value, b.value);
    }
  }

  lemma ProbeCounts(width: nat, i: nat)
    requires i < width < 11
    ensures CountIn(Probe(width)[i]) == if i == 0 then None else Some(i)
    ensures Probe(width)[i] != []
  {
    LabelCountsNothing();
    if i > 0 {
      DigitCounts(i);
    }
  }

  lemma ProbeReading(c: Columns, width: nat)
    requires 0 < width < 11 && ColumnsBelow(c, width)
    ensures ReadRow(c, Probe(width)).Found? <==> 0 < c.high && 0 < c.critical
    ensures 0 < c.high && 0 < c.critical ==>
      ReadRow(c, Probe(width)) == Found(Round("R1", c.high, c.critical, OptionalCell(Probe(width), c.auditors),
                                              OptionalCell(Probe(width), c.coverage)))
  {
    ProbeCounts(width, c.high);
    ProbeCounts(width, c.critical);
  }

  /** Two ways to read the row agree on it only if they agree on every row. */
  lemma ProbeTellsColumns(c: Columns, d: Columns, width: nat)
    requires 0 < width < 11 && ColumnsBelow(c, width) && ColumnsBelow(d, width) && 0 < d.high && 0 < d.critical
    ensures ReadRow(c, Probe(width)) == ReadRow(d, Probe(width)) <==> c == d
  {
    ProbeReading(c, width);
    ProbeReading(d, width);
    if ReadRow(c, Probe(width)) == ReadRow(d, Probe(width)) {
      SameOptionalProbe(width, c.auditors, d.auditors);
      SameOptionalProbe(width, c.coverage, d.coverage);
    }
  }

  lemma ProbeIsARow(width: nat)
    requires 8 <= width <= 9
    ensures !IsSeparatorRow(Probe(width)) && !IsHeaderRow(Probe(width))
    ensures CleanCells(Probe(width)) && forall i :: 0 <= i < width ==> '\n' !in Probe(width)[i]
  {
    assert 'R' in Probe(width)[0];
    forall i | 0 <= i < width
      ensures !SameIgnoringCase(Probe(width)[i], "round")
      ensures CleanCell(Probe(width)[i]) && '\n' !in Probe(width)[i]
    {
      if i > 0 {
        DigitCounts(i);
        DecimalIsTight(i);
      }
      Differ(Probe(width)[i], "round", 0);
    }
  }

  // ---------- the row widened ----------

  /** The cells of the widened row: the probe with an empty cell behind its third. */
  lemma WideProbe()
    ensures var wide := InsertCell(Probe(8), "");
      && |wide| == 9 && wide[0] == "R1" && wide[3] == ""
      && (forall i :: 0 < i < 9 && i != 3 ==> wide[i] == Decimal(if i < 3 then i else i - 1))
      && !IsSeparatorRow(wide) && !IsHeaderRow(wide)
  {
    ProbeIsARow(8);
    WidenedHeaderRow(Probe(8));
    LabelCountsNothing();
    RoundCellIsNoSeparator(InsertCell(Probe(8), ""));
  }

  lemma EmptyCellCountsZero()
    ensures CountIn("") == Some(0)
  {
    assert Split("", '+') == [""];
    assert Trim("") == "";
    assert [""][1..] == [];
    assert SumParts([], 0) == Some(0);
  }

  lemma WideCounts(i: nat)
    requires i < 9
    ensures CountIn(InsertCell(Probe(8), "")[i]) ==
      if i == 0 then None else if i == 3 then Some(0) else Some(if i < 3 then i else i - 1)
    ensures InsertCell(Probe(8), "")[i] == [] <==> i == 3
  {
    WideProbe();
    LabelCountsNothing();
    EmptyCellCountsZero();
    if i != 0 && i != 3 {
      DigitCounts(if i < 3 then i else i - 1);
    }
  }

  lemma WideCellIs(a: Option<nat>, i: nat)
    requires 0 < i < 9 && i != 3 && (a.Some? ==> a.value < 9)
    requires OptionalCell(InsertCell(Probe(8), ""), a) == Some(Decimal(if i < 3 then i else i - 1))
    ensures a == Some(i)
  {
    WideProbe();
    var k := if i < 3 then i else i - 1;
    DecimalValue(k);
    assert IsDigit(Decimal(k)[0]) && !IsDigit('R');
    if a.value > 0 {
      DecimalValue(if a.value < 3 then a.value else a.value - 1);
    }
  }

  /** Nine columns that read the widened probe as the legacy columns read the probe read
      every widened row so. */
  lemma WideProbeTellsColumns(c: Columns)
    requires ColumnsBelow(c, 9)
    ensures ReadRow(c, InsertCell(Probe(8), "")) == ReadRow(ForWidth(8), Probe(8)) <==> ReadsWidenedRows(c)
  {
    var wide := InsertCell(Probe(8), "");
    ProbeReading(ForWidth(8), 8);
    if ReadsWidenedRows(c) {
      WidenedRowReadsAlike(c, Probe(8));
    } else if ReadRow(c, wide) == ReadRow(ForWidth(8), Probe(8)) {
      WideCounts(c.high);
      WideCounts(c.critical);
      assert c.high == 4 && c.critical == 5;
      assert Probe(8)[2] == Decimal(2);
      WideCellIs(c.auditors, 2);
      if c.coverage.Some? {
        WideCounts(c.coverage.value);
      }
    }
  }
}

/**
The string operations of the standard library that the other modules rely on: trimming by
Unicode white space, splitting and joining, the lines of a text, ASCII case, the order of
strings, and decimals of 64 bits.

A string is a sequence of Unicode scalar values, as in the original; the order of strings
is that of their characters, which is also the order of their UTF-8 bytes. Nothing here
normalises or folds case beyond ASCII.
*/
module Text {
  import opened Common

  const U64_MAX: nat := 0xFFFF_FFFF_FFFF_FFFF

  /** The characters with the Unicode property White_Space. */
  predicate IsWhite(c: char) {
    var n := c as int;
    9 <= n <= 13 || n == 0x20 || n == 0x85 || n == 0xA0 || n == 0x1680
    || 0x2000 <= n <= 0x200A || n == 0x2028 || n == 0x2029 || n == 0x202F || n == 0x205F || n == 0x3000
  }

  predicate AllWhite(s: string) {
    forall i :: 0 <= i < |s| ==> IsWhite(s[i])
  }

  function TrimStart(s: string): string {
    if s != [] && IsWhite(s[0]) then TrimStart(s[1..]) else s
  }

  function TrimEnd(s: string): string {
    if s != [] && IsWhite(s[|s| - 1]) then TrimEnd(s[..|s| - 1]) else s
  }

  function Trim(s: string): string {
    TrimStart(TrimEnd(s))
  }

  /** No white space at either end. */
  predicate Tight(s: string) {
    s == [] || (!IsWhite(s[0]) && !IsWhite(s[|s| - 1]))
  }

  lemma {:induction false} TrimEndShape(s: string)
    ensures TrimEnd(s) <= s && AllWhite(s[|TrimEnd(s)|..])
    ensures TrimEnd(s) == [] || !IsWhite(TrimEnd(s)[|TrimEnd(s)| - 1])
  {
    if s != [] && IsWhite(s[|s| - 1]) {
      TrimEndShape(s[..|s| - 1]);
      assert s[|TrimEnd(s)|..] == s[..|s| - 1][|TrimEnd(s)|..] + [s[|s| - 1]];
    }
  }

  lemma {:induction false} TrimStartShape(s: string)
    ensures |TrimStart(s)| <= |s| && TrimStart(s) == s[|s| - |TrimStart(s)|..]
    ensures AllWhite(s[..|s| - |TrimStart(s)|])
    ensures TrimStart(s) == [] || !IsWhite(TrimStart(s)[0])
  {
    if s != [] && IsWhite(s[0]) {
      TrimStartShape(s[1..]);
      assert s[..|s| - |TrimStart(s)|] == [s[0]] + s[1..][..|s| - 1 - |TrimStart(s)|];
    }
  }

  lemma TrimIsTight(s: string)
    ensures Tight(Trim(s))
    ensures forall c :: c in Trim(s) ==> c in s
  {
    TrimEndShape(s);
    TrimStartShape(TrimEnd(s));
  }

  lemma TightStays(s: string)
    requires Tight(s)
    ensures Trim(s) == s && TrimStart(s) == s && TrimEnd(s) == s
  {
  }

  lemma {:induction false} TrimStartDropsWhite(w: string, s: string)
    requires AllWhite(w)
    ensures TrimStart(w + s) == TrimStart(s)
  {
    if w == [] {
      assert w + s == s;
    } else {
      assert (w + s)[1..] == w[1..] + s;
      TrimStartDropsWhite(w[1..], s);
    }
  }

  lemma {:induction false} TrimEndDropsWhite(s: string, w: string)
    requires AllWhite(w)
    ensures TrimEnd(s + w) == TrimEnd(s)
  {
    if w == [] {
      assert s + w == s;
    } else {
      assert (s + w)[..|s + w| - 1] == s + w[..|w| - 1];
      TrimEndDropsWhite(s, w[..|w| - 1]);
    }
  }

  /** Padding a tight string with white space on both sides is undone by trimming. */
  lemma TrimUndoesPadding(before: string, s: string, after: string)
    requires AllWhite(before) && AllWhite(after) && Tight(s)
    ensures Trim(before + s + after) == s
  {
    TrimEndDropsWhite(before + s, after);
    if s == [] {
      assert before + s == [] + before;
      TrimEndDropsWhite([], before);
    } else {
      assert TrimEnd(before + s) == before + s;
      TrimStartDropsWhite(before, s);
    }
  }

  // ---------- splitting and joining ----------

  function Split(s: string, sep: char): (parts: seq<string>)
    ensures |parts| >= 1
  {
    if s == [] then [[]]
    else
      var rest := Split(s[1..], sep);
      if s[0] == sep then [[]] + rest else [[s[0]] + rest[0]] + rest[1..]
  }

  function Join(parts: seq<string>, sep: string): string {
    if parts == [] then []
    else if |parts| == 1 then parts[0]
    else parts[0] + sep + Join(parts[1..], sep)
  }

  lemma {:induction false} SplitHasNoSep(s: string, sep: char)
    ensures forall i :: 0 <= i < |Split(s, sep)| ==> sep !in Split(s, sep)[i]
  {
    if s != [] {
      SplitHasNoSep(s[1..], sep);
    }
  }

  lemma {:induction false} SplitKeepsOut(s: string, sep: char, c: char)
    requires c !in s
    ensures forall i :: 0 <= i < |Split(s, sep)| ==> c !in Split(s, sep)[i]
  {
    if s != [] {
      SplitKeepsOut(s[1..], sep, c);
    }
  }

  lemma {:induction false} SplitPlain(s: string, sep: char)
    requires sep !in s
    ensures Split(s, sep) == [s]
  {
    if s != [] {
      SplitPlain(s[1..], sep);
      assert [s[0]] + s[1..] == s;
    }
  }

  lemma {:induction false} SplitAtSep(a: string, sep: char, b: string)
    requires sep !in a
    ensures Split(a + [sep] + b, sep) == [a] + Split(b, sep)
  {
    if a == [] {
      assert a + [sep] + b == [sep] + b;
      assert ([sep] + b)[1..] == b;
    } else {
      assert (a + [sep] + b)[1..] == a[1..] + [sep] + b;
      SplitAtSep(a[1..], sep, b);
      assert [a[0]] + a[1..] == a;
    }
  }

  lemma {:induction false} JoinKeepsOut(parts: seq<string>, sep: string, c: char)
    requires c !in sep && forall i :: 0 <= i < |parts| ==> c !in parts[i]
    ensures c !in Join(parts, sep)
  {
    if |parts| > 1 {
      JoinKeepsOut(parts[1..], sep, c);
    }
  }

  lemma {:induction false} SplitJoin(parts: seq<string>, sep: char)
    requires parts != [] && forall i :: 0 <= i < |parts| ==> sep !in parts[i]
    ensures Split(Join(parts, [sep]), sep) == parts
  {
    if |parts| == 1 {
      SplitPlain(parts[0], sep);
    } else {
      SplitJoin(parts[1..], sep);
      assert Join(parts, [sep]) == parts[0] + [sep] + Join(parts[1..], [sep]);
      SplitAtSep(parts[0], sep, Join(parts[1..], [sep]));
    }
  }

  // ---------- lines ----------

  /** One trailing carriage return, as it precedes a line feed, is no part of a line. */
  function StripCr(s: string): string {
    if s != [] && s[|s| - 1] == '\r' then s[..|s| - 1] else s
  }

  /** `str::lines`: a line ends at a line feed, with or without a carriage return
      before it; what follows the last line feed is a line only if it is not empty. */
  function Lines(text: string): seq<string> {
    LinesOf(Split(text, '\n'))
  }

  function LinesOf(parts: seq<string>): seq<string>
    requires |parts| >= 1
  {
    if |parts| == 1 then (if parts[0] == [] then [] else parts)
    else [StripCr(parts[0])] + LinesOf(parts[1..])
  }

  /** Every line followed by a line feed. */
  function Unlines(lines: seq<string>): string {
    if lines == [] then [] else lines[0] + ['\n'] + Unlines(lines[1..])
  }

  predicate NoLineFeed(lines: seq<string>) {
    forall i :: 0 <= i < |lines| ==> '\n' !in lines[i]
  }

  function StripAll(lines: seq<string>): (stripped: seq<string>)
    ensures |stripped| == |lines|
    ensures forall i :: 0 <= i < |lines| ==> stripped[i] == StripCr(lines[i])
  {
    seq(|lines|, i requires 0 <= i < |lines| => StripCr(lines[i]))
  }

  lemma {:induction false} LinesOfUnlines(lines: seq<string>)
    requires NoLineFeed(lines)
    ensures Lines(Unlines(lines)) == StripAll(lines)
  {
    if lines != [] {
      LinesOfUnlines(lines[1..]);
      SplitAtSep(lines[0], '\n', Unlines(lines[1..]));
      assert Split(Unlines(lines), '\n')[1..] == Split(Unlines(lines[1..]), '\n');
      assert StripAll(lines) == [StripCr(lines[0])] + StripAll(lines[1..]);
    }
  }

  lemma {:induction false} LinesHaveNoLineFeed(text: string)
    ensures NoLineFeed(Lines(text))
  {
    SplitHasNoSep(text, '\n');
    PartsHaveNoLineFeed(Split(text, '\n'));
  }

  lemma {:induction false} PartsHaveNoLineFeed(parts: seq<string>)
    requires |parts| >= 1 && NoLineFeed(parts)
    ensures NoLineFeed(LinesOf(parts))
  {
    if |parts| > 1 {
      assert NoLineFeed(parts[1..]);
      PartsHaveNoLineFeed(parts[1..]);
    }
  }

  lemma {:induction false} UnlinesInjective(a: seq<string>, b: seq<string>)
    requires NoLineFeed(a) && NoLineFeed(b) && Unlines(a) == Unlines(b)
    ensures a == b
  {
    if a != [] && b != [] {
      SplitAtSep(a[0], '\n', Unlines(a[1..]));
      SplitAtSep(b[0], '\n', Unlines(b[1..]));
      assert Split(Unlines(a), '\n')[0] == a[0] && Split(Unlines(b), '\n')[0] == b[0];
      assert Unlines(a[1..]) == Unlines(a)[|a[0]| + 1..];
      assert Unlines(b[1..]) == Unlines(b)[|b[0]| + 1..];
      UnlinesInjective(a[1..], b[1..]);
    }
  }

  /** `lines.join("\n")` followed by a line feed. */
  lemma {:induction false} JoinedLines(lines: seq<string>)
    ensures Join(lines, "\n") + "\n" == Unlines(if lines == [] then [""] else lines)
  {
    if lines == [] {
      assert Unlines([""]) == "" + ['\n'] + Unlines([]);
    } else if |lines| > 1 {
      JoinedLines(lines[1..]);
      assert Join(lines, "\n") + "\n" == lines[0] + "\n" + (Join(lines[1..], "\n") + "\n");
    } else {
      assert Unlines(lines) == lines[0] + ['\n'] + Unlines([]);
    }
  }

  // ---------- prefixes ----------

  /** Appending a character that does not occur in `p` creates no new prefix `p`. */
  lemma PrefixOfSnoc(p: string, s: string, c: char)
    requires c !in p
    ensures p <= s + [c] <==> p <= s
  {
    assert (s + [c])[|s|] == c;
    if p <= s + [c] && |p| <= |s| {
      assert forall i :: 0 <= i < |p| ==> p[i] == (s + [c])[i] == s[i];
    }
  }

  lemma {:induction false} TrimStartSnoc(s: string, c: char)
    requires IsWhite(c)
    ensures TrimStart(s + [c]) == if TrimStart(s) == [] then [] else TrimStart(s) + [c]
  {
    if s == [] {
      assert (s + [c])[1..] == [];
    } else {
      assert (s + [c])[1..] == s[1..] + [c];
      if IsWhite(s[0]) {
        TrimStartSnoc(s[1..], c);
      }
    }
  }

  /** A trailing carriage return does not change what a line starts with or trims to. */
  lemma StripCrHarmless(s: string, p: string)
    requires p != [] && '\r' !in p
    ensures p <= StripCr(s) <==> p <= s
    ensures p <= TrimStart(StripCr(s)) <==> p <= TrimStart(s)
    ensures Trim(StripCr(s)) == Trim(s)
  {
    if StripCr(s) != s {
      var t := StripCr(s);
      assert s == t + ['\r'];
      PrefixOfSnoc(p, t, '\r');
      TrimStartSnoc(t, '\r');
      PrefixOfSnoc(p, TrimStart(t), '\r');
      TrimEndDropsWhite(t, ['\r']);
    }
  }

  // ---------- ASCII case ----------

  function LowerChar(c: char): char {
    if 'A' <= c <= 'Z' then (c as int + 32) as char else c
  }

  function Lower(s: string): (r: string)
    ensures |r| == |s|
  {
    seq(|s|, i requires 0 <= i < |s| => LowerChar(s[i]))
  }

  predicate SameIgnoringCase(a: string, b: string) {
    Lower(a) == Lower(b)
  }

  function Contains(s: string, p: string): bool {
    p <= s || (s != [] && Contains(s[1..], p))
  }

  // ---------- order ----------

  /** Strict lexicographic order, in which strings are sorted. */
  predicate Before(a: string, b: string) {
    b != [] && (a == [] || a[0] < b[0] || (a[0] == b[0] && Before(a[1..], b[1..])))
  }

  lemma {:induction false} BeforeIsTotal(a: string, b: string)
    requires a != b
    ensures Before(a, b) <==> !Before(b, a)
    decreases |a|
  {
    if a != [] && b != [] && a[0] == b[0] {
      assert a == [a[0]] + a[1..] && b == [b[0]] + b[1..];
      BeforeIsTotal(a[1..], b[1..]);
    }
  }

  lemma {:induction false} BeforeIsTransitive(a: string, b: string, c: string)
    requires Before(a, b) && Before(b, c)
    ensures Before(a, c)
    decreases |a|
  {
    if a != [] && a[0] == b[0] == c[0] {
      BeforeIsTransitive(a[1..], b[1..], c[1..]);
    }
  }

  // ---------- decimals ----------

  predicate IsDigit(c: char) {
    '0' <= c <= '9'
  }

  predicate AllDigits(s: string) {
    forall i :: 0 <= i < |s| ==> IsDigit(s[i])
  }

  function DigitChar(d: nat): char
    requires d < 10
  {
    ('0' as int + d) as char
  }

  function Decimal(n: nat): (s: string)
    ensures s != [] && AllDigits(s)
  {
    if n < 10 then [DigitChar(n)] else Decimal(n / 10) + [DigitChar(n % 10)]
  }

  function DigitsValue(s: string): nat
    requires AllDigits(s)
  {
    if s == [] then 0
    else 10 * DigitsValue(s[..|s| - 1]) + (s[|s| - 1] as int - '0' as int)
  }

  /** `str::parse::<u64>`: an optional plus sign, then at least one digit, in range. */
  function ParseU64(s: string): Option<nat> {
    var digits := if s != [] && s[0] == '+' then s[1..] else s;
    if digits == [] || !AllDigits(digits) || DigitsValue(digits) > U64_MAX then None
    else Some(DigitsValue(digits))
  }

  lemma {:induction false} DecimalValue(n: nat)
    ensures DigitsValue(Decimal(n)) == n
  {
    if n >= 10 {
      DecimalValue(n / 10);
      assert Decimal(n)[..|Decimal(n)| - 1] == Decimal(n / 10);
    } else {
      assert Decimal(n)[..0] == [];
    }
  }

  lemma ParseDecimal(n: nat)
    requires n <= U64_MAX
    ensures ParseU64(Decimal(n)) == Some(n)
  {
    DecimalValue(n);
  }

  lemma DecimalIsTight(n: nat)
    ensures Tight(Decimal(n)) && '|' !in Decimal(n) && '+' !in Decimal(n)
    ensures '\n' !in Decimal(n) && '\r' !in Decimal(n)
  {
    assert forall i :: 0 <= i < |Decimal(n)| ==> IsDigit(Decimal(n)[i]) && !IsWhite(Decimal(n)[i]);
  }
}

/**
What the string operations mean, told by positions and characters.

Each operation of Text is described without its own recursion: order, containment, case and
trimming by positions, splitting by joining, lines by their line feeds, and numbers by the
places of their digits. The other modules state their results with these descriptions where a
leaf operation would otherwise be known only by its name.
*/
module TextMeaning {
  import opened Common
  import opened Text

  // ---------- order ----------

  /** The strings agree on `k` characters, and then `a` ends or has the smaller one. */
  ghost predicate PartsAt(a: string, b: string, k: nat) {
    k <= |a| && k < |b| && a[..k] == b[..k] && (k == |a| || a[k] < b[k])
  }

  lemma {:induction false} BeforeParts(a: string, b: string) returns (k: nat)
    requires Before(a, b)
    ensures PartsAt(a, b, k)
    decreases |a|
  {
    k := 0;
    if a != [] && a[0] == b[0] {
      var n := BeforeParts(a[1..], b[1..]);
      k := n + 1;
      assert a[..k] == [a[0]] + a[1..][..n] && b[..k] == [b[0]] + b[1..][..n];
    }
  }

  lemma {:induction false} PartsMakeBefore(a: string, b: string, k: nat)
    requires PartsAt(a, b, k)
    ensures Before(a, b)
    decreases |a|
  {
    if k > 0 {
      assert a[0] == a[..k][0] == b[..k][0] == b[0];
      assert a[1..][..k - 1] == a[..k][1..] && b[1..][..k - 1] == b[..k][1..];
      PartsMakeBefore(a[1..], b[1..], k - 1);
    }
  }

  /** Dictionary order, told by the place where the strings part. */
  ghost predicate GoesBefore(a: string, b: string) {
    exists k: nat :: k <= |a| && k < |b| && a[..k] == b[..k] && (k == |a| || a[k] < b[k])
  }

  /** Strings are ordered as words are in a dictionary, character by character. */
  lemma BeforeMeans(a: string, b: string)
    ensures Before(a, b) <==> GoesBefore(a, b)
    ensures Before(a, b) <==>
      exists k: nat :: k <= |a| && k < |b| && a[..k] == b[..k] && (k == |a| || a[k] < b[k])
  {
    if Before(a, b) {
      var k := BeforeParts(a, b);
    }
    if k: nat :| k <= |a| && k < |b| && a[..k] == b[..k] && (k == |a| || a[k] < b[k]) {
      PartsMakeBefore(a, b, k);
    }
  }

  // ---------- searching ----------

  lemma {:induction false} ContainedParts(s: string, p: string) returns (x: string, y: string)
    requires Contains(s, p)
    ensures s == x + p + y
  {
    if p <= s {
      x, y := [], s[|p|..];
    } else {
      x, y := ContainedParts(s[1..], p);
      x := [s[0]] + x;
    }
  }

  lemma {:induction false} PartsAreContained(x: string, p: string, y: string)
    ensures Contains(x + p + y, p)
  {
    if x == [] {
      assert x + p + y == p + y;
    } else {
      assert (x + p + y)[1..] == x[1..] + p + y;
      PartsAreContained(x[1..], p, y);
    }
  }

  /** A string contains another if it is that one between two others. */
  lemma ContainsMeans(s: string, p: string)
    ensures Contains(s, p) <==> exists x, y :: s == x + p + y
  {
    if Contains(s, p) {
      var x, y := ContainedParts(s, p);
    }
    if x, y :| s == x + p + y {
      PartsAreContained(x, p, y);
    }
  }

  // ---------- case and white space ----------

  /** Of equal length, and character by character equal or a letter and its capital. */
  lemma SameIgnoringCaseMeans(a: string, b: string)
    ensures SameIgnoringCase(a, b) <==>
      && |a| == |b|
      && forall i :: 0 <= i < |a| ==>
           || a[i] == b[i]
           || ('A' <= a[i] <= 'Z' && b[i] as int == a[i] as int + 32)
           || ('A' <= b[i] <= 'Z' && a[i] as int == b[i] as int + 32)
  {
    if SameIgnoringCase(a, b) {
      forall i | 0 <= i < |a|
        ensures LowerChar(a[i]) == LowerChar(b[i])
      {
        assert Lower(a)[i] == Lower(b)[i];
      }
    }
  }

  /** What trimming leaves: the text between the white space at both ends. */
  lemma TrimMeans(s: string) returns (i: nat, j: nat)
    ensures i <= j <= |s| && Trim(s) == s[i..j]
    ensures forall k :: 0 <= k < i || j <= k < |s| ==> IsWhite(s[k])
    ensures i < j ==> !IsWhite(s[i]) && !IsWhite(s[j - 1])
  {
    TrimEndShape(s);
    var t := TrimEnd(s);
    TrimStartShape(t);
    i, j := |t| - |TrimStart(t)|, |t|;
    assert forall k :: j <= k < |s| ==> s[k] == s[|t|..][k - j];
    assert forall k :: 0 <= k < i ==> s[k] == t[..i][k];
  }

  lemma BlankMeans(s: string)
    ensures Trim(s) == [] <==> forall i :: 0 <= i < |s| ==> IsWhite(s[i])
  {
    var i, j := TrimMeans(s);
    if Trim(s) != [] {
      assert !IsWhite(s[i]);
    }
  }

  lemma LowerMeans(s: string)
    ensures |Lower(s)| == |s|
    ensures forall i :: 0 <= i < |s| ==>
      Lower(s)[i] as int == s[i] as int + if 65 <= s[i] as int <= 90 then 32 else 0
  {
  }

  /** The white characters are the twenty-five of the Unicode property White_Space. */
  lemma WhiteMeans(c: char)
    ensures var n := c as int;
      IsWhite(c) <==>
        n in {9, 10, 11, 12, 13, 0x20, 0x85, 0xA0, 0x1680, 0x2000, 0x2001, 0x2002, 0x2003, 0x2004, 0x2005, 0x2006,
              0x2007, 0x2008, 0x2009, 0x200A, 0x2028, 0x2029, 0x202F, 0x205F, 0x3000}
  {
  }

  // ---------- splitting ----------

  lemma JoinOne(part: string, sep: string)
    ensures Join([part], sep) == part
  {
  }

  lemma JoinFirst(first: string, others: seq<string>, sep: string)
    requires others != []
    ensures Join([first] + others, sep) == first + sep + Join(others, sep)
  {
    assert ([first] + others)[1..] == others;
  }

  /** Prepending a character to the first part prepends it to the joined text. */
  lemma JoinLonger(c: char, rest: seq<string>, sep: string)
    requires rest != []
    ensures Join([[c] + rest[0]] + rest[1..], sep) == [c] + Join(rest, sep)
  {
    if |rest| == 1 {
      JoinOne([c] + rest[0], sep);
      assert [[c] + rest[0]] + rest[1..] == [[c] + rest[0]];
    } else {
      JoinFirst(rest[0], rest[1..], sep);
      assert [rest[0]] + rest[1..] == rest;
      JoinFirst([c] + rest[0], rest[1..], sep);
    }
  }

  /** The parts hold no separator, and joined by it they are the text again. */
  lemma {:induction false} SplitMeans(s: string, sep: char)
    ensures Join(Split(s, sep), [sep]) == s
    ensures forall i :: 0 <= i < |Split(s, sep)| ==> sep !in Split(s, sep)[i]
  {
    SplitHasNoSep(s, sep);
    if s != [] {
      SplitMeans(s[1..], sep);
      var rest := Split(s[1..], sep);
      if s[0] == sep {
        JoinFirst([], rest, [sep]);
      } else {
        JoinLonger(s[0], rest, [sep]);
      }
      assert s == [s[0]] + s[1..];
    }
  }

  /** A text ends in an unfinished line if something follows its last line feed. */
  lemma {:induction false} LinesMean(lines: seq<string>, last: string)
    requires NoLineFeed(lines) && '\n' !in last
    ensures Lines(Unlines(lines) + last) == StripAll(lines) + if last == [] then [] else [last]
  {
    if lines == [] {
      assert Unlines(lines) + last == last;
      SplitPlain(last, '\n');
    } else {
      LinesMean(lines[1..], last);
      var rest := Unlines(lines[1..]) + last;
      assert Unlines(lines) + last == lines[0] + ['\n'] + rest;
      SplitAtSep(lines[0], '\n', rest);
      assert Split(Unlines(lines) + last, '\n')[1..] == Split(rest, '\n');
      assert StripAll(lines) == [StripCr(lines[0])] + StripAll(lines[1..]);
    }
  }

  // ---------- numbers ----------

  function Power10(n: nat): nat {
    if n == 0 then 1 else 10 * Power10(n - 1)
  }

  /** Digits count by their places. */
  lemma {:induction false} DigitsValueMeans(s: string, t: string)
    requires AllDigits(s) && AllDigits(t)
    ensures DigitsValue(s + t) == DigitsValue(s) * Power10(|t|) + DigitsValue(t)
    ensures |t| == 1 ==> DigitsValue(t) == t[0] as int - 48
  {
    if t == [] {
      assert s + t == s;
    } else {
      var front, d := t[..|t| - 1], t[|t| - 1];
      DigitsValueMeans(s, front);
      assert (s + t)[..|s + t| - 1] == s + front;
      TenTimes(DigitsValue(s), Power10(|front|), DigitsValue(front));
    }
  }

  lemma TenTimes(a: nat, p: nat, b: nat)
    ensures 10 * (a * p + b) == a * (10 * p) + 10 * b
  {
  }

  /** A number of 64 bits is read from its digits, of which there must be one, with or
      without a plus sign before them. */
  lemma ParseU64Means(s: string)
    ensures ParseU64(s).Some? <==>
      var digits := if s != [] && s[0] == '+' then s[1..] else s;
      && digits != [] && (forall i :: 0 <= i < |digits| ==> '0' <= digits[i] <= '9')
      && AllDigits(digits) && DigitsValue(digits) <= 18446744073709551615
    ensures ParseU64(s).Some? ==>
      var digits := if s != [] && s[0] == '+' then s[1..] else s;
      AllDigits(digits) && ParseU64(s).value == DigitsValue(digits)
  {
  }

  /** A printed number consists of digits that say it, and has no zero in front. */
  lemma {:induction false} DecimalMeans(n: nat)
    ensures DigitsValue(Decimal(n)) == n
    ensures forall i :: 0 <= i < |Decimal(n)| ==> '0' <= Decimal(n)[i] <= '9'
    ensures Decimal(n) != [] && (n > 0 ==> Decimal(n)[0] != '0') && (n == 0 ==> |Decimal(n)| == 1)
  {
    DecimalValue(n);
    if n >= 10 {
      DecimalMeans(n / 10);
      assert Decimal(n)[0] == Decimal(n / 10)[0];
    }
  }
}

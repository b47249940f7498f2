// The Python `str` builtins the pipeline relies on, restricted to ASCII:
// `isalnum`, `isspace`, `lower`, `upper`, `title`, `strip`, `replace`, slicing
// `s[:n]`, `sep.join`, `s.split(sep)`, substring `in` and `str(int)`.
module Strings {

  // ---------------------------------------------------------------- characters

  predicate IsUpperLetter(c: char) { 'A' <= c <= 'Z' }
  predicate IsLowerLetter(c: char) { 'a' <= c <= 'z' }
  predicate IsDigit(c: char) { '0' <= c <= '9' }
  predicate IsLetter(c: char) { IsUpperLetter(c) || IsLowerLetter(c) }

  /** `str.isalnum` on one ASCII character. */
  predicate IsAlnum(c: char) { IsLetter(c) || IsDigit(c) }

  /** `str.isspace` on one ASCII character: space, \t \n \v \f \r and the
      separators \x1c to \x1f. */
  predicate IsSpace(c: char) {
    c == ' ' || '\t' <= c <= '\r' || '\U{1C}' <= c <= '\U{1F}'
  }

  function LowerChar(c: char): char {
    if IsUpperLetter(c) then (c as int + 32) as char else c
  }

  function UpperChar(c: char): char {
    if IsLowerLetter(c) then (c as int - 32) as char else c
  }

  // ---------------------------------------------------------------- whole strings

  /** `s.lower()` */
  function Lower(s: string): string {
    seq(|s|, i requires 0 <= i < |s| => LowerChar(s[i]))
  }

  /** `s.replace(a, b)` for one-character `a` and `b`. */
  function ReplaceChar(s: string, a: char, b: char): string {
    seq(|s|, i requires 0 <= i < |s| => if s[i] == a then b else s[i])
  }

  /** `s[:n]` */
  function Take(s: string, n: nat): (r: string)
    ensures |r| == if |s| <= n then |s| else n
    ensures r == s[..|r|]
  {
    if |s| <= n then s else s[..n]
  }

  predicate AllLower(s: string) {
    forall i :: 0 <= i < |s| ==> !IsUpperLetter(s[i])
  }

  lemma LowerIsLower(s: string)
    ensures AllLower(Lower(s))
    ensures AllLower(s) ==> Lower(s) == s
  {
  }

  /** Lower-casing twice is lower-casing once. */
  lemma LowerIdempotent(s: string)
    ensures Lower(Lower(s)) == Lower(s)
  {
    LowerIsLower(s);
  }

  // ---------------------------------------------------------------- strip

  /** Leading whitespace removed: what is left is a suffix of `s`, everything cut
      is whitespace, and what is left does not start with whitespace. */
  function StripLeft(s: string): (r: string)
    ensures |r| <= |s| && r == s[|s| - |r|..]
    ensures forall i :: 0 <= i < |s| - |r| ==> IsSpace(s[i])
    ensures r == [] || !IsSpace(r[0])
  {
    if |s| > 0 && IsSpace(s[0]) then StripLeft(s[1..]) else s
  }

  /** Trailing whitespace removed: a prefix of `s`, everything cut is whitespace,
      and what is left does not end with whitespace. */
  function StripRight(s: string): (r: string)
    ensures |r| <= |s| && r == s[..|r|]
    ensures forall i :: |r| <= i < |s| ==> IsSpace(s[i])
    ensures r == [] || !IsSpace(r[|r| - 1])
  {
    if |s| > 0 && IsSpace(s[|s| - 1]) then StripRight(s[..|s| - 1]) else s
  }

  /** `s.strip()` */
  function Strip(s: string): string {
    StripRight(StripLeft(s))
  }

  /** `not s.strip()` */
  predicate IsBlank(s: string) {
    Strip(s) == []
  }

  /** A string strips to nothing exactly when every character is whitespace. */
  lemma BlankIffAllSpace(s: string)
    ensures IsBlank(s) <==> forall i :: 0 <= i < |s| ==> IsSpace(s[i])
  {
    if IsBlank(s) {
      assert StripLeft(s) == [];
    }
  }

  // ---------------------------------------------------------------- join and split

  /** `sep.join(parts)` */
  function JoinWith(sep: string, parts: seq<string>): string
    decreases |parts|
  {
    if |parts| == 0 then ""
    else if |parts| == 1 then parts[0]
    else parts[0] + sep + JoinWith(sep, parts[1..])
  }

  function SumLengths(parts: seq<string>): nat {
    if parts == [] then 0 else |parts[0]| + SumLengths(parts[1..])
  }

  /** The joined text is the parts plus exactly one separator between each
      neighbouring pair. */
  lemma {:induction false} JoinLength(sep: string, parts: seq<string>)
    requires |parts| >= 1
    ensures |JoinWith(sep, parts)| == SumLengths(parts) + (|parts| - 1) * |sep|
  {
    if |parts| > 1 {
      JoinLength(sep, parts[1..]);
    }
  }

  /** Cutting the list of parts anywhere cuts the joined text at one separator:
      exactly one separator lies between part `i - 1` and part `i`. */
  lemma {:induction false} JoinSplitAt(sep: string, parts: seq<string>, i: nat)
    requires 0 < i < |parts|
    ensures JoinWith(sep, parts) == JoinWith(sep, parts[..i]) + sep + JoinWith(sep, parts[i..])
    decreases i
  {
    if i == 1 {
      assert parts[..1] == [parts[0]];
    } else {
      var tail := parts[1..];
      JoinSplitAt(sep, tail, i - 1);
      assert parts[..i][1..] == tail[..i - 1];
      assert tail[i - 1..] == parts[i..];
    }
  }

  /** `s.split(c)` with an explicit separator: empty fields are kept, so the
      result always has one more element than `s` has occurrences of `c`. */
  function Split(s: string, c: char): (parts: seq<string>)
    ensures |parts| >= 1
    decreases |s|
  {
    if |s| == 0 then [""]
    else
      var rest := Split(s[1..], c);
      if s[0] == c then [""] + rest else [[s[0]] + rest[0]] + rest[1..]
  }

  lemma {:induction false} SplitNoSeparator(s: string, c: char)
    requires c !in s
    ensures Split(s, c) == [s]
    decreases |s|
  {
    if |s| > 0 {
      SplitNoSeparator(s[1..], c);
      assert [s[0]] + s[1..] == s;
    }
  }

  lemma {:induction false} SplitFirstField(p: string, c: char, rest: string)
    requires c !in p
    ensures Split(p + [c] + rest, c) == [p] + Split(rest, c)
    decreases |p|
  {
    var s := p + [c] + rest;
    if |p| == 0 {
      assert s[1..] == rest;
    } else {
      assert s[1..] == p[1..] + [c] + rest;
      SplitFirstField(p[1..], c, rest);
      assert [p[0]] + p[1..] == p;
    }
  }

  /** Splitting on the separator undoes joining, provided no part contains it. */
  lemma {:induction false} SplitJoin(c: char, parts: seq<string>)
    requires |parts| >= 1
    requires forall k :: 0 <= k < |parts| ==> c !in parts[k]
    ensures Split(JoinWith([c], parts), c) == parts
    decreases |parts|
  {
    if |parts| == 1 {
      SplitNoSeparator(parts[0], c);
    } else {
      SplitJoin(c, parts[1..]);
      SplitFirstField(parts[0], c, JoinWith([c], parts[1..]));
    }
  }

  // ---------------------------------------------------------------- substring search

  /** `pat in text` */
  function Contains(text: string, pat: string): bool
    decreases |text|
  {
    |pat| <= |text| && (text[..|pat|] == pat || (|text| > 0 && Contains(text[1..], pat)))
  }

  /** `pat` occurs in `text` starting at index `i`. */
  predicate OccursAt(text: string, pat: string, i: int) {
    0 <= i <= |text| - |pat| && text[i..i + |pat|] == pat
  }

  /** The scan agrees with the definition of a substring occurrence. */
  lemma {:induction false} ContainsIff(text: string, pat: string)
    ensures Contains(text, pat) <==> exists i :: OccursAt(text, pat, i)
    decreases |text|
  {
    if |pat| <= |text| && text[..|pat|] == pat {
      assert OccursAt(text, pat, 0);
    } else if |pat| <= |text| && |text| > 0 {
      ContainsIff(text[1..], pat);
      if exists i :: OccursAt(text, pat, i) {
        var i :| OccursAt(text, pat, i);
        assert i != 0;
        assert text[1..][i - 1..i - 1 + |pat|] == text[i..i + |pat|];
        assert OccursAt(text[1..], pat, i - 1);
      }
      if Contains(text[1..], pat) {
        var i :| OccursAt(text[1..], pat, i);
        assert text[i + 1..i + 1 + |pat|] == text[1..][i..i + |pat|];
        assert OccursAt(text, pat, i + 1);
      }
    }
  }

  lemma ContainsInfix(a: string, pat: string, b: string)
    ensures Contains(a + pat + b, pat)
  {
    var t := a + pat + b;
    assert t[|a|..|a| + |pat|] == pat;
    assert OccursAt(t, pat, |a|);
    ContainsIff(t, pat);
  }

  /** An occurrence of an occurrence is an occurrence. */
  lemma ContainsTransitive(a: string, b: string, c: string)
    requires Contains(a, b) && Contains(b, c)
    ensures Contains(a, c)
  {
    ContainsIff(a, b);
    ContainsIff(b, c);
    var i :| OccursAt(a, b, i);
    var j :| OccursAt(b, c, j);
    forall m | 0 <= m < |c| ensures a[i + j + m] == c[m] {
      assert b[j + m] == c[m];
      assert a[i + j + m] == a[i..i + |b|][j + m];
    }
    assert a[i + j..i + j + |c|] == c;
    assert OccursAt(a, c, i + j);
    ContainsIff(a, c);
  }

  /** An occurrence inside `mid` is an occurrence inside any text around it. */
  lemma ContainsWithin(a: string, mid: string, b: string, pat: string)
    requires Contains(mid, pat)
    ensures Contains(a + mid + b, pat)
  {
    ContainsIff(mid, pat);
    var i :| OccursAt(mid, pat, i);
    var t := a + mid + b;
    assert t[|a| + i..|a| + i + |pat|] == mid[i..i + |pat|];
    assert OccursAt(t, pat, |a| + i);
    ContainsIff(t, pat);
  }

  // ---------------------------------------------------------------- repr

  /** `repr(s)` for a string without quotes or backslashes. */
  function QuotedRepr(s: string): string {
    "'" + s + "'"
  }

  /** `str(items)` for a list of such strings: `['a', 'b']`. */
  function ListRepr(items: seq<string>): string {
    "[" + JoinWith(", ", seq(|items|, i requires 0 <= i < |items| => QuotedRepr(items[i]))) + "]"
  }

  /** Every part occurs in the joined text. */
  lemma {:induction false} JoinContains(sep: string, parts: seq<string>, k: nat)
    requires k < |parts|
    ensures Contains(JoinWith(sep, parts), parts[k])
    decreases |parts|
  {
    if |parts| == 1 {
      ContainsInfix("", parts[0], "");
      assert "" + parts[0] + "" == parts[0];
    } else if k == 0 {
      var rest := sep + JoinWith(sep, parts[1..]);
      ContainsInfix("", parts[0], rest);
      assert "" + parts[0] + rest == JoinWith(sep, parts);
    } else {
      JoinContains(sep, parts[1..], k - 1);
      ContainsWithin(parts[0] + sep, JoinWith(sep, parts[1..]), "", parts[k]);
      assert parts[0] + sep + JoinWith(sep, parts[1..]) + "" == JoinWith(sep, parts);
    }
  }

  lemma JoinContainsEach(sep: string, parts: seq<string>)
    ensures forall k :: 0 <= k < |parts| ==> Contains(JoinWith(sep, parts), parts[k])
  {
    forall k | 0 <= k < |parts| ensures Contains(JoinWith(sep, parts), parts[k]) {
      JoinContains(sep, parts, k);
    }
  }

  /** Each item of a listed list appears quoted in its text. */
  lemma ListReprMentions(items: seq<string>, k: nat)
    requires k < |items|
    ensures Contains(ListRepr(items), QuotedRepr(items[k]))
  {
    var parts := seq(|items|, i requires 0 <= i < |items| => QuotedRepr(items[i]));
    JoinContains(", ", parts, k);
    ContainsWithin("[", JoinWith(", ", parts), "]", parts[k]);
  }

  // ---------------------------------------------------------------- decimal numerals

  function DigitChar(d: nat): (c: char)
    requires d < 10
    ensures IsDigit(c) && c as int - '0' as int == d
  {
    ('0' as int + d) as char
  }

  /** `str(n)` for a natural number: decimal digits, no leading zero. */
  function NatToString(n: nat): (s: string)
    ensures |s| >= 1
    ensures forall i :: 0 <= i < |s| ==> IsDigit(s[i])
  {
    if n < 10 then [DigitChar(n)] else NatToString(n / 10) + [DigitChar(n % 10)]
  }

  function DigitValue(c: char): nat
    requires IsDigit(c)
  {
    c as int - '0' as int
  }

  /** The value of a string of decimal digits. */
  function DecimalValue(s: string): nat
    requires forall i :: 0 <= i < |s| ==> IsDigit(s[i])
  {
    if s == [] then 0 else DecimalValue(s[..|s| - 1]) * 10 + DigitValue(s[|s| - 1])
  }

  lemma {:induction false} DecimalRoundTrip(n: nat)
    ensures DecimalValue(NatToString(n)) == n
  {
    if n >= 10 {
      DecimalRoundTrip(n / 10);
      var s := NatToString(n);
      assert s[..|s| - 1] == NatToString(n / 10);
    }
  }

  /** Different numbers have different numerals. */
  lemma NatToStringInjective(m: nat, n: nat)
    requires NatToString(m) == NatToString(n)
    ensures m == n
  {
    DecimalRoundTrip(m);
    DecimalRoundTrip(n);
  }

  // ---------------------------------------------------------------- title case

  /** `s.title()` continued after a character that was (`prevCased`) or was not
      a letter: a letter after a letter is lower-cased, any other letter is
      upper-cased, everything else is kept. */
  function TitleFrom(s: string, prevCased: bool): (r: string)
    ensures |r| == |s|
    decreases |s|
  {
    if s == [] then []
    else [if prevCased then LowerChar(s[0]) else UpperChar(s[0])] + TitleFrom(s[1..], IsLetter(s[0]))
  }

  /** `s.title()` */
  function Title(s: string): string {
    TitleFrom(s, false)
  }
}

/**
 * The parts of java.lang.String, java.util.regex and java.io.BufferedReader
 * that the preprocessing code relies on, over an ASCII character model:
 * `\s`, `\d`, toLowerCase(Locale.ENGLISH), trim().isEmpty(), String.split,
 * the two digit rewrites, readLine, and Integer.toString.
 */
module JavaText {

  /** `\s` of java.util.regex without UNICODE_CHARACTER_CLASS: [ \t\n\x0B\f\r]. */
  predicate IsSpace(c: char) {
    c == ' ' || c == '\t' || c == '\n' || c == '\U{B}' || c == '\U{C}' || c == '\r'
  }

  /** `\d` of java.util.regex: the ASCII digits. */
  predicate IsDigit(c: char) {
    '0' <= c <= '9'
  }

  predicate IsUpper(c: char) {
    'A' <= c <= 'Z'
  }

  /** Character lowering under Locale.ENGLISH, for the ASCII letters. */
  function LowerChar(c: char): char {
    if IsUpper(c) then (c as int + 32) as char else c
  }

  /** String.toLowerCase(Locale.ENGLISH). */
  function ToLowerCase(s: string): string {
    seq(|s|, i requires 0 <= i < |s| => LowerChar(s[i]))
  }

  /** String.trim().isEmpty(): trim strips every character up to U+0020 from both ends. */
  predicate IsBlank(s: string) {
    forall i :: 0 <= i < |s| ==> s[i] <= ' '
  }

  /** Length of the longest prefix of s whose characters all satisfy p. */
  function RunLength(s: string, p: char -> bool): (n: nat)
    ensures n <= |s|
    ensures forall i :: 0 <= i < n ==> p(s[i])
    ensures n < |s| ==> !p(s[n])
  {
    if s == [] || !p(s[0]) then 0 else 1 + RunLength(s[1..], p)
  }

  // ---------------------------------------------------------------------------
  // Digit rewriting
  // ---------------------------------------------------------------------------

  /** s.replaceAll("\\d", "0"): each digit on its own becomes '0'. */
  function ZeroEachDigit(s: string): string {
    seq(|s|, i requires 0 <= i < |s| => if IsDigit(s[i]) then '0' else s[i])
  }

  /** s.replaceAll("\\d+", "0"): each maximal run of digits becomes a single '0'. */
  function CollapseDigitRuns(s: string): (r: string)
    ensures |r| <= |s|
    ensures r == [] <==> s == []
    ensures s != [] ==> (IsDigit(r[0]) <==> IsDigit(s[0]))
    decreases |s|
  {
    if s == [] then []
    else if IsDigit(s[0]) then "0" + CollapseDigitRuns(s[RunLength(s, IsDigit)..])
    else [s[0]] + CollapseDigitRuns(s[1..])
  }

  /** No two digits are adjacent and the only digit is '0': the shape CollapseDigitRuns produces. */
  predicate DigitsCollapsed(s: string) {
    forall i :: 0 <= i < |s| && IsDigit(s[i]) ==> s[i] == '0' && (i + 1 == |s| || !IsDigit(s[i + 1]))
  }

  lemma {:induction false} CollapseDigitRunsShape(s: string)
    ensures DigitsCollapsed(CollapseDigitRuns(s))
    decreases |s|
  {
    if s == [] {
    } else if IsDigit(s[0]) {
      var k := RunLength(s, IsDigit);
      CollapseDigitRunsShape(s[k..]);
    } else {
      CollapseDigitRunsShape(s[1..]);
    }
  }

  lemma {:induction false} CollapsedIsFixpoint(s: string)
    requires DigitsCollapsed(s)
    ensures CollapseDigitRuns(s) == s
    decreases |s|
  {
    if s != [] {
      assert DigitsCollapsed(s[1..]) by {
        forall i | 0 <= i < |s[1..]| && IsDigit(s[1..][i])
          ensures s[1..][i] == '0' && (i + 1 == |s[1..]| || !IsDigit(s[1..][i + 1]))
        {
          assert s[1..][i] == s[i + 1];
        }
      }
      CollapsedIsFixpoint(s[1..]);
      if IsDigit(s[0]) {
        assert RunLength(s, IsDigit) == 1;
        assert s == "0" + s[1..];
      } else {
        assert s == [s[0]] + s[1..];
      }
    }
  }

  /** Collapsing digit runs twice is the same as collapsing them once. */
  lemma CollapseDigitRunsIdempotent(s: string)
    ensures CollapseDigitRuns(CollapseDigitRuns(s)) == CollapseDigitRuns(s)
  {
    CollapseDigitRunsShape(s);
    CollapsedIsFixpoint(CollapseDigitRuns(s));
  }

  lemma LowerKeepsDigitRuns(s: string)
    ensures RunLength(ToLowerCase(s), IsDigit) == RunLength(s, IsDigit)
    decreases |s|
  {
    var l := ToLowerCase(s);
    if s != [] && IsDigit(s[0]) {
      assert l[1..] == ToLowerCase(s[1..]);
      LowerKeepsDigitRuns(s[1..]);
    }
  }

  lemma LowerSuffix(s: string, k: int)
    requires 0 <= k <= |s|
    ensures ToLowerCase(s)[k..] == ToLowerCase(s[k..])
  {
  }

  lemma LowerConcat(a: string, b: string)
    ensures ToLowerCase(a + b) == ToLowerCase(a) + ToLowerCase(b)
  {
  }

  /** Lowering and collapsing digit runs commute, so "digits then lower case" and "lower case then digits" agree. */
  lemma {:induction false} LowerCollapseCommute(s: string)
    ensures ToLowerCase(CollapseDigitRuns(s)) == CollapseDigitRuns(ToLowerCase(s))
    decreases |s|
  {
    if s == [] {
    } else if IsDigit(s[0]) {
      var k := RunLength(s, IsDigit);
      LowerKeepsDigitRuns(s);
      LowerSuffix(s, k);
      LowerCollapseCommute(s[k..]);
      LowerConcat("0", CollapseDigitRuns(s[k..]));
    } else {
      LowerSuffix(s, 1);
      LowerCollapseCommute(s[1..]);
      LowerConcat([s[0]], CollapseDigitRuns(s[1..]));
    }
  }

  // ---------------------------------------------------------------------------
  // String.split
  // ---------------------------------------------------------------------------

  /** A field delimiter: the regex `\s+` (the default), or a one-character literal such as "\t" or " ". */
  datatype Delimiter = WhitespaceRun | Literal(c: char)

  predicate IsSeparator(d: Delimiter, c: char) {
    match d
    case WhitespaceRun => IsSpace(c)
    case Literal(x) => c == x
  }

  predicate SeparatorFree(s: string, d: Delimiter) {
    forall i :: 0 <= i < |s| ==> !IsSeparator(d, s[i])
  }

  /** Length of the separator match that starts at s[0]: `\s+` is greedy, a literal is one character. */
  function SeparatorLength(d: Delimiter, s: string): (n: nat)
    requires s != [] && IsSeparator(d, s[0])
    ensures 1 <= n <= |s|
  {
    match d
    case WhitespaceRun => RunLength(s, IsSpace)
    case Literal(_) => 1
  }

  /** The pieces of s between successive separator matches, empty ones included. */
  function Fields(s: string, d: Delimiter): (r: seq<string>)
    ensures |r| >= 1
    ensures forall k :: 0 <= k < |r| ==> SeparatorFree(r[k], d)
    decreases |s|
  {
    if s == [] then [""]
    else if IsSeparator(d, s[0]) then [""] + Fields(s[SeparatorLength(d, s)..], d)
    else
      var rest := Fields(s[1..], d);
      [[s[0]] + rest[0]] + rest[1..]
  }

  function DropTrailingEmpty(fields: seq<string>): (r: seq<string>)
    ensures r <= fields
    ensures r == [] || r[|r| - 1] != ""
    ensures forall i :: |r| <= i < |fields| ==> fields[i] == ""
  {
    if fields != [] && fields[|fields| - 1] == "" then DropTrailingEmpty(fields[..|fields| - 1]) else fields
  }

  /**
   * String.split(regex) with limit 0: trailing empty fields are removed, and a
   * leading separator leaves an empty first field. When the pattern never
   * matches Java returns the input itself; that differs from dropping the
   * trailing empty fields only for the empty input.
   */
  function Split(s: string, d: Delimiter): seq<string> {
    if s == [] then [""] else DropTrailingEmpty(Fields(s, d))
  }

  lemma SplitFieldsSeparatorFree(s: string, d: Delimiter)
    ensures forall k :: 0 <= k < |Split(s, d)| ==> SeparatorFree(Split(s, d)[k], d)
  {
    if s != [] {
      var f := Fields(s, d);
      var r := DropTrailingEmpty(f);
      assert forall k :: 0 <= k < |r| ==> r[k] == f[k];
    }
  }

  /** A separator-free prefix extends the first field and leaves the others alone. */
  lemma {:induction false} FieldsAfterPlainPrefix(f: string, t: string, d: Delimiter)
    requires SeparatorFree(f, d)
    ensures Fields(f + t, d) == [f + Fields(t, d)[0]] + Fields(t, d)[1..]
    decreases |f|
  {
    if f == [] {
      var r := Fields(t, d);
      assert f + t == t;
      assert f + r[0] == r[0];
      assert [r[0]] + r[1..] == r;
    } else {
      assert (f + t)[1..] == f[1..] + t;
      FieldsAfterPlainPrefix(f[1..], t, d);
      assert [f[0]] + (f[1..] + Fields(t, d)[0]) == f + Fields(t, d)[0];
    }
  }

  /** fields written out with one separator character between neighbours. */
  function Join(fields: seq<string>, sep: char): string
    decreases |fields|
  {
    if fields == [] then ""
    else if |fields| == 1 then fields[0]
    else fields[0] + [sep] + Join(fields[1..], sep)
  }

  predicate PlainFields(fields: seq<string>, d: Delimiter) {
    forall k :: 0 <= k < |fields| ==> fields[k] != "" && SeparatorFree(fields[k], d)
  }

  lemma {:induction false} FieldsOfJoin(fields: seq<string>, sep: char, d: Delimiter)
    requires |fields| >= 1 && PlainFields(fields, d) && IsSeparator(d, sep)
    ensures Join(fields, sep) != [] && !IsSeparator(d, Join(fields, sep)[0])
    ensures Fields(Join(fields, sep), d) == fields
    decreases |fields|, 2
  {
    if |fields| == 1 {
      FieldsAfterPlainPrefix(fields[0], "", d);
      assert fields[0] + "" == fields[0];
    } else {
      FieldsOfJoinCons(fields, sep, d);
    }
  }

  /** The step of FieldsOfJoin for two fields or more: the first field, then what the separator starts. */
  lemma FieldsOfJoinCons(fields: seq<string>, sep: char, d: Delimiter)
    requires |fields| >= 2 && PlainFields(fields, d) && IsSeparator(d, sep)
    ensures Join(fields, sep) != [] && !IsSeparator(d, Join(fields, sep)[0])
    ensures Fields(Join(fields, sep), d) == fields
    decreases |fields|, 1
  {
    var f := fields[0];
    var t := [sep] + Join(fields[1..], sep);
    FieldsOfSeparatedJoin(fields[1..], sep, d);
    assert Fields(t, d)[0] == "" && Fields(t, d)[1..] == fields[1..];
    assert Join(fields, sep) == f + t;
    assert (f + t)[0] == f[0];
    FieldsAfterPlainPrefix(f, t, d);
    assert f + "" == f;
    assert fields == [f] + fields[1..];
  }

  /** A separator followed by joined fields: an empty first field, then the fields themselves. */
  lemma FieldsOfSeparatedJoin(fields: seq<string>, sep: char, d: Delimiter)
    requires |fields| >= 1 && PlainFields(fields, d) && IsSeparator(d, sep)
    ensures Fields([sep] + Join(fields, sep), d) == [""] + fields
    decreases |fields|, 3
  {
    var j := Join(fields, sep);
    FieldsOfJoin(fields, sep, d);
    var t := [sep] + j;
    assert t[1..] == j;
    assert SeparatorLength(d, t) == 1 by {
      if d.WhitespaceRun? {
        assert !IsSpace(t[1]);
      }
    }
  }

  /** Split inverts Join for non-empty fields free of separators: the round trip of a well-formed line. */
  lemma SplitJoin(fields: seq<string>, sep: char, d: Delimiter)
    requires |fields| >= 1 && PlainFields(fields, d) && IsSeparator(d, sep)
    ensures Split(Join(fields, sep), d) == fields
  {
    FieldsOfJoin(fields, sep, d);
  }

  /** A non-empty line of `\s` characters only splits into no fields at all. */
  lemma SplitWhitespaceOnly(s: string)
    requires s != [] && forall i :: 0 <= i < |s| ==> IsSpace(s[i])
    ensures Split(s, WhitespaceRun) == []
  {
    var n := RunLength(s, IsSpace);
    assert n == |s|;
    assert s[n..] == [];
    assert Fields(s, WhitespaceRun) == ["", ""];
  }

  /** A string without a separator is its own single field. */
  lemma SplitSeparatorFree(s: string, d: Delimiter)
    requires SeparatorFree(s, d)
    ensures Split(s, d) == [s]
  {
    FieldsAfterPlainPrefix(s, "", d);
    assert s + "" == s;
  }

  // ---------------------------------------------------------------------------
  // BufferedReader.readLine
  // ---------------------------------------------------------------------------

  predicate IsLineBreak(c: char) {
    c == '\n' || c == '\r'
  }

  predicate NotLineBreak(c: char) {
    !IsLineBreak(c)
  }

  /**
   * The lines readLine returns until it returns null: a line ends at "\n",
   * "\r" or "\r\n", and a last line without a terminator still counts.
   */
  function ReadLines(text: string): seq<string>
    decreases |text|
  {
    if text == [] then []
    else
      var k := RunLength(text, NotLineBreak);
      if k == |text| then [text]
      else
        var next := if text[k] == '\r' && k + 1 < |text| && text[k + 1] == '\n' then k + 2 else k + 1;
        [text[..k]] + ReadLines(text[next..])
  }

  /** Each line followed by "\n", as BufferedWriter.write(line + "\n") produces it. */
  function JoinLines(lines: seq<string>): string
    decreases |lines|
  {
    if lines == [] then "" else lines[0] + "\n" + JoinLines(lines[1..])
  }

  lemma {:induction false} JoinLinesAppend(a: seq<string>, b: seq<string>)
    ensures JoinLines(a + b) == JoinLines(a) + JoinLines(b)
    decreases |a|
  {
    if a != [] {
      assert (a + b)[1..] == a[1..] + b;
      JoinLinesAppend(a[1..], b);
    } else {
      assert a + b == b;
    }
  }

  /** A line without a break, then "\n": readLine returns that line and goes on after the "\n". */
  lemma ReadLinesFirst(l: string, rest: string)
    requires forall i :: 0 <= i < |l| ==> !IsLineBreak(l[i])
    ensures ReadLines(l + "\n" + rest) == [l] + ReadLines(rest)
  {
    var text := l + "\n" + rest;
    var k := RunLength(text, NotLineBreak);
    assert forall i :: 0 <= i < |l| ==> text[i] == l[i];
    assert text[|l|] == '\n';
    assert k == |l|;
    assert text[..k] == l;
    assert text[k + 1..] == rest;
  }

  /** Reading back what was written line by line gives the same lines. */
  lemma {:induction false} ReadLinesJoinLines(lines: seq<string>)
    requires forall k, i :: 0 <= k < |lines| && 0 <= i < |lines[k]| ==> !IsLineBreak(lines[k][i])
    ensures ReadLines(JoinLines(lines)) == lines
    decreases |lines|
  {
    if lines != [] {
      ReadLinesFirst(lines[0], JoinLines(lines[1..]));
      ReadLinesJoinLines(lines[1..]);
    }
  }

  // ---------------------------------------------------------------------------
  // Decimal text of a number
  // ---------------------------------------------------------------------------

  function DigitChar(v: nat): char
    requires v < 10
  {
    ('0' as int + v) as char
  }

  /** Integer.toString of a non-negative value, as string concatenation writes it. */
  function NatToDecimal(n: nat): (s: string)
    ensures |s| >= 1 && forall i :: 0 <= i < |s| ==> IsDigit(s[i])
    decreases n
  {
    if n < 10 then [DigitChar(n)] else NatToDecimal(n / 10) + [DigitChar(n % 10)]
  }

  function DigitValue(c: char): nat
    requires IsDigit(c)
  {
    c as int - '0' as int
  }

  /** The value of a string of decimal digits. */
  function DecimalValue(s: string): nat
    requires forall i :: 0 <= i < |s| ==> IsDigit(s[i])
    decreases |s|
  {
    if s == [] then 0 else DecimalValue(s[..|s| - 1]) * 10 + DigitValue(s[|s| - 1])
  }

  lemma {:induction false} DecimalRoundTrip(n: nat)
    ensures DecimalValue(NatToDecimal(n)) == n
    decreases n
  {
    var s := NatToDecimal(n);
    if n >= 10 {
      DecimalRoundTrip(n / 10);
      assert s[..|s| - 1] == NatToDecimal(n / 10);
    }
  }

  /** Different numbers have different decimal texts. */
  lemma NatToDecimalInjective(m: nat, n: nat)
    requires NatToDecimal(m) == NatToDecimal(n)
    ensures m == n
  {
    DecimalRoundTrip(m);
    DecimalRoundTrip(n);
  }
}

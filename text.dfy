/** String helpers with the meaning JavaScript gives them: truthiness of an
    optional string, `\s` whitespace, `trim`, ASCII case mapping,
    `includes`, `join`/`split` on one separator, decimal rendering and the
    code-unit order of `<` on strings. */
module Text {
  import opened Wrappers

  /** A JavaScript string value is truthy when it is defined and not empty. */
  predicate Truthy(s: Option<string>) {
    s.Some? && |s.value| > 0
  }

  /** The characters JavaScript's `\s` and `String.prototype.trim` treat as
      white space: the white space and line terminator code points. */
  predicate IsSpace(c: char) {
    c == ' ' || c == '\t' || c == '\n' || c == '\r' || c == '\U{000B}' || c == '\U{000C}'
    || c == '\U{00A0}' || c == '\U{1680}' || ('\U{2000}' <= c <= '\U{200A}')
    || c == '\U{2028}' || c == '\U{2029}' || c == '\U{202F}' || c == '\U{205F}'
    || c == '\U{3000}' || c == '\U{FEFF}'
  }

  function TrimStart(s: string): (r: string)
    ensures |r| <= |s| && r == s[|s| - |r|..]
    ensures r == [] || !IsSpace(r[0])
    ensures forall i :: 0 <= i < |s| - |r| ==> IsSpace(s[i])
  {
    if s != [] && IsSpace(s[0]) then
      var r := TrimStart(s[1..]);
      assert s[1..][|s| - 1 - |r|..] == s[|s| - |r|..];
      assert forall i :: 0 < i < |s| - |r| ==> s[i] == s[1..][i - 1];
      r
    else s
  }

  function TrimEnd(s: string): (r: string)
    ensures |r| <= |s| && r == s[..|r|]
    ensures r == [] || !IsSpace(r[|r| - 1])
    ensures forall i :: |r| <= i < |s| ==> IsSpace(s[i])
  {
    if s != [] && IsSpace(s[|s| - 1]) then TrimEnd(s[..|s| - 1]) else s
  }

  /** A run of white space in front of a string that does not start with
      white space is exactly what `TrimStart` drops. */
  lemma {:induction false} TrimStartRun(gap: string, rest: string)
    requires forall i :: 0 <= i < |gap| ==> IsSpace(gap[i])
    requires rest == [] || !IsSpace(rest[0])
    ensures TrimStart(gap + rest) == rest
  {
    if gap != [] {
      assert (gap + rest)[1..] == gap[1..] + rest;
      TrimStartRun(gap[1..], rest);
    } else {
      assert gap + rest == rest;
    }
  }

  /** `needle` occurs in `hay` starting at index `i`. */
  predicate OccursAt(hay: string, needle: string, i: int) {
    0 <= i && i + |needle| <= |hay| && hay[i..i + |needle|] == needle
  }

  /** `String.prototype.trim`: `s` with the white space at both ends dropped.
      What is left neither starts nor ends with white space and is made of
      characters of `s`; a string without white space at its ends is left
      as it is. */
  function Trim(s: string): (r: string)
    ensures |r| <= |s|
    ensures r == [] || (!IsSpace(r[0]) && !IsSpace(r[|r| - 1]))
    ensures forall i :: 0 <= i < |r| ==> r[i] in s
    ensures s == [] || (!IsSpace(s[0]) && !IsSpace(s[|s| - 1])) ==> r == s
    ensures exists k :: OccursAt(s, r, k) && TrimmedAt(s, r, k)
  {
    var a := TrimStart(s);
    var r := TrimEnd(a);
    TrimParts(s, a, r);
    if s != [] && !IsSpace(s[0]) && !IsSpace(s[|s| - 1]) then
      assert a == s;
      r
    else r
  }

  /** Cutting a white-space prefix off `s` and then a white-space suffix off
      what is left leaves a copy of a middle part of `s`, at the offset where
      the prefix ends. */
  lemma TrimParts(s: string, a: string, r: string)
    requires |a| <= |s| && a == s[|s| - |a|..] && forall i :: 0 <= i < |s| - |a| ==> IsSpace(s[i])
    requires |r| <= |a| && r == a[..|r|] && forall i :: |r| <= i < |a| ==> IsSpace(a[i])
    ensures OccursAt(s, r, |s| - |a|) && TrimmedAt(s, r, |s| - |a|)
    ensures forall i :: 0 <= i < |r| ==> r[i] in s
  {
    var k := |s| - |a|;
    assert s[k..k + |r|] == a[..|r|];
    forall i | k + |r| <= i < |s|
      ensures IsSpace(s[i])
    {
      assert s[i] == a[i - k];
    }
    forall i | 0 <= i < |r|
      ensures r[i] in s
    {
      assert r[i] == s[k + i];
    }
  }

  /** Every character of `s` outside the copy of `r` at `k` is white space. */
  predicate TrimmedAt(s: string, r: string, k: int)
    requires OccursAt(s, r, k)
  {
    (forall i :: 0 <= i < k ==> IsSpace(s[i])) && (forall i :: k + |r| <= i < |s| ==> IsSpace(s[i]))
  }

  /** A blank in front of a word with no white space at its ends is all
      that trimming removes. */
  lemma TrimLeadingBlank(word: string)
    requires word != [] && !IsSpace(word[0]) && !IsSpace(word[|word| - 1])
    ensures Trim([' '] + word) == word
  {
    var sent := [' '] + word;
    assert sent[1..] == word;
    assert TrimStart(sent) == TrimStart(word) == word;
    assert TrimEnd(word) == word;
  }

  function LowerChar(c: char): char {
    if 'A' <= c <= 'Z' then (c as int - 'A' as int + 'a' as int) as char else c
  }

  function UpperChar(c: char): char {
    if 'a' <= c <= 'z' then (c as int - 'a' as int + 'A' as int) as char else c
  }

  /** `toLowerCase`, on the ASCII letters. */
  function Lower(s: string): (r: string)
    ensures |r| == |s|
    ensures forall i :: 0 <= i < |s| ==> r[i] == LowerChar(s[i])
  {
    seq(|s|, i requires 0 <= i < |s| => LowerChar(s[i]))
  }

  /** Lower-casing twice is lower-casing once, so a query typed in any case
      selects what its lower-case form selects. */
  lemma LowerIdempotent(s: string)
    ensures Lower(Lower(s)) == Lower(s)
  {
  }

  /** `hay.includes(needle)`, searched from the front. */
  function Contains(hay: string, needle: string): (r: bool)
    ensures r <==> exists i :: OccursAt(hay, needle, i)
  {
    if |needle| <= |hay| && hay[..|needle|] == needle then
      assert OccursAt(hay, needle, 0);
      true
    else if hay == [] then
      assert forall i :: !OccursAt(hay, needle, i);
      false
    else
      var r := Contains(hay[1..], needle);
      assert forall i :: OccursAt(hay[1..], needle, i) ==> OccursAt(hay, needle, i + 1);
      assert forall i :: OccursAt(hay, needle, i) && i > 0 ==> OccursAt(hay[1..], needle, i - 1);
      assert !OccursAt(hay, needle, 0);
      r
  }

  /** `lines.join(sep)` for a non-empty list of lines. */
  function Join(lines: seq<string>, sep: char): (r: string)
    requires |lines| > 0
  {
    if |lines| == 1 then lines[0] else lines[0] + [sep] + Join(lines[1..], sep)
  }

  /** `s.split(sep)`: the pieces between separators; never empty. */
  function Split(s: string, sep: char): (r: seq<string>)
    ensures |r| >= 1
  {
    if s == [] then [""]
    else if s[0] == sep then [""] + Split(s[1..], sep)
    else
      var rest := Split(s[1..], sep);
      [[s[0]] + rest[0]] + rest[1..]
  }

  /** A piece with no separator in it splits to itself; one followed by the
      separator splits off as the first piece. */
  lemma {:induction false} SplitPiece(line: string, tail: string, sep: char)
    requires sep !in line
    ensures Split(line, sep) == [line]
    ensures Split(line + [sep] + tail, sep) == [line] + Split(tail, sep)
  {
    if line != [] {
      SplitPiece(line[1..], tail, sep);
      assert (line + [sep] + tail)[1..] == line[1..] + [sep] + tail;
      assert [line[0]] + line[1..] == line;
    } else {
      assert line + [sep] + tail == [sep] + tail;
    }
  }

  /** Splitting what was joined gives the lines back, provided no line holds
      the separator. */
  lemma {:induction false} SplitJoin(lines: seq<string>, sep: char)
    requires |lines| > 0
    requires forall i :: 0 <= i < |lines| ==> sep !in lines[i]
    ensures Split(Join(lines, sep), sep) == lines
  {
    if |lines| == 1 {
      SplitPiece(lines[0], "", sep);
    } else {
      SplitJoin(lines[1..], sep);
      SplitPiece(lines[0], Join(lines[1..], sep), sep);
      assert [lines[0]] + lines[1..] == lines;
    }
  }

  function DigitChar(d: nat): (c: char)
    requires d < 10
    ensures '0' <= c <= '9' && DigitValue(c) == d
  {
    ('0' as int + d) as char
  }

  /** The value of a decimal digit character. */
  function DigitValue(c: char): int {
    c as int - '0' as int
  }

  /** The number a string of decimal digits denotes, most significant
      digit first. */
  function DigitsValue(s: string): int {
    if s == [] then 0 else DigitsValue(s[..|s| - 1]) * 10 + DigitValue(s[|s| - 1])
  }

  /** The decimal numeral of `n`, as a template literal renders it: digits
      that denote `n`, with no leading zero. */
  function Decimal(n: nat): (r: string)
    ensures |r| >= 1
    ensures forall i :: 0 <= i < |r| ==> '0' <= r[i] <= '9'
    ensures n >= 10 <==> r[0] != '0' && |r| > 1
    ensures DigitsValue(r) == n
  {
    if n < 10 then
      assert [DigitChar(n)][..0] == [];
      [DigitChar(n)]
    else
      var r := Decimal(n / 10) + [DigitChar(n % 10)];
      assert r[..|r| - 1] == Decimal(n / 10);
      r
  }

  /** `${n} ${noun}${n !== 1 ? 's' : ''}`: a count and its noun, with the
      plural "s" exactly when the count is not 1. */
  function Counted(n: nat, noun: string): (s: string)
    requires noun != [] && noun[|noun| - 1] != 's'
    ensures |s| > |Decimal(n)| && s[..|Decimal(n)|] == Decimal(n)
    ensures s[|s| - 1] == 's' <==> n != 1
    ensures |s| >= |Decimal(n)| + 1 + |noun| && s[|Decimal(n)|] == ' ' && s[|Decimal(n)| + 1..|Decimal(n)| + 1 + |noun|] == noun
  {
    Decimal(n) + " " + noun + (if n != 1 then "s" else "")
  }

  /** From index `at`, `s` shows `numeral`, a blank and `noun`. */
  predicate ShowsCount(s: string, at: nat, numeral: string, noun: string) {
    at + |numeral| + 1 + |noun| <= |s| && s[at..at + |numeral|] == numeral
    && s[at + |numeral|..at + |numeral| + 1 + |noun|] == " " + noun
  }

  /** A count put after a fixed prefix shows its numeral and noun right
      after the prefix, and ends in "s" exactly when the number is not 1. */
  lemma PrefixCounted(prefix: string, n: nat, noun: string)
    requires noun != [] && noun[|noun| - 1] != 's'
    ensures var s := prefix + Counted(n, noun);
      s[..|prefix|] == prefix && ShowsCount(s, |prefix|, Decimal(n), noun) && (s[|s| - 1] == 's' <==> n != 1)
  {
    var c := Counted(n, noun);
    PrefixShows(prefix, c, Decimal(n), noun);
  }

  /** The slicing behind `PrefixCounted`, for any text `c` that starts with
      a numeral, a blank and a noun. */
  lemma PrefixShows(prefix: string, c: string, numeral: string, noun: string)
    requires |c| >= |numeral| + 1 + |noun| && c[..|numeral|] == numeral
    requires c[|numeral|] == ' ' && c[|numeral| + 1..|numeral| + 1 + |noun|] == noun
    ensures var s := prefix + c;
      s[..|prefix|] == prefix && ShowsCount(s, |prefix|, numeral, noun) && s[|s| - 1] == c[|c| - 1]
  {
    var d := |numeral|;
    AppendSlice(prefix, c, 0, d);
    AppendSlice(prefix, c, d, d + 1 + |noun|);
    assert c[d..d + 1 + |noun|] == [c[d]] + c[d + 1..d + 1 + |noun|];
  }

  /** A slice of the second part of a concatenation, shifted by the length
      of the first. */
  lemma AppendSlice<T>(a: seq<T>, b: seq<T>, i: nat, j: nat)
    requires i <= j <= |b|
    ensures (a + b)[|a| + i..|a| + j] == b[i..j]
  {
  }

  /** JavaScript's `a < b` on strings: order of the first differing code
      unit, a proper prefix coming first. */
  predicate LexLess(a: string, b: string) {
    if b == [] then false
    else if a == [] then true
    else if a[0] != b[0] then a[0] < b[0]
    else LexLess(a[1..], b[1..])
  }

  /** String `<` is a strict order: never both ways, never reflexive. */
  lemma {:induction false} LexLessAsymmetric(a: string, b: string)
    ensures !(LexLess(a, b) && LexLess(b, a))
    ensures !LexLess(a, a)
  {
    if a != [] && b != [] && a[0] == b[0] {
      LexLessAsymmetric(a[1..], b[1..]);
    }
    if a != [] {
      LexLessAsymmetric(a[1..], a[1..]);
    }
  }

  /** Two different strings are ordered one way or the other. */
  lemma {:induction false} LexLessTotal(a: string, b: string)
    requires a != b
    ensures LexLess(a, b) || LexLess(b, a)
  {
    if a != [] && b != [] && a[0] == b[0] {
      assert a == [a[0]] + a[1..] && b == [b[0]] + b[1..];
      LexLessTotal(a[1..], b[1..]);
    }
  }

  /** Two strings that agree up to position `k` and differ there are
      ordered by the characters at `k`. */
  lemma {:induction false} LexLessAt(a: string, b: string, k: nat)
    requires k < |a| && k < |b| && a[..k] == b[..k] && a[k] < b[k]
    ensures LexLess(a, b)
  {
    if k > 0 {
      assert a[0] == a[..k][0] && b[0] == b[..k][0];
      assert a[1..][..k - 1] == a[..k][1..] && b[1..][..k - 1] == b[..k][1..];
      LexLessAt(a[1..], b[1..], k - 1);
    }
  }
}

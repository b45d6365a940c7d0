/**
  * Character and string primitives that the components rely on through
  * JavaScript's String methods: `trim`, `toLowerCase`/`toUpperCase`,
  * `includes`, `<`/`<=` on strings, `Number.prototype.toString` and
  * `parseInt`. Only ASCII letters change case and only ASCII whitespace is
  * whitespace; string length is the number of characters.
  */
module Text {
  import opened Seqs

  /** The ASCII characters that `trim` and the regular-expression class `\s` treat as whitespace. */
  predicate IsSpace(c: char) {
    c == ' ' || c == '\t' || c == '\n' || c == '\r' || c == '\U{000B}' || c == '\U{000C}'
  }

  /** A string that `trim` turns into the empty (falsy) string. */
  predicate IsBlank(s: string) {
    forall i :: 0 <= i < |s| ==> IsSpace(s[i])
  }

  /** `trimStart`: drops the leading whitespace. */
  function TrimStart(s: string): (r: string)
    ensures |r| <= |s| && r == s[|s| - |r|..]
    ensures r == [] || !IsSpace(r[0])
    ensures forall i :: 0 <= i < |s| - |r| ==> IsSpace(s[i])
  {
    if s == [] || !IsSpace(s[0]) then s else TrimStart(s[1..])
  }

  /** `trimEnd`: drops the trailing whitespace. */
  function TrimEnd(s: string): (r: string)
    ensures |r| <= |s| && r == s[..|r|]
    ensures r == [] || !IsSpace(r[|r| - 1])
    ensures forall i :: |r| <= i < |s| ==> IsSpace(s[i])
  {
    if s == [] || !IsSpace(s[|s| - 1]) then s else TrimEnd(s[..|s| - 1])
  }

  /** `r` is `s[a..]` up to blank text, with only blank text before position `a`. */
  predicate SliceBetweenBlanks(s: string, r: string, a: int) {
    && 0 <= a && a + |r| <= |s| && r == s[a..a + |r|]
    && (forall i :: 0 <= i < a ==> IsSpace(s[i]))
    && (forall i :: a + |r| <= i < |s| ==> IsSpace(s[i]))
  }

  /** `trim`: a slice of the input with no whitespace at either end; empty exactly for blank input. */
  function Trim(s: string): (r: string)
    ensures r == [] <==> IsBlank(s)
    ensures r != [] ==> !IsSpace(r[0]) && !IsSpace(r[|r| - 1])
    ensures exists a :: SliceBetweenBlanks(s, r, a)
  {
    TrimsSlice(s);
    TrimEnd(TrimStart(s))
  }

  /** Trimming both ends leaves a slice of the input between blank text. */
  lemma {:induction false} TrimsSlice(s: string)
    ensures exists a :: SliceBetweenBlanks(s, TrimEnd(TrimStart(s)), a)
  {
    var t := TrimStart(s);
    var r := TrimEnd(t);
    var a := |s| - |t|;
    assert SliceBetweenBlanks(s, r, a) by {
      assert t == s[a..];
      assert r == s[a..a + |r|] by {
        assert s[a..][..|r|] == s[a..a + |r|];
      }
      assert forall i :: a + |r| <= i < |s| ==> s[i] == t[i - a];
    }
  }

  function ToLower(c: char): (r: char)
    ensures 'A' <= c <= 'Z' ==> 'a' <= r <= 'z'
    ensures !('A' <= c <= 'Z') ==> r == c
  {
    if 'A' <= c <= 'Z' then (c as int + 32) as char else c
  }

  function ToUpper(c: char): (r: char)
    ensures 'a' <= c <= 'z' ==> 'A' <= r <= 'Z'
    ensures !('a' <= c <= 'z') ==> r == c
  {
    if 'a' <= c <= 'z' then (c as int - 32) as char else c
  }

  /** `toLowerCase`, character by character. */
  function Lower(s: string): (r: string)
    ensures |r| == |s|
    ensures forall i :: 0 <= i < |s| ==> r[i] == ToLower(s[i])
  {
    seq(|s|, i requires 0 <= i < |s| => ToLower(s[i]))
  }

  /** `toUpperCase`, character by character. */
  function Upper(s: string): (r: string)
    ensures |r| == |s|
    ensures forall i :: 0 <= i < |s| ==> r[i] == ToUpper(s[i])
  {
    seq(|s|, i requires 0 <= i < |s| => ToUpper(s[i]))
  }

  /** Two strings that differ at most in the case of their letters. */
  predicate SameUpToCase(a: string, b: string) {
    |a| == |b| && forall i :: 0 <= i < |a| ==> ToLower(a[i]) == ToLower(b[i])
  }

  lemma LowerUpToCase(a: string, b: string)
    requires SameUpToCase(a, b)
    ensures Lower(a) == Lower(b)
  {
  }

  lemma {:induction false} LowerAppend(a: string, b: string)
    ensures Lower(a + b) == Lower(a) + Lower(b)
  {
    assert forall i :: 0 <= i < |a| ==> (a + b)[i] == a[i];
    assert forall i :: |a| <= i < |a| + |b| ==> (a + b)[i] == b[i - |a|];
  }

  /** `needle` occurs in `hay` starting at index `i`. */
  predicate OccursAt(hay: string, needle: string, i: int) {
    0 <= i && i + |needle| <= |hay| && hay[i..i + |needle|] == needle
  }

  /** `hay.includes(needle)`: some occurrence at some index (the empty needle occurs everywhere). */
  function Contains(hay: string, needle: string): (r: bool)
    ensures r <==> exists i :: OccursAt(hay, needle, i)
    decreases |hay|
  {
    if |needle| > |hay| then
      assert forall i :: !OccursAt(hay, needle, i);
      false
    else if hay[..|needle|] == needle then
      assert OccursAt(hay, needle, 0);
      true
    else
      var r := Contains(hay[1..], needle);
      assert forall i :: OccursAt(hay[1..], needle, i) ==> OccursAt(hay, needle, i + 1) by {
        forall i | OccursAt(hay[1..], needle, i) ensures OccursAt(hay, needle, i + 1) {
          assert hay[1..][i..i + |needle|] == hay[i + 1..i + 1 + |needle|];
        }
      }
      assert forall i :: OccursAt(hay, needle, i) ==> i > 0 && OccursAt(hay[1..], needle, i - 1) by {
        forall i | OccursAt(hay, needle, i) ensures i > 0 && OccursAt(hay[1..], needle, i - 1) {
          assert hay[1..][i - 1..i - 1 + |needle|] == hay[i..i + |needle|];
        }
      }
      r
  }

  lemma EmptyIsContained(hay: string)
    ensures Contains(hay, "")
  {
    assert OccursAt(hay, "", 0);
  }

  /** An occurrence survives putting any text before and after the string. */
  lemma ContainsInContext(pre: string, hay: string, post: string, needle: string)
    requires Contains(hay, needle)
    ensures Contains(pre + hay + post, needle)
  {
    var i :| OccursAt(hay, needle, i);
    var whole := pre + hay + post;
    assert whole[|pre| + i..|pre| + i + |needle|] == hay[i..i + |needle|];
    assert OccursAt(whole, needle, |pre| + i);
  }

  /** JavaScript's `a < b` on strings: lexicographic by character, a proper prefix is smaller. */
  predicate LexLess(a: string, b: string): (r: bool)
    ensures r ==> a != b
    ensures |a| <= |b| && b[..|a|] == a ==> (r <==> |a| < |b|)
    decreases |a|
  {
    if b == [] then false
    else if a == [] then true
    else if a[0] != b[0] then a[0] < b[0]
    else LexLess(a[1..], b[1..])
  }

  /** JavaScript's `a <= b` on strings. */
  predicate LexLessEq(a: string, b: string) {
    a == b || LexLess(a, b)
  }

  lemma {:induction false} LexLessIrreflexive(a: string)
    ensures !LexLess(a, a)
  {
    if a != [] {
      LexLessIrreflexive(a[1..]);
    }
  }

  lemma {:induction false} LexLessTransitive(a: string, b: string, c: string)
    requires LexLess(a, b) && LexLess(b, c)
    ensures LexLess(a, c)
    decreases |a|
  {
    if a != [] && a[0] == b[0] && b[0] == c[0] {
      LexLessTransitive(a[1..], b[1..], c[1..]);
    }
  }

  /** Any two strings are equal or ordered one way or the other. */
  lemma {:induction false} LexLessTotal(a: string, b: string)
    ensures LexLess(a, b) || a == b || LexLess(b, a)
    decreases |a|
  {
    if a != [] && b != [] && a[0] == b[0] {
      LexLessTotal(a[1..], b[1..]);
      if a[1..] == b[1..] {
        assert a == [a[0]] + a[1..] && b == [b[0]] + b[1..];
      }
    }
  }

  /** JavaScript's `a >= b` on strings, `!(a < b)`, is `b <= a`. */
  lemma NotLessIsAtLeast(a: string, b: string)
    ensures !LexLess(a, b) <==> LexLessEq(b, a)
  {
    LexLessTotal(a, b);
    LexLessIrreflexive(a);
    if LexLess(a, b) && LexLess(b, a) {
      LexLessTransitive(a, b, a);
    }
  }

  /** Strings that agree up to the first differing character compare as that character. */
  lemma {:induction false} LexLessAt(a: string, b: string, k: nat)
    requires k < |a| && k < |b| && a[..k] == b[..k] && a[k] < b[k]
    ensures LexLess(a, b)
    decreases k
  {
    if k > 0 {
      assert a[0] == a[..k][0] == b[..k][0] == b[0];
      assert a[1..][..k - 1] == a[1..k] == a[..k][1..];
      assert b[1..][..k - 1] == b[1..k] == b[..k][1..];
      LexLessAt(a[1..], b[1..], k - 1);
    }
  }

  predicate IsDigit(c: char) {
    '0' <= c <= '9'
  }

  function DigitChar(d: nat): (c: char)
    requires d < 10
    ensures IsDigit(c)
  {
    ('0' as int + d) as char
  }

  function DigitValue(c: char): (d: nat)
    requires IsDigit(c)
    ensures d < 10 && DigitChar(d) == c
  {
    c as int - '0' as int
  }

  /** Decimal digits of a natural number, no leading zeros (`"0"` for zero). */
  function NatToString(n: nat): (s: string)
    ensures |s| > 0
    ensures forall i :: 0 <= i < |s| ==> IsDigit(s[i])
    decreases n
  {
    if n < 10 then [DigitChar(n)] else NatToString(n / 10) + [DigitChar(n % 10)]
  }

  /** `n.toString()` for an integer. */
  function IntToString(n: int): string {
    if n < 0 then "-" + NatToString(-n) else NatToString(n)
  }

  /** `n.toString().padStart(2, '0')`. */
  function Pad2(n: int): (s: string)
    ensures 0 <= n < 100 ==> |s| == 2 && IsDigit(s[0]) && IsDigit(s[1])
    ensures 0 <= n < 100 ==> s == [DigitChar(n / 10), DigitChar(n % 10)]
  {
    var t := IntToString(n);
    if 10 <= n < 100 then
      assert NatToString(n / 10) == [DigitChar(n / 10)];
      t
    else if |t| < 2 then "0" + t else t
  }

  /** The maximal run of decimal digits at the start of `s`. */
  function LeadingDigits(s: string): (d: string)
    ensures d <= s
    ensures forall i :: 0 <= i < |d| ==> IsDigit(d[i])
    ensures |d| == |s| || !IsDigit(s[|d|])
  {
    if s == [] || !IsDigit(s[0]) then [] else [s[0]] + LeadingDigits(s[1..])
  }

  /** The value of a string of decimal digits. */
  function DigitsValue(d: string): nat
    requires forall i :: 0 <= i < |d| ==> IsDigit(d[i])
  {
    if d == [] then 0 else DigitsValue(d[..|d| - 1]) * 10 + DigitValue(d[|d| - 1])
  }

  /** The value of the digits at the start of `u`, None when it does not start with a digit. */
  function ParseDigits(u: string): (r: Option<int>)
    ensures r.Some? <==> |u| > 0 && IsDigit(u[0])
    ensures r.Some? ==> r.value >= 0
  {
    var d := LeadingDigits(u);
    if d == [] then None else Some(DigitsValue(d) as int)
  }

  /** Digits after at most one sign, negated after a minus sign. */
  function ParseSigned(t: string): (r: Option<int>)
    ensures r.Some? ==> exists i :: 0 <= i < |t| && IsDigit(t[i])
  {
    if |t| > 0 && (t[0] == '-' || t[0] == '+') then
      match ParseDigits(t[1..])
      case None => None
      case Some(v) =>
        assert IsDigit(t[1]);
        Some(if t[0] == '-' then -v else v)
    else
      match ParseDigits(t)
      case None => None
      case Some(v) => Some(v)
  }

  /**
    * `parseInt(s)` with no radix, for decimal text: leading whitespace and one
    * sign are skipped, then the leading digits are read; None stands for NaN.
    */
  function ParseInt(s: string): (r: Option<int>)
    ensures r.Some? ==> exists i :: 0 <= i < |s| && IsDigit(s[i])
  {
    var t := TrimStart(s);
    var r := ParseSigned(t);
    if r.Some? then
      var i :| 0 <= i < |t| && IsDigit(t[i]);
      assert IsDigit(s[|s| - |t| + i]);
      r
    else r
  }

  /** Whitespace in front of a string that does not start with whitespace is all that `trimStart` drops. */
  lemma {:induction false} TrimStartBlankPrefix(ws: string, t: string)
    requires IsBlank(ws) && (t == [] || !IsSpace(t[0]))
    ensures TrimStart(ws + t) == t
  {
    if ws == [] {
      assert ws + t == t;
    } else {
      assert (ws + t)[1..] == ws[1..] + t;
      TrimStartBlankPrefix(ws[1..], t);
    }
  }

  /**
    * `parseInt` reads a number: after leading whitespace and at most one sign,
    * the maximal run of digits is the value, negated after a minus sign. (A
    * `0x` prefix, which JavaScript reads as hexadecimal, is excluded.)
    */
  lemma {:induction false} ParseIntDigits(ws: string, sign: string, d: string, rest: string)
    requires IsBlank(ws) && (sign == "" || sign == "+" || sign == "-")
    requires |d| > 0 && forall i :: 0 <= i < |d| ==> IsDigit(d[i])
    requires rest == [] || !IsDigit(rest[0])
    requires !(d == "0" && rest != [] && (rest[0] == 'x' || rest[0] == 'X'))
    ensures ParseInt(ws + (sign + (d + rest))) == Some(if sign == "-" then -(DigitsValue(d) as int) else DigitsValue(d))
  {
    var t := sign + (d + rest);
    assert t[0] == if sign == "" then d[0] else sign[0];
    ParseIntSkipsBlank(ws, t);
    ParseSignedDigits(sign, d, rest);
  }

  /** The signed reading of a sign, a run of digits and a non-digit. */
  lemma {:induction false} ParseSignedDigits(sign: string, d: string, rest: string)
    requires sign == "" || sign == "+" || sign == "-"
    requires |d| > 0 && forall i :: 0 <= i < |d| ==> IsDigit(d[i])
    requires rest == [] || !IsDigit(rest[0])
    ensures ParseSigned(sign + (d + rest)) == Some(if sign == "-" then -(DigitsValue(d) as int) else DigitsValue(d))
  {
    ParseDigitsOf(d, rest);
    ParseSignedOf(sign, d + rest);
  }

  /** A run of digits followed by a non-digit reads as the run's value. */
  lemma {:induction false} ParseDigitsOf(d: string, rest: string)
    requires |d| > 0 && forall i :: 0 <= i < |d| ==> IsDigit(d[i])
    requires rest == [] || !IsDigit(rest[0])
    ensures ParseDigits(d + rest) == Some(DigitsValue(d) as int)
  {
    LeadingDigitsOf(d, rest);
  }

  /** `parseInt` reads past the blank text in front. */
  lemma {:induction false} ParseIntSkipsBlank(ws: string, t: string)
    requires IsBlank(ws) && (t == [] || !IsSpace(t[0]))
    ensures ParseInt(ws + t) == ParseSigned(t)
  {
    TrimStartBlankPrefix(ws, t);
  }

  /** A sign, then text starting with a digit or not. */
  lemma {:induction false} ParseSignedOf(sign: string, u: string)
    requires sign == "" || sign == "+" || sign == "-"
    requires sign == "" && u != [] ==> u[0] != '+' && u[0] != '-'
    ensures ParseDigits(u).None? ==> ParseSigned(sign + u).None?
    ensures ParseDigits(u).Some? ==> ParseSigned(sign + u) == Some(if sign == "-" then -ParseDigits(u).value else ParseDigits(u).value)
  {
    if sign != "" {
      assert (sign + u)[1..] == u;
    } else {
      assert sign + u == u;
    }
  }

  /** A run of digits followed by a non-digit is the run `LeadingDigits` reads. */
  lemma {:induction false} LeadingDigitsOf(d: string, rest: string)
    requires forall i :: 0 <= i < |d| ==> IsDigit(d[i])
    requires rest == [] || !IsDigit(rest[0])
    ensures LeadingDigits(d + rest) == d
  {
    var s := d + rest;
    var r := LeadingDigits(s);
    assert s[..|d|] == d;
  }

  /** `parseInt` is NaN when no digit follows the leading whitespace and the optional sign. */
  lemma {:induction false} ParseIntNaN(ws: string, sign: string, rest: string)
    requires IsBlank(ws) && (sign == "" || sign == "+" || sign == "-")
    requires rest == [] || !IsDigit(rest[0])
    requires sign == "" && rest != [] ==> !IsSpace(rest[0]) && rest[0] != '+' && rest[0] != '-'
    ensures ParseInt(ws + (sign + rest)) == None
  {
    var t := sign + rest;
    TrimStartBlankPrefix(ws, t);
    if sign != "" {
      assert t[1..] == rest;
    }
  }

  /** A zero-padded hour reads back as that hour. */
  lemma {:induction false} ParsePad2(n: int, suffix: string)
    requires 0 <= n < 100
    requires suffix == [] || !IsDigit(suffix[0])
    ensures ParseInt(Pad2(n) + suffix) == Some(n)
  {
    var p := Pad2(n);
    var u := p + suffix;
    assert [] + u == u && "" + u == u;
    ParseIntSkipsBlank([], u);
    ParseDigitsOf(p, suffix);
    ParseSignedOf("", u);
    Pad2Value(n);
  }

  /** The two digits of `Pad2(n)` are worth `n`. */
  lemma {:induction false} Pad2Value(n: int)
    requires 0 <= n < 100
    ensures DigitsValue(Pad2(n)) == n
  {
    var p := Pad2(n);
    assert p[..1] == [p[0]];
    assert DigitsValue(p[..1]) == n / 10 by {
      assert p[..1][..0] == [];
    }
    assert DigitsValue(p) == DigitsValue(p[..1]) * 10 + n % 10;
  }

  /** `s.split(sep)[0]`: everything before the first separator. */
  function BeforeFirst(s: string, sep: char): (r: string)
    ensures r <= s && sep !in r
    ensures |r| < |s| ==> s[|r|] == sep
    ensures r == s <==> sep !in s
  {
    if s == [] || s[0] == sep then [] else [s[0]] + BeforeFirst(s[1..], sep)
  }

  /** `s.split(sep)`: the pieces between separators, at least one. */
  function Split(s: string, sep: char): (parts: seq<string>)
    ensures |parts| >= 1 && parts[0] == BeforeFirst(s, sep)
    ensures forall i :: 0 <= i < |parts| ==> sep !in parts[i]
    decreases |s|
  {
    var head := BeforeFirst(s, sep);
    if |head| == |s| then [head] else [head] + Split(s[|head| + 1..], sep)
  }

  /** Text up to the first separator is what comes before it. */
  lemma {:induction false} BeforeFirstOfPrefix(p: string, sep: char, rest: string)
    requires sep !in p
    ensures BeforeFirst(p + [sep] + rest, sep) == p
  {
    if p != [] {
      assert (p + [sep] + rest)[1..] == p[1..] + [sep] + rest;
      BeforeFirstOfPrefix(p[1..], sep, rest);
    }
  }

  /** Splitting text that starts with a separator-free piece and a separator yields that piece, then the rest's pieces. */
  lemma SplitAfterPiece(piece: string, sep: char, rest: string)
    requires sep !in piece
    ensures Split(piece + [sep] + rest, sep) == [piece] + Split(rest, sep)
  {
    var s := piece + [sep] + rest;
    BeforeFirstOfPrefix(piece, sep, rest);
    assert s[|piece| + 1..] == rest;
  }

  /** Separator-free text is a single piece. */
  lemma SplitWhole(s: string, sep: char)
    requires sep !in s
    ensures Split(s, sep) == [s]
  {
  }
}

/**
  * The severity helpers of the analytics dashboard
  * (src/components/Analytics/AdminDashboard.tsx): the colour of a PHQ-9
  * severity key and its display label.
  */
module AdminDashboard {
  import opened Seqs
  import opened Text

  /** The five PHQ-9 severity keys. */
  const SeverityKeys: seq<string> := ["minimal", "mild", "moderate", "moderately_severe", "severe"]

  const Gray := "bg-gray-500"

  /** `getSeverityColor`: a fixed colour for each severity key, gray for anything else. */
  function SeverityColor(severity: string): (c: string)
    ensures c != Gray <==> severity in SeverityKeys
    ensures severity == "minimal" ==> c == "bg-green-500"
    ensures severity == "mild" ==> c == "bg-yellow-500"
    ensures severity == "moderate" ==> c == "bg-orange-500"
    ensures severity == "moderately_severe" ==> c == "bg-red-500"
    ensures severity == "severe" ==> c == "bg-red-700"
  {
    match severity
    case "minimal" => "bg-green-500"
    case "mild" => "bg-yellow-500"
    case "moderate" => "bg-orange-500"
    case "moderately_severe" => "bg-red-500"
    case "severe" => "bg-red-700"
    case _ => Gray
  }

  /** No two severity keys share a colour. */
  lemma SeverityColorsDistinct(a: string, b: string)
    requires a in SeverityKeys && b in SeverityKeys && a != b
    ensures SeverityColor(a) != SeverityColor(b)
  {
  }

  /** The position of the first `c` in `s`, if any. */
  function FirstIndexOf(s: string, c: char): (r: Option<nat>)
    ensures r.Some? ==> r.value < |s| && s[r.value] == c && c !in s[..r.value]
    ensures r.None? ==> c !in s
  {
    if s == [] then None
    else if s[0] == c then Some(0)
    else
      match FirstIndexOf(s[1..], c)
      case None => None
      case Some(i) =>
        assert s[..i + 1] == [s[0]] + s[1..][..i];
        Some(i + 1)
  }

  /** `s.replace(from, to)` with a one-character string pattern: only the first occurrence is replaced. */
  function ReplaceFirst(s: string, from: char, to: char): (r: string)
    ensures |r| == |s|
    ensures from !in s ==> r == s
    ensures from in s ==> exists k :: 0 <= k < |s| && s[k] == from && from !in s[..k] && r == s[k := to]
  {
    match FirstIndexOf(s, from)
    case None => s
    case Some(k) => s[k := to]
  }

  /** The regular-expression class `\w`. */
  predicate IsWordChar(c: char) {
    'a' <= c <= 'z' || 'A' <= c <= 'Z' || IsDigit(c) || c == '_'
  }

  /** Position `i` of `s` matches `\b\w`: a word character at the start or after a non-word character. */
  predicate StartsWord(s: string, i: nat)
    requires i < |s|
  {
    IsWordChar(s[i]) && (i == 0 || !IsWordChar(s[i - 1]))
  }

  /**
    * `s.replace(/\b\w/g, l => l.toUpperCase())`, scanning left to right;
    * `afterWord` says whether the character before `s` was a word character.
    */
  function CapitalizeFrom(s: string, afterWord: bool): (r: string)
    ensures |r| == |s|
    ensures |s| > 0 ==> r[0] == if IsWordChar(s[0]) && !afterWord then ToUpper(s[0]) else s[0]
    ensures forall i :: 0 < i < |s| ==> r[i] == if StartsWord(s, i) then ToUpper(s[i]) else s[i]
  {
    if s == [] then []
    else
      var c := if IsWordChar(s[0]) && !afterWord then ToUpper(s[0]) else s[0];
      var rest := CapitalizeFrom(s[1..], IsWordChar(s[0]));
      assert forall i :: 1 < i < |s| ==> StartsWord(s[1..], i - 1) == StartsWord(s, i);
      [c] + rest
  }

  /** `getSeverityLabel`: the first `_` becomes a space, then every word's first character is upper-cased. */
  function SeverityLabel(severity: string): (r: string)
    ensures |r| == |severity|
    ensures forall i :: 0 <= i < |severity| ==>
              var spaced := ReplaceFirst(severity, '_', ' ');
              r[i] == if StartsWord(spaced, i) then ToUpper(spaced[i]) else spaced[i]
  {
    CapitalizeFrom(ReplaceFirst(severity, '_', ' '), false)
  }

  /** A non-empty run of lower-case ASCII letters. */
  predicate LowerWord(w: string) {
    |w| > 0 && forall i :: 0 <= i < |w| ==> 'a' <= w[i] <= 'z'
  }

  /** A word with its first letter upper-cased. */
  function Capitalized(w: string): string
    requires |w| > 0
  {
    [ToUpper(w[0])] + w[1..]
  }

  /** The first occurrence is the one with no earlier occurrence. */
  lemma FirstIndexOfAt(s: string, c: char, k: nat)
    requires k < |s| && s[k] == c && c !in s[..k]
    ensures FirstIndexOf(s, c) == Some(k)
  {
    assert s[..k + 1][k] == c;
  }

  /** Capitalising a concatenation capitalises each part, the second in the context of the first's last character. */
  lemma {:induction false} CapitalizeAppend(x: string, y: string, afterWord: bool)
    ensures CapitalizeFrom(x + y, afterWord) ==
            CapitalizeFrom(x, afterWord) + CapitalizeFrom(y, if x == [] then afterWord else IsWordChar(x[|x| - 1]))
  {
    if x == [] {
      assert x + y == y;
    } else {
      assert (x + y)[1..] == x[1..] + y;
      CapitalizeAppend(x[1..], y, IsWordChar(x[0]));
    }
  }

  /** Inside a word nothing is capitalised. */
  lemma {:induction false} WordTailUnchanged(w: string)
    requires forall i :: 0 <= i < |w| ==> IsWordChar(w[i])
    ensures CapitalizeFrom(w, true) == w
  {
    if w != [] {
      WordTailUnchanged(w[1..]);
    }
  }

  /** A one-word key is shown capitalised. */
  lemma OneWordLabel(w: string)
    requires LowerWord(w)
    ensures SeverityLabel(w) == Capitalized(w)
  {
    assert '_' !in w;
    WordTailUnchanged(w[1..]);
  }

  lemma ConcatAssoc(x: string, y: string, z: string)
    ensures x + (y + z) == (x + y) + z
  {
  }

  /** A capitalised word followed by a space. */
  lemma WordThenSpace(a: string)
    requires LowerWord(a)
    ensures CapitalizeFrom(a + " ", false) == Capitalized(a) + " "
  {
    CapitalizeAppend(a, " ", false);
    WordTailUnchanged(a[1..]);
  }

  /** A key of two words joined by `_` is shown as two capitalised words. */
  lemma {:induction false} UnderscoreKeyLabel(a: string, b: string)
    requires LowerWord(a) && LowerWord(b)
    ensures SeverityLabel(a + "_" + b) == Capitalized(a) + " " + Capitalized(b)
  {
    var s := a + "_" + b;
    assert s[..|a|] == a;
    FirstIndexOfAt(s, '_', |a|);
    var spaced := ReplaceFirst(s, '_', ' ');
    assert spaced == (a + " ") + b;
    CapitalizeAppend(a + " ", b, false);
    WordThenSpace(a);
    WordTailUnchanged(b[1..]);
    assert CapitalizeFrom(b, false) == Capitalized(b);
  }

  /** After a non-word character, `b_c` is capitalised only at `b`: `_` is a word character. */
  lemma WordsJoinedByUnderscore(b: string, c: string)
    requires LowerWord(b) && LowerWord(c)
    ensures CapitalizeFrom(b + "_" + c, false) == Capitalized(b) + "_" + c
  {
    var rest := b + "_" + c;
    assert rest[1..] == b[1..] + "_" + c;
    assert forall i :: 0 <= i < |rest| ==> IsWordChar(rest[i]);
    WordTailUnchanged(rest[1..]);
    assert CapitalizeFrom(rest, false) == [ToUpper(b[0])] + rest[1..];
    ConcatAssoc([ToUpper(b[0])], b[1..], "_" + c);
  }

  /** Only the first underscore becomes a space, and the word after a kept underscore is not capitalised. */
  lemma {:induction false} SecondUnderscoreKept(a: string, b: string, c: string)
    requires LowerWord(a) && LowerWord(b) && LowerWord(c)
    ensures SeverityLabel(a + "_" + b + "_" + c) == Capitalized(a) + " " + Capitalized(b) + "_" + c
  {
    var rest := b + "_" + c;
    var s := a + "_" + rest;
    assert s == a + "_" + b + "_" + c;
    assert s[..|a|] == a;
    FirstIndexOfAt(s, '_', |a|);
    assert ReplaceFirst(s, '_', ' ') == (a + " ") + rest;
    CapitalizeAppend(a + " ", rest, false);
    WordThenSpace(a);
    WordsJoinedByUnderscore(b, c);
    ConcatAssoc(Capitalized(a) + " ", Capitalized(b) + "_", c);
    ConcatAssoc(Capitalized(a) + " ", Capitalized(b), "_");
  }

  /** The two-word key used by the assessment reads "Moderately Severe". */
  lemma ModeratelySevereLabel(key: string)
    requires key == "moderately_severe"
    ensures SeverityLabel(key) == "Moderately Severe"
  {
    var a, b := "moderately", "severe";
    ModeratelySevereWords();
    assert key == a + "_" + b;
    UnderscoreKeyLabel(a, b);
  }

  lemma ModeratelySevereWords()
    ensures LowerWord("moderately") && LowerWord("severe")
    ensures Capitalized("moderately") + " " + Capitalized("severe") == "Moderately Severe"
  {
  }
}

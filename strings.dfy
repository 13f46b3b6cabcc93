/**
 * The Foundation string operations the core relies on, over `string` = `seq<char>`
 * (one element per Unicode scalar): character classes, trimming, ASCII
 * case-insensitive search, decimal rendering of integers, and splitting/joining.
 */
module Strings {
  import opened Wrappers

  /** `CharacterSet.whitespaces`: general category Zs plus CHARACTER TABULATION. */
  predicate IsBlank(c: char) {
    c == '\t' || c == ' ' || c == '\U{00A0}' || c == '\U{1680}'
    || ('\U{2000}' <= c <= '\U{200A}') || c == '\U{202F}' || c == '\U{205F}' || c == '\U{3000}'
  }

  /** `CharacterSet.newlines`: U+000A through U+000D, U+0085, U+2028 and U+2029. */
  predicate IsNewline(c: char) {
    ('\n' <= c <= '\r') || c == '\U{0085}' || c == '\U{2028}' || c == '\U{2029}'
  }

  /** `CharacterSet.whitespacesAndNewlines`. */
  predicate IsWhitespace(c: char) {
    IsBlank(c) || IsNewline(c)
  }

  predicate AllWhitespace(s: string) {
    forall i :: 0 <= i < |s| ==> IsWhitespace(s[i])
  }

  function TrimStart(s: string): (r: string)
    ensures |r| <= |s| && r == s[|s| - |r|..]
    ensures r == [] || !IsWhitespace(r[0])
    ensures AllWhitespace(s[..|s| - |r|])
  {
    if s != [] && IsWhitespace(s[0]) then
      var r := TrimStart(s[1..]);
      TrimStartStep(s, r);
      r
    else s
  }

  /** Dropping one leading whitespace character before trimming the rest. */
  lemma TrimStartStep(s: string, r: string)
    requires s != [] && IsWhitespace(s[0])
    requires |r| <= |s| - 1 && r == s[1..][|s| - 1 - |r|..] && AllWhitespace(s[1..][..|s| - 1 - |r|])
    ensures r == s[|s| - |r|..] && AllWhitespace(s[..|s| - |r|])
  {
    var k := |s| - |r|;
    assert s[1..][k - 1..] == s[k..];
    forall i | 0 <= i < k ensures IsWhitespace(s[..k][i]) {
      if i > 0 { assert s[..k][i] == s[1..][..k - 1][i - 1]; }
    }
  }

  function TrimEnd(s: string): (r: string)
    ensures |r| <= |s| && r == s[..|r|]
    ensures r == [] || !IsWhitespace(r[|r| - 1])
    ensures AllWhitespace(s[|r|..])
  {
    if s != [] && IsWhitespace(s[|s| - 1]) then
      var r := TrimEnd(s[..|s| - 1]);
      TrimEndStep(s, r);
      r
    else s
  }

  /** Dropping one trailing whitespace character before trimming the rest. */
  lemma TrimEndStep(s: string, r: string)
    requires s != [] && IsWhitespace(s[|s| - 1])
    requires |r| <= |s| - 1 && r == s[..|s| - 1][..|r|] && AllWhitespace(s[..|s| - 1][|r|..])
    ensures r == s[..|r|] && AllWhitespace(s[|r|..])
  {
    var n := |s| - 1;
    assert s[..n][..|r|] == s[..|r|];
    forall i | 0 <= i < |s| - |r| ensures IsWhitespace(s[|r|..][i]) {
      if i < n - |r| { assert s[|r|..][i] == s[..n][|r|..][i]; }
    }
  }

  /** `r` is a slice of `s` with nothing but whitespace before and after it. */
  predicate IsTrimmingOf(s: string, r: string) {
    exists a :: 0 <= a && a + |r| <= |s| && r == s[a..a + |r|]
      && AllWhitespace(s[..a]) && AllWhitespace(s[a + |r|..])
  }

  /** `trimmingCharacters(in: .whitespacesAndNewlines)` */
  function Trim(s: string): (r: string)
    ensures |r| <= |s|
    ensures r == [] || (!IsWhitespace(r[0]) && !IsWhitespace(r[|r| - 1]))
    ensures r == [] <==> AllWhitespace(s)
    ensures s == [] || (!IsWhitespace(s[0]) && !IsWhitespace(s[|s| - 1])) ==> r == s
    ensures IsTrimmingOf(s, r)
  {
    TrimSlices(s);
    TrimIsSlice(s);
    TrimEnd(TrimStart(s))
  }

  /** The trimmed text is the slice between the leading and the trailing whitespace. */
  lemma TrimIsSlice(s: string)
    ensures IsTrimmingOf(s, TrimEnd(TrimStart(s)))
  {
    var t := TrimStart(s);
    var r := TrimEnd(t);
    var a := |s| - |t|;
    assert r == s[a..a + |r|];
    assert s[a + |r|..] == t[|r|..];
    assert AllWhitespace(s[..a]) && AllWhitespace(s[a + |r|..]);
  }

  lemma TrimSlices(s: string)
    ensures var r := TrimEnd(TrimStart(s)); r == [] <==> AllWhitespace(s)
    ensures var r := TrimEnd(TrimStart(s)); r != [] ==> r[0] == TrimStart(s)[0]
  {
    var t := TrimStart(s);
    TrimStartEmpty(s);
    TrimEndEmpty(t);
    if t != [] {
      assert !IsWhitespace(t[0]);
    }
  }

  /** Trimming the front leaves nothing exactly when every character is whitespace. */
  lemma TrimStartEmpty(s: string)
    ensures TrimStart(s) == [] <==> AllWhitespace(s)
  {
    var t := TrimStart(s);
    var k := |s| - |t|;
    if t == [] {
      assert s[..k] == s;
    } else {
      assert s[k] == t[0];
    }
  }

  /** Trimming the back leaves nothing exactly when every character is whitespace. */
  lemma TrimEndEmpty(t: string)
    ensures TrimEnd(t) == [] <==> AllWhitespace(t)
  {
    var r := TrimEnd(t);
    if r == [] {
      assert t[|r|..] == t;
    } else {
      assert t[|r| - 1] == r[|r| - 1];
    }
  }

  /** ASCII lower-casing, the approximation used for case-insensitive comparison. */
  function Lower(c: char): char {
    if 'A' <= c <= 'Z' then (c as int + 32) as char else c
  }

  /** Every character lower-cased. */
  function Lowered(s: string): (r: string)
    ensures |r| == |s|
  {
    if s == [] then [] else Lowered(s[..|s| - 1]) + [Lower(s[|s| - 1])]
  }

  /** `pat` occurs case-insensitively in `s` at position `i`. */
  predicate MatchesAt(s: string, pat: string, i: nat) {
    i + |pat| <= |s| && Lowered(s[i..i + |pat|]) == Lowered(pat)
  }

  function FindFrom(s: string, pat: string, i: nat): (r: Option<nat>)
    requires i <= |s|
    ensures r.Some? ==> i <= r.value && MatchesAt(s, pat, r.value)
    ensures r.Some? ==> forall j :: i <= j < r.value ==> !MatchesAt(s, pat, j)
    ensures r.None? ==> forall j :: i <= j <= |s| ==> !MatchesAt(s, pat, j)
    decreases |s| - i
  {
    if MatchesAt(s, pat, i) then Some(i)
    else if i == |s| then None
    else FindFrom(s, pat, i + 1)
  }

  /** `range(of: pat, options: .caseInsensitive)`: the leftmost occurrence. */
  function FindCaseInsensitive(s: string, pat: string): (r: Option<nat>)
    ensures r.Some? ==> MatchesAt(s, pat, r.value)
    ensures r.Some? ==> forall j :: 0 <= j < r.value ==> !MatchesAt(s, pat, j)
    ensures r.None? ==> forall j :: 0 <= j <= |s| ==> !MatchesAt(s, pat, j)
  {
    FindFrom(s, pat, 0)
  }

  predicate Contains(s: string, pat: string) {
    exists j :: 0 <= j <= |s| && MatchesAt(s, pat, j)
  }

  /** `replacingOccurrences(of: [from], with: [to])` for a one-character pattern. */
  function ReplaceChar(s: string, from: char, to: char): (r: string)
    ensures |r| == |s|
    ensures forall i :: 0 <= i < |s| ==> r[i] == if s[i] == from then to else s[i]
    ensures from != to ==> from !in r
  {
    if s == [] then [] else ReplaceChar(s[..|s| - 1], from, to) + [if s[|s| - 1] == from then to else s[|s| - 1]]
  }

  // ---- decimal text of integers (Swift string interpolation of an Int, `Int(String)`)

  predicate IsDigit(c: char) {
    '0' <= c <= '9'
  }

  predicate AllDigits(s: string) {
    forall i :: 0 <= i < |s| ==> IsDigit(s[i])
  }

  function DigitChar(d: nat): (c: char)
    requires d < 10
    ensures IsDigit(c)
  {
    "0123456789"[d]
  }

  function DigitValue(c: char): (d: nat)
    requires IsDigit(c)
    ensures d < 10
  {
    c as int - '0' as int
  }

  function NatToString(n: nat): (r: string)
    ensures |r| >= 1 && AllDigits(r)
    ensures n < 10 <==> |r| == 1
  {
    if n < 10 then [DigitChar(n)] else NatToString(n / 10) + [DigitChar(n % 10)]
  }

  /** The value of a non-empty string of ASCII digits (`Int(String)`, leading zeros allowed). */
  function DigitsValue(s: string): nat
    requires AllDigits(s)
  {
    if s == [] then 0 else DigitsValue(s[..|s| - 1]) * 10 + DigitValue(s[|s| - 1])
  }

  lemma {:induction false} DigitsValueOfNatToString(n: nat)
    ensures DigitsValue(NatToString(n)) == n
  {
    if n >= 10 {
      var s := NatToString(n);
      assert s[..|s| - 1] == NatToString(n / 10);
      DigitsValueOfNatToString(n / 10);
    }
  }

  /** `"\(n)"` for an `Int`. */
  function IntToString(n: int): (r: string)
    ensures |r| >= 1
    ensures forall i :: 0 <= i < |r| ==> IsDigit(r[i]) || (i == 0 && r[i] == '-')
    ensures n >= 0 ==> r == NatToString(n)
  {
    if n < 0 then "-" + NatToString(-n) else NatToString(n)
  }

  /** `String(format: "%02d", n)`: at least two characters, zero-padded after any sign. */
  function Pad2(n: int): (r: string)
    ensures 0 <= n < 100 ==> |r| == 2 && AllDigits(r) && DigitsValue(r) == n
  {
    if 0 <= n < 10 then
      assert ("0" + NatToString(n))[..1] == "0";
      assert DigitsValue("0") == 0 by { assert "0"[..0] == []; }
      "0" + NatToString(n)
    else
      DigitsValueOfNatToString(if n < 0 then 0 else n);
      IntToString(n)
  }

  // ---- components(separatedBy:) and joined(separator:)

  /** `components(separatedBy: String(sep))`: always at least one part. */
  function Split(s: string, sep: char): (r: seq<string>)
    ensures |r| >= 1
  {
    if s == [] then [""]
    else
      var rest := Split(s[1..], sep);
      if s[0] == sep then [""] + rest else [[s[0]] + rest[0]] + rest[1..]
  }

  function Join(parts: seq<string>, sep: char): string {
    if |parts| == 0 then ""
    else if |parts| == 1 then parts[0]
    else parts[0] + [sep] + Join(parts[1..], sep)
  }

  lemma {:induction false} SplitPrefix(p: string, t: string, sep: char)
    requires sep !in p
    ensures Split(p + t, sep) == [p + Split(t, sep)[0]] + Split(t, sep)[1..]
  {
    if p != [] {
      assert (p + t)[1..] == p[1..] + t;
      SplitPrefix(p[1..], t, sep);
      var x := Split(t, sep);
      assert Split(p[1..] + t, sep) == [p[1..] + x[0]] + x[1..];
      assert [p[0]] + (p[1..] + x[0]) == p + x[0];
    } else {
      assert p + t == t;
      var x := Split(t, sep);
      assert p + x[0] == x[0];
      assert [x[0]] + x[1..] == x;
    }
  }

  /** Splitting a joined list gives the list back when no part contains the separator. */
  lemma {:induction false} SplitJoin(parts: seq<string>, sep: char)
    requires |parts| >= 1
    requires forall i :: 0 <= i < |parts| ==> sep !in parts[i]
    ensures Split(Join(parts, sep), sep) == parts
  {
    if |parts| == 1 {
      SplitPrefix(parts[0], "", sep);
      assert parts[0] + "" == parts[0];
    } else {
      var rest := Join(parts[1..], sep);
      assert parts[0] + [sep] + rest == parts[0] + ([sep] + rest);
      SplitPrefix(parts[0], [sep] + rest, sep);
      assert ([sep] + rest)[1..] == rest;
      var y := Split([sep] + rest, sep);
      assert y == [""] + Split(rest, sep);
      SplitJoin(parts[1..], sep);
      assert parts[0] + y[0] == parts[0];
      assert y[1..] == parts[1..];
      assert parts == [parts[0]] + parts[1..];
    }
  }

  /** Joining one more part appends the separator and that part. */
  lemma {:induction false} JoinSnoc(parts: seq<string>, part: string, sep: char)
    requires |parts| >= 1
    ensures Join(parts + [part], sep) == Join(parts, sep) + [sep] + part
  {
    if |parts| == 1 {
      assert (parts + [part])[1..] == [part];
    } else {
      assert (parts + [part])[0] == parts[0] && (parts + [part])[1..] == parts[1..] + [part];
      JoinSnoc(parts[1..], part, sep);
    }
  }

  /** A text without the separator splits into itself alone. */
  lemma SplitAbsent(s: string, sep: char)
    requires sep !in s
    ensures Split(s, sep) == [s]
  {
    SplitPrefix(s, "", sep);
    assert s + "" == s;
  }

  /** Appending a separator and a separator-free field to a text appends that field to its split. */
  lemma {:induction false} SplitSuffix(p: string, q: string, sep: char)
    requires sep !in q
    ensures Split(p + [sep] + q, sep) == Split(p, sep) + [q]
  {
    if p == [] {
      assert p + [sep] + q == [sep] + q;
      assert ([sep] + q)[1..] == q;
      SplitAbsent(q, sep);
    } else {
      assert (p + [sep] + q)[0] == p[0];
      assert (p + [sep] + q)[1..] == p[1..] + [sep] + q;
      SplitSuffix(p[1..], q, sep);
    }
  }

  /** The number of occurrences of `c` in `s`. */
  function Count(s: string, c: char): nat {
    if s == [] then 0 else Count(s[..|s| - 1], c) + (if s[|s| - 1] == c then 1 else 0)
  }

  lemma {:induction false} CountAppend(a: string, b: string, c: char)
    ensures Count(a + b, c) == Count(a, c) + Count(b, c)
  {
    if b != [] {
      assert (a + b)[..|a + b| - 1] == a + b[..|b| - 1];
      CountAppend(a, b[..|b| - 1], c);
    } else {
      assert a + b == a;
    }
  }

  lemma {:induction false} CountAbsent(s: string, c: char)
    requires c !in s
    ensures Count(s, c) == 0
  {
    if s != [] {
      assert c !in s[..|s| - 1];
      CountAbsent(s[..|s| - 1], c);
    }
  }

  /** A separator and a separator-free field add exactly one occurrence of the separator. */
  lemma CountSuffix(p: string, q: string, sep: char)
    requires sep !in q
    ensures Count(p + [sep] + q, sep) == Count(p, sep) + 1
  {
    CountAppend(p, [sep], sep);
    CountAppend(p + [sep], q, sep);
    CountAbsent(q, sep);
    assert Count([sep], sep) == 1 by { assert [sep][..0] == []; }
  }

  lemma {:induction false} CountJoin(parts: seq<string>, sep: char)
    requires |parts| >= 1
    requires forall i :: 0 <= i < |parts| ==> sep !in parts[i]
    ensures Count(Join(parts, sep), sep) == |parts| - 1
  {
    if |parts| == 1 {
      CountAbsent(parts[0], sep);
    } else {
      CountAbsent(parts[0], sep);
      CountAppend(parts[0], [sep], sep);
      assert Count([sep], sep) == 1 by { assert [sep][..0] == []; }
      CountAppend(parts[0] + [sep], Join(parts[1..], sep), sep);
      CountJoin(parts[1..], sep);
    }
  }

  // ---- components(separatedBy: .whitespaces).filter { !$0.isEmpty }.joined(separator: " ")

  /** `components(separatedBy: .whitespaces)` */
  function SplitBlanks(s: string): (r: seq<string>)
    ensures |r| >= 1
    ensures forall i, k :: 0 <= i < |r| && 0 <= k < |r[i]| ==> !IsBlank(r[i][k])
  {
    if s == [] then [""]
    else
      var rest := SplitBlanks(s[1..]);
      if IsBlank(s[0]) then [""] + rest else [[s[0]] + rest[0]] + rest[1..]
  }

  function NonEmpty(parts: seq<string>): (r: seq<string>)
    ensures forall i :: 0 <= i < |r| ==> r[i] != [] && r[i] in parts
  {
    if parts == [] then []
    else if parts[0] == [] then NonEmpty(parts[1..])
    else [parts[0]] + NonEmpty(parts[1..])
  }

  /** No blank at either end, every blank is a plain space, and no two blanks are adjacent. */
  predicate SingleSpaced(s: string) {
    && (s == [] || (!IsBlank(s[0]) && !IsBlank(s[|s| - 1])))
    && (forall i :: 0 <= i < |s| && IsBlank(s[i]) ==> s[i] == ' ')
    && (forall i :: 0 <= i < |s| - 1 && IsBlank(s[i]) ==> !IsBlank(s[i + 1]))
  }

  lemma {:induction false} JoinWordsSingleSpaced(words: seq<string>)
    requires forall i :: 0 <= i < |words| ==> words[i] != []
    requires forall i, k :: 0 <= i < |words| && 0 <= k < |words[i]| ==> !IsBlank(words[i][k])
    ensures SingleSpaced(Join(words, ' '))
  {
    if |words| >= 2 {
      JoinWordsSingleSpaced(words[1..]);
      var w, rest := words[0], Join(words[1..], ' ');
      var s := w + [' '] + rest;
      assert rest != [] by {
        assert words[1..][0] == words[1];
        JoinFirst(words[1..], ' ');
      }
      forall i | 0 <= i < |s| && IsBlank(s[i])
        ensures s[i] == ' ' && (i < |s| - 1 ==> !IsBlank(s[i + 1]))
      {
        if i == |w| {
          assert s[i + 1] == rest[0];
        } else if i > |w| {
          assert s[i] == rest[i - |w| - 1];
          if i < |s| - 1 {
            assert s[i + 1] == rest[i - |w|];
          }
        }
      }
      assert s[0] == words[0][0];
      assert s[|s| - 1] == rest[|rest| - 1];
    } else if |words| == 1 {
      assert Join(words, ' ') == words[0];
      forall i | 0 <= i < |words[0]| ensures !IsBlank(words[0][i]) {
      }
    }
  }

  lemma {:induction false} JoinFirst(words: seq<string>, sep: char)
    requires |words| >= 1 && words[0] != []
    ensures Join(words, sep) != [] && Join(words, sep)[0] == words[0][0]
  {
  }

  /** The title clean-up: runs of blanks become one space and blanks at the ends go. */
  function CollapseBlanks(s: string): (r: string)
    ensures SingleSpaced(r)
  {
    var words := NonEmpty(SplitBlanks(s));
    JoinWordsSingleSpaced(words);
    Join(words, ' ')
  }

  /** The clean-up keeps the words of the text, in order: only the blanks between them change. */
  lemma CollapseKeepsWords(s: string)
    ensures NonEmpty(SplitBlanks(CollapseBlanks(s))) == NonEmpty(SplitBlanks(s))
  {
    var words := NonEmpty(SplitBlanks(s));
    NonEmptyWords(SplitBlanks(s));
    if words == [] {
      assert CollapseBlanks(s) == "";
      assert NonEmpty(SplitBlanks("")) == [];
    } else {
      SplitBlanksJoin(words);
      NonEmptyOfWords(words);
    }
  }

  /** The non-empty parts of a split hold no blank. */
  lemma {:induction false} NonEmptyWords(parts: seq<string>)
    requires forall i, k :: 0 <= i < |parts| && 0 <= k < |parts[i]| ==> !IsBlank(parts[i][k])
    ensures var words := NonEmpty(parts);
      forall i, k :: 0 <= i < |words| && 0 <= k < |words[i]| ==> !IsBlank(words[i][k])
  {
    if parts != [] {
      NonEmptyWords(parts[1..]);
    }
  }

  /** Dropping the empty parts of a list without any changes nothing. */
  lemma {:induction false} NonEmptyOfWords(parts: seq<string>)
    requires forall i :: 0 <= i < |parts| ==> parts[i] != []
    ensures NonEmpty(parts) == parts
  {
    if parts != [] {
      NonEmptyOfWords(parts[1..]);
      assert parts == [parts[0]] + parts[1..];
    }
  }

  /** A blank-free prefix joins the first part of the split of what follows. */
  lemma {:induction false} SplitBlanksPrefix(p: string, t: string)
    requires forall k :: 0 <= k < |p| ==> !IsBlank(p[k])
    ensures SplitBlanks(p + t) == [p + SplitBlanks(t)[0]] + SplitBlanks(t)[1..]
  {
    if p != [] {
      assert (p + t)[1..] == p[1..] + t;
      SplitBlanksPrefix(p[1..], t);
      var x := SplitBlanks(t);
      assert SplitBlanks(p[1..] + t) == [p[1..] + x[0]] + x[1..];
      assert [p[0]] + (p[1..] + x[0]) == p + x[0];
    } else {
      assert p + t == t;
      var x := SplitBlanks(t);
      assert p + x[0] == x[0];
      assert [x[0]] + x[1..] == x;
    }
  }

  /** Splitting blank-free parts joined by single spaces gives the parts back. */
  lemma {:induction false} SplitBlanksJoin(parts: seq<string>)
    requires |parts| >= 1
    requires forall i, k :: 0 <= i < |parts| && 0 <= k < |parts[i]| ==> !IsBlank(parts[i][k])
    ensures SplitBlanks(Join(parts, ' ')) == parts
  {
    if |parts| == 1 {
      SplitBlanksPrefix(parts[0], "");
      assert parts[0] + "" == parts[0];
    } else {
      var rest := Join(parts[1..], ' ');
      assert parts[0] + [' '] + rest == parts[0] + ([' '] + rest);
      SplitBlanksPrefix(parts[0], [' '] + rest);
      assert ([' '] + rest)[1..] == rest;
      var y := SplitBlanks([' '] + rest);
      assert y == [""] + SplitBlanks(rest);
      SplitBlanksJoin(parts[1..]);
      assert parts[0] + y[0] == parts[0];
      assert y[1..] == parts[1..];
      assert parts == [parts[0]] + parts[1..];
    }
  }

  /** Collapsing the blanks of the empty text leaves it empty. */
  lemma CollapseEmpty()
    ensures CollapseBlanks("") == ""
  {
    assert NonEmpty(SplitBlanks("")) == [];
  }
}

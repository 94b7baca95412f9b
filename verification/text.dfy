/**
 * The handful of Python `str` operations the modelled code relies on,
 * written over `string` (a sequence of Unicode scalar values).
 */
module Text {
  import opened Wrappers

  /** The characters `str.strip()` and `str.split()` treat as whitespace. */
  predicate IsSpace(c: char) {
    c == ' ' || c == '\t' || c == '\n' || c == '\r' || c == '\U{0B}' || c == '\U{0C}'
    || ('\U{1C}' <= c <= '\U{1F}') || c == '\U{85}' || c == '\U{A0}' || c == '\U{1680}'
    || ('\U{2000}' <= c <= '\U{200A}') || c == '\U{2028}' || c == '\U{2029}'
    || c == '\U{202F}' || c == '\U{205F}' || c == '\U{3000}'
  }

  predicate AllSpace(s: string) {
    forall i :: 0 <= i < |s| ==> IsSpace(s[i])
  }

  /** The characters `str.splitlines()` breaks at. */
  predicate IsLineBreak(c: char) {
    c == '\n' || c == '\r' || c == '\U{0B}' || c == '\U{0C}' || ('\U{1C}' <= c <= '\U{1E}')
    || c == '\U{85}' || c == '\U{2028}' || c == '\U{2029}'
  }

  predicate IsDigit(c: char) { '0' <= c <= '9' }

  predicate AllDigits(s: string) {
    forall i :: 0 <= i < |s| ==> IsDigit(s[i])
  }

  /** The length of the run of ASCII digits that starts `s`, as `\d+` matches it. */
  function LeadingDigits(s: string): (n: nat)
    ensures n <= |s|
    ensures forall i :: 0 <= i < n ==> IsDigit(s[i])
    ensures n < |s| ==> !IsDigit(s[n])
  {
    if s == [] || !IsDigit(s[0]) then 0 else 1 + LeadingDigits(s[1..])
  }

  /** The length of the run of whitespace that starts `s`. */
  function LeadingSpaces(s: string): (n: nat)
    ensures n <= |s|
    ensures forall i :: 0 <= i < n ==> IsSpace(s[i])
    ensures n < |s| ==> !IsSpace(s[n])
  {
    if s != [] && IsSpace(s[0]) then
      var m := LeadingSpaces(s[1..]);
      assert forall i :: 1 <= i < 1 + m ==> s[i] == s[1..][i - 1];
      1 + m
    else 0
  }

  /** The length of the run of whitespace that ends `s`. */
  function TrailingSpaces(s: string): (n: nat)
    ensures n <= |s|
    ensures forall i :: |s| - n <= i < |s| ==> IsSpace(s[i])
    ensures n < |s| ==> !IsSpace(s[|s| - n - 1])
  {
    if s != [] && IsSpace(s[|s| - 1]) then
      var m := TrailingSpaces(s[..|s| - 1]);
      assert forall i :: |s| - 1 - m <= i < |s| - 1 ==> s[i] == s[..|s| - 1][i];
      1 + m
    else 0
  }

  /** `str.lstrip()` */
  function LStrip(s: string): (r: string)
    ensures r == [] || !IsSpace(r[0])
  {
    s[LeadingSpaces(s)..]
  }

  /** `str.rstrip()` */
  function RStrip(s: string): (r: string)
    ensures r == [] || !IsSpace(r[|r| - 1])
  {
    s[..|s| - TrailingSpaces(s)]
  }

  /** `str.strip()` */
  function Strip(s: string): (r: string)
    ensures |r| <= |s|
    ensures r == [] || (!IsSpace(r[0]) && !IsSpace(r[|r| - 1]))
    ensures r == [] <==> AllSpace(s)
  {
    var l := LStrip(s);
    var n := LeadingSpaces(s);
    var r := RStrip(l);
    assert r == [] ==> l == [] by {
      if l != [] { assert !IsSpace(l[0]); assert TrailingSpaces(l) < |l|; }
    }
    assert r != [] ==> r[0] == l[0];
    r
  }

  lemma {:induction false} LeadingSpacesPrefix(w: string, s: string)
    requires AllSpace(w)
    ensures LeadingSpaces(w + s) == |w| + LeadingSpaces(s)
  {
    if w == [] {
      assert w + s == s;
    } else {
      var t := w + s;
      assert t[0] == w[0];
      assert t[1..] == w[1..] + s;
      LeadingSpacesPrefix(w[1..], s);
    }
  }

  lemma {:induction false} LeadingSpacesAppend(s: string, w: string)
    requires AllSpace(w)
    ensures LeadingSpaces(s + w) == if LeadingSpaces(s) < |s| then LeadingSpaces(s) else |s| + |w|
  {
    var t := s + w;
    if s == [] {
      assert t == w + [];
      LeadingSpacesPrefix(w, []);
    } else {
      assert t[0] == s[0];
      if IsSpace(s[0]) {
        assert t[1..] == s[1..] + w;
        LeadingSpacesAppend(s[1..], w);
      }
    }
  }

  lemma {:induction false} TrailingSpacesSuffix(s: string, w: string)
    requires AllSpace(w)
    ensures TrailingSpaces(s + w) == TrailingSpaces(s) + |w|
  {
    if w == [] {
      assert s + w == s;
    } else {
      var t := s + w;
      assert t[|t| - 1] == w[|w| - 1];
      assert t[..|t| - 1] == s + w[..|w| - 1];
      TrailingSpacesSuffix(s, w[..|w| - 1]);
    }
  }

  lemma LStripPadded(w1: string, s: string, w2: string)
    requires AllSpace(w1) && AllSpace(w2)
    ensures LStrip(w1 + s + w2) == if LStrip(s) == [] then [] else LStrip(s) + w2
  {
    var t := w1 + s + w2;
    assert t == w1 + (s + w2);
    LeadingSpacesPrefix(w1, s + w2);
    LeadingSpacesAppend(s, w2);
    var n := LeadingSpaces(s);
    if n < |s| {
      assert LeadingSpaces(t) == |w1| + n;
      assert t[|w1| + n..] == s[n..] + w2;
    } else {
      assert LeadingSpaces(t) == |t|;
    }
  }

  lemma RStripSuffix(u: string, w: string)
    requires AllSpace(w)
    ensures RStrip(u + w) == RStrip(u)
  {
    TrailingSpacesSuffix(u, w);
    assert (u + w)[..|u| - TrailingSpaces(u)] == u[..|u| - TrailingSpaces(u)];
  }

  /** Whitespace around a text does not change what `strip()` returns. */
  lemma StripPadded(w1: string, s: string, w2: string)
    requires AllSpace(w1) && AllSpace(w2)
    ensures Strip(w1 + s + w2) == Strip(s)
  {
    LStripPadded(w1, s, w2);
    if LStrip(s) != [] {
      RStripSuffix(LStrip(s), w2);
    }
  }

  /** An occurrence of `sub` starts at index `j` of `s`. */
  predicate OccursAt(s: string, sub: string, j: int) {
    0 <= j <= |s| && sub <= s[j..]
  }

  /** `sub in s` */
  predicate Contains(s: string, sub: string) {
    exists j :: 0 <= j <= |s| && OccursAt(s, sub, j)
  }

  /** `s.find(sub)`, as an option: the first index where `sub` occurs. */
  function IndexOf(s: string, sub: string): (r: Option<nat>)
    ensures r.Some? ==> OccursAt(s, sub, r.value)
    ensures r.Some? ==> forall j :: 0 <= j < r.value ==> !OccursAt(s, sub, j)
    ensures r.None? ==> forall j :: !OccursAt(s, sub, j)
    decreases |s|
  {
    if sub <= s then Some(0)
    else if s == [] then None
    else
      match IndexOf(s[1..], sub)
      case None =>
        OccursShift(s, sub);
        None
      case Some(k) =>
        OccursShift(s, sub);
        Some(k + 1)
  }

  lemma OccursShift(s: string, sub: string)
    requires s != []
    ensures forall j :: 1 <= j ==> (OccursAt(s, sub, j) <==> OccursAt(s[1..], sub, j - 1))
  {
    forall j | 1 <= j <= |s| ensures s[j..] == s[1..][j - 1..] {}
  }

  lemma IndexOfContains(s: string, sub: string)
    ensures IndexOf(s, sub).Some? <==> Contains(s, sub)
  {
    if IndexOf(s, sub).Some? {
      assert OccursAt(s, sub, IndexOf(s, sub).value);
    }
  }

  /** `s.startswith(p)` */
  predicate StartsWith(s: string, p: string) { p <= s }

  /** `s.endswith(q)` */
  predicate EndsWith(s: string, q: string) {
    |q| <= |s| && s[|s| - |q|..] == q
  }

  lemma ConcatEnds(a: string, b: string)
    ensures StartsWith(a + b, a) && EndsWith(a + b, b)
  {
    assert (a + b)[..|a|] == a;
    assert (a + b)[|a|..] == b;
  }

  /** `s.split(sep)` for a non-empty separator: the pieces between non-overlapping occurrences, left to right. */
  function SplitOn(s: string, sep: string): (r: seq<string>)
    requires sep != []
    ensures |r| >= 1
    decreases |s|
  {
    match IndexOf(s, sep)
    case None => [s]
    case Some(i) => [s[..i]] + SplitOn(s[i + |sep|..], sep)
  }

  function Last(s: seq<string>): string
    requires s != []
  {
    s[|s| - 1]
  }

  lemma LastCons(x: string, tail: seq<string>)
    requires tail != []
    ensures Last([x] + tail) == Last(tail)
  {
  }

  /** No piece of `s.split(sep)` holds `sep`. */
  lemma {:induction false} SplitOnPiecesNoSep(s: string, sep: string)
    requires sep != []
    ensures forall p :: p in SplitOn(s, sep) ==> !Contains(p, sep)
    decreases |s|
  {
    if IndexOf(s, sep).None? {
      IndexOfContains(s, sep);
    } else {
      var i := IndexOf(s, sep).value;
      SplitOnFound(s, sep);
      SplitOnPiecesNoSep(s[i + |sep|..], sep);
      forall j | 0 <= j <= i && OccursAt(s[..i], sep, j) ensures false {
        assert s[..i][j..] <= s[j..];
        assert OccursAt(s, sep, j);
      }
    }
  }

  /** An occurrence inside a slice is an occurrence in the whole text. */
  lemma ContainsSlice(s: string, a: nat, b: nat, t: string)
    requires a <= b <= |s| && Contains(s[a..b], t)
    ensures Contains(s, t)
  {
    var j :| 0 <= j <= |s[a..b]| && OccursAt(s[a..b], t, j);
    assert s[a..b][j..] <= s[a + j..];
    assert OccursAt(s, t, a + j);
  }

  /** Every part of a join is a slice of the joined text. */
  lemma {:induction false} PartIsSlice(parts: seq<string>, sep: string, k: nat) returns (a: nat, b: nat)
    requires k < |parts|
    ensures a <= b <= |Join(parts, sep)| && Join(parts, sep)[a..b] == parts[k]
    decreases |parts|
  {
    var joined := Join(parts, sep);
    if |parts| == 1 {
      a, b := 0, |parts[0]|;
    } else {
      var tail := Join(parts[1..], sep);
      assert joined == parts[0] + sep + tail;
      if k == 0 {
        a, b := 0, |parts[0]|;
      } else {
        var c := |parts[0]| + |sep|;
        var a', b' := PartIsSlice(parts[1..], sep, k - 1);
        assert joined[c..] == tail;
        SliceOfSuffix(joined, c, a', b');
        a, b := c + a', c + b';
      }
    }
  }

  lemma SliceOfSuffix(s: string, c: nat, a: nat, b: nat)
    requires c <= |s| && a <= b <= |s| - c
    ensures s[c..][a..b] == s[c + a..c + b]
  {
  }

  /** Joining the pieces gives back `s`, so an occurrence in a piece is one in `s`. */
  lemma SplitOnPiecesContained(s: string, sep: string, t: string)
    requires sep != []
    ensures forall k :: 0 <= k < |SplitOn(s, sep)| && Contains(SplitOn(s, sep)[k], t) ==> Contains(s, t)
  {
    JoinSplit(s, sep);
    forall k | 0 <= k < |SplitOn(s, sep)| && Contains(SplitOn(s, sep)[k], t) ensures Contains(s, t) {
      var a, b := PartIsSlice(SplitOn(s, sep), sep, k);
      ContainsSlice(s, a, b, t);
    }
  }

  /** `strip()` keeps a slice of its input, so it adds no occurrence. */
  lemma StripContains(s: string, t: string)
    requires Contains(Strip(s), t)
    ensures Contains(s, t)
  {
    var n := LeadingSpaces(s);
    assert Strip(s) == s[n..n + |Strip(s)|];
    ContainsSlice(s, n, n + |Strip(s)|, t);
  }

  /** `s.split(sep)[-1]` holds no `sep`. */
  lemma {:induction false} SplitOnLastNoSep(s: string, sep: string)
    requires sep != []
    ensures !Contains(Last(SplitOn(s, sep)), sep)
    decreases |s|
  {
    if IndexOf(s, sep).None? {
      IndexOfContains(s, sep);
    } else {
      var i := IndexOf(s, sep).value;
      SplitOnFound(s, sep);
      LastCons(s[..i], SplitOn(s[i + |sep|..], sep));
      SplitOnLastNoSep(s[i + |sep|..], sep);
    }
  }

  /** `s.split(sep)[-1]` is a suffix of `s`. */
  lemma {:induction false} SplitOnLastSuffix(s: string, sep: string)
    requires sep != []
    ensures EndsWith(s, Last(SplitOn(s, sep)))
    decreases |s|
  {
    if IndexOf(s, sep).Some? {
      var i := IndexOf(s, sep).value;
      SplitOnFound(s, sep);
      var rest := s[i + |sep|..];
      LastCons(s[..i], SplitOn(rest, sep));
      SplitOnLastSuffix(rest, sep);
      var l := Last(SplitOn(rest, sep));
      assert s[|s| - |l|..] == rest[|rest| - |l|..];
    }
  }

  /** `sep.join(parts)` */
  function Join(parts: seq<string>, sep: string): string
  {
    if |parts| == 0 then ""
    else if |parts| == 1 then parts[0]
    else parts[0] + sep + Join(parts[1..], sep)
  }

  lemma JoinStartsWith(parts: seq<string>, sep: string)
    requires parts != []
    ensures StartsWith(Join(parts, sep), parts[0])
  {
    if |parts| > 1 {
      assert Join(parts, sep) == parts[0] + (sep + Join(parts[1..], sep));
    }
  }

  lemma JoinCons(a: string, rest: seq<string>, sep: string)
    requires rest != []
    ensures Join([a] + rest, sep) == a + sep + Join(rest, sep)
  {
    assert ([a] + rest)[1..] == rest;
  }

  lemma SplitOnFound(s: string, sep: string)
    requires sep != [] && IndexOf(s, sep).Some?
    ensures var i := IndexOf(s, sep).value;
      i + |sep| <= |s| &&
      SplitOn(s, sep) == [s[..i]] + SplitOn(s[i + |sep|..], sep) &&
      s == s[..i] + sep + s[i + |sep|..]
  {
    OccursSplit(s, sep, IndexOf(s, sep).value);
  }

  /** An occurrence cuts the text into the part before it, the pattern and the part after it. */
  lemma OccursSplit(s: string, sub: string, i: int)
    requires OccursAt(s, sub, i)
    ensures 0 <= i && i + |sub| <= |s| && s == s[..i] + sub + s[i + |sub|..]
  {
    assert sub == s[i..i + |sub|];
    assert s == s[..i] + s[i..i + |sub|] + s[i + |sub|..];
  }

  /** Joining the pieces of a split with the same separator gives back the text. */
  lemma {:induction false} JoinSplit(s: string, sep: string)
    requires sep != []
    ensures Join(SplitOn(s, sep), sep) == s
    decreases |s|
  {
    if IndexOf(s, sep).Some? {
      var i := IndexOf(s, sep).value;
      var rest := s[i + |sep|..];
      SplitOnFound(s, sep);
      JoinSplit(rest, sep);
      JoinCons(s[..i], SplitOn(rest, sep), sep);
    }
  }

  /** `s.replace(pat, rep)` for a non-empty pattern: every non-overlapping occurrence, left to right. */
  function ReplaceAll(s: string, pat: string, rep: string): string
    requires pat != []
    decreases |s|
  {
    if pat <= s then rep + ReplaceAll(s[|pat|..], pat, rep)
    else if s == [] then []
    else [s[0]] + ReplaceAll(s[1..], pat, rep)
  }

  /** A text that is exactly the pattern becomes the replacement. */
  lemma ReplaceAllWhole(pat: string, rep: string)
    requires pat != []
    ensures ReplaceAll(pat, pat, rep) == rep
  {
    assert pat[|pat|..] == [];
  }

  /** `replace` leaves a text without the pattern unchanged. */
  lemma {:induction false} ReplaceAllAbsent(s: string, pat: string, rep: string)
    requires pat != [] && !Contains(s, pat)
    ensures ReplaceAll(s, pat, rep) == s
    decreases |s|
  {
    if s != [] {
      assert !OccursAt(s, pat, 0);
      OccursShift(s, pat);
      assert !Contains(s[1..], pat) by {
        forall j | 0 <= j <= |s[1..]| ensures !OccursAt(s[1..], pat, j) {
          assert !OccursAt(s, pat, j + 1);
        }
      }
      ReplaceAllAbsent(s[1..], pat, rep);
    }
  }

  function LowerChar(c: char): char {
    if 'A' <= c <= 'Z' then (c as int + 32) as char else c
  }

  function UpperChar(c: char): char {
    if 'a' <= c <= 'z' then (c as int - 32) as char else c
  }

  /** `str.lower()` on ASCII letters. */
  function Lower(s: string): (r: string)
    ensures |r| == |s|
    ensures forall i :: 0 <= i < |s| ==> r[i] == LowerChar(s[i])
  {
    if s == [] then [] else [LowerChar(s[0])] + Lower(s[1..])
  }

  /** `str.upper()` on ASCII letters. */
  function Upper(s: string): (r: string)
    ensures |r| == |s|
    ensures forall i :: 0 <= i < |s| ==> r[i] == UpperChar(s[i])
  {
    if s == [] then [] else [UpperChar(s[0])] + Upper(s[1..])
  }

  function DigitChar(d: nat): char
    requires d < 10
  {
    ('0' as int + d) as char
  }

  /** `str(n)` for a non-negative integer. */
  function NatToString(n: nat): (r: string)
    ensures r != [] && AllDigits(r)
  {
    if n < 10 then [DigitChar(n)] else NatToString(n / 10) + [DigitChar(n % 10)]
  }

  /** The value of a decimal numeral, as `int(s)` reads a string of ASCII digits. */
  function DigitsValue(s: string): nat
    requires AllDigits(s)
  {
    if s == [] then 0 else DigitsValue(s[..|s| - 1]) * 10 + (s[|s| - 1] as int - '0' as int)
  }

  /** Reading back the numeral of `n` gives `n`. */
  lemma {:induction false} NatToStringValue(n: nat)
    ensures DigitsValue(NatToString(n)) == n
  {
    if n >= 10 {
      NatToStringValue(n / 10);
      var t := NatToString(n);
      assert t[..|t| - 1] == NatToString(n / 10);
    }
  }

  lemma NatToStringInjective(a: nat, b: nat)
    requires NatToString(a) == NatToString(b)
    ensures a == b
  {
    NatToStringValue(a);
    NatToStringValue(b);
  }

  /** `str(i)` for any integer. */
  function IntToString(i: int): string {
    if i < 0 then "-" + NatToString(-i) else NatToString(i)
  }

  /** `s.split()`: the maximal runs of non-whitespace characters. */
  function Words(s: string): seq<string>
    decreases |s|
  {
    var t := LStrip(s);
    if t == [] then [] else
      var n := WordLength(t);
      [t[..n]] + Words(t[n..])
  }

  function WordLength(t: string): (n: nat)
    ensures n <= |t|
    ensures t != [] && !IsSpace(t[0]) ==> n > 0
  {
    if t == [] || IsSpace(t[0]) then 0 else 1 + WordLength(t[1..])
  }

  /** The lines of `s` between line-break characters. */
  function LineBreakSplit(s: string): (r: seq<string>)
    ensures |r| >= 1
    ensures forall k :: 0 <= k < |r| ==> forall i :: 0 <= i < |r[k]| ==> !IsLineBreak(r[k][i])
    decreases |s|
  {
    if s == [] then [""]
    else if IsLineBreak(s[0]) then [""] + LineBreakSplit(s[1..])
    else
      var rest := LineBreakSplit(s[1..]);
      [[s[0]] + rest[0]] + rest[1..]
  }

  /** Python's `<=` on strings: lexicographic by code point. */
  predicate StrLe(a: string, b: string)
    decreases |a|
  {
    a == [] || (b != [] && (a[0] < b[0] || (a[0] == b[0] && StrLe(a[1..], b[1..]))))
  }

  lemma {:induction false} StrLeTotal(a: string, b: string)
    ensures StrLe(a, b) || StrLe(b, a)
    decreases |a|
  {
    if a != [] && b != [] && a[0] == b[0] {
      StrLeTotal(a[1..], b[1..]);
    }
  }

  lemma {:induction false} StrLeTrans(a: string, b: string, c: string)
    requires StrLe(a, b) && StrLe(b, c)
    ensures StrLe(a, c)
    decreases |a|
  {
    if a != [] && a[0] == b[0] && b[0] == c[0] {
      StrLeTrans(a[1..], b[1..], c[1..]);
    }
  }
}

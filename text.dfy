/**
 * String operations the storefront relies on: lower-casing, substring search
 * (`includes`, `indexOf`, `split`), whitespace trimming, the category slug
 * `title.toLowerCase().replace(/\s+/g, '-')`, decimal rendering of numbers and
 * joining.  A Dafny string is a sequence of Unicode scalar values (code points);
 * where the storefront measures a text with JavaScript's `.length`, which counts
 * UTF-16 code units, the model uses `Utf16Length`.
 */
module Text {
  import opened Wrappers

  /** The characters matched by the regular-expression class `\s`, which are also
      the characters `String.prototype.trim` removes. */
  predicate IsSpace(c: char) {
    c == ' ' || c == '\t' || c == '\n' || c == '\r' || c == '\U{0B}' || c == '\U{0C}'
    || c == '\U{A0}' || c == '\U{1680}' || ('\U{2000}' <= c <= '\U{200A}')
    || c == '\U{2028}' || c == '\U{2029}' || c == '\U{202F}' || c == '\U{205F}'
    || c == '\U{3000}' || c == '\U{FEFF}'
  }

  /** The number of UTF-16 code units encoding one code point: two (a surrogate pair) above
      U+FFFF, one otherwise. */
  function CodeUnits(c: char): (n: nat)
    ensures n == 1 || n == 2
    ensures n == 2 <==> c as int > 0xFFFF
  {
    if c as int > 0xFFFF then 2 else 1
  }

  /** JavaScript's `s.length`: the number of UTF-16 code units of `s`. */
  function Utf16Length(s: string): (n: nat)
    ensures |s| <= n <= 2 * |s|
  {
    if s == [] then 0 else CodeUnits(s[0]) + Utf16Length(s[1..])
  }

  /** A text within the Basic Multilingual Plane has as many code units as code points. */
  lemma {:induction false} Utf16LengthOfBmp(s: string)
    requires forall i :: 0 <= i < |s| ==> s[i] as int <= 0xFFFF
    ensures Utf16Length(s) == |s|
  {
    if s != [] {
      assert forall i :: 0 <= i < |s[1..]| ==> s[1..][i] == s[i + 1];
      Utf16LengthOfBmp(s[1..]);
    }
  }

  /** Three emoji outside the Basic Multilingual Plane: three code points, six code units. */
  lemma Utf16LengthOfAstral()
    ensures |"\U{1F600}\U{1F600}\U{1F600}"| == 3
    ensures Utf16Length("\U{1F600}\U{1F600}\U{1F600}") == 6
  {
    var s := "\U{1F600}\U{1F600}\U{1F600}";
    assert s[1..] == "\U{1F600}\U{1F600}";
    assert s[1..][1..] == "\U{1F600}";
    assert s[1..][1..][1..] == "";
  }

  /** Lower-casing of one code unit, restricted to the ASCII and Latin-1 letters
      (`À`-`Þ` except the multiplication sign). */
  function LowerChar(c: char): char {
    if 'A' <= c <= 'Z' || ('\U{C0}' <= c <= '\U{DE}' && c != '\U{D7}') then (c as int + 32) as char else c
  }

  function ToLower(s: string): (r: string)
    ensures |r| == |s|
    ensures forall i :: 0 <= i < |s| ==> r[i] == LowerChar(s[i])
  {
    seq(|s|, i requires 0 <= i < |s| => LowerChar(s[i]))
  }

  /** `pat` occurs in `s` at position `j`. */
  predicate OccursAt(s: string, pat: string, j: int) {
    0 <= j && j + |pat| <= |s| && s[j..j + |pat|] == pat
  }

  /** Position of the first occurrence of `pat` in `s` (`s.indexOf(pat)`), None for -1. */
  function IndexOf(s: string, pat: string): (r: Option<nat>)
    ensures r.Some? ==> OccursAt(s, pat, r.value)
    ensures r.Some? ==> forall j :: 0 <= j < r.value ==> !OccursAt(s, pat, j)
    ensures r.None? ==> forall j :: !OccursAt(s, pat, j)
    decreases |s|
  {
    if |s| < |pat| then None
    else if s[..|pat|] == pat then Some(0)
    else
      var rest := IndexOf(s[1..], pat);
      assert forall j :: 1 <= j ==> (OccursAt(s, pat, j) <==> OccursAt(s[1..], pat, j - 1));
      match rest
      case None => None
      case Some(k) => Some(k + 1)
  }

  /** A string-or-missing value used as a JavaScript condition: present and not empty. */
  predicate Filled(v: Option<string>) {
    v.Some? && v.value != ""
  }

  /** `s.includes(pat)`. */
  predicate Includes(s: string, pat: string) {
    IndexOf(s, pat).Some?
  }

  /** Case-insensitive `includes` as the source writes it: `s.toLowerCase().includes(t.toLowerCase())`. */
  predicate IncludesIgnoringCase(s: string, t: string) {
    Includes(ToLower(s), ToLower(t))
  }

  /** `s.split(sep)[1]`: the text between the first and the second occurrence of
      `sep` (or the end), and None (`undefined`) when `sep` does not occur. */
  function SecondPiece(s: string, sep: string): (r: Option<string>)
    requires sep != []
    ensures r.None? <==> !Includes(s, sep)
    ensures r.Some? ==> !Includes(r.value, sep)
  {
    match IndexOf(s, sep)
    case None => None
    case Some(i) =>
      var rest := s[i + |sep|..];
      match IndexOf(rest, sep)
      case None => Some(rest)
      case Some(j) =>
        NoOccurrenceInPrefix(rest, sep, j);
        Some(rest[..j])
  }

  /** The part of a text before its first `c` (`s.split(c)[0]` for a one-character separator). */
  function BeforeFirst(s: string, c: char): (r: string)
    ensures c !in r
    ensures r <= s
    ensures r == s <==> c !in s
    ensures |r| < |s| ==> s[|r|] == c
  {
    if s == [] then []
    else if s[0] == c then []
    else [s[0]] + BeforeFirst(s[1..], c)
  }

  /** The text before the first `c` is everything before a position holding `c` that
      no earlier `c` precedes. */
  lemma {:induction false} BeforeFirstStops(s: string, c: char, n: nat)
    requires n < |s| && s[n] == c && c !in s[..n]
    ensures BeforeFirst(s, c) == s[..n]
  {
    if n > 0 {
      assert s[1..][..n - 1] == s[1..n];
      BeforeFirstStops(s[1..], c, n - 1);
    }
  }

  /** Drops the leading whitespace of `s` (`trimStart`). */
  function TrimStart(s: string): (r: string)
    ensures |r| <= |s| && r == s[|s| - |r|..]
    ensures r == [] || !IsSpace(r[0])
    ensures forall i :: 0 <= i < |s| - |r| ==> IsSpace(s[i])
  {
    if s == [] || !IsSpace(s[0]) then s else TrimStart(s[1..])
  }

  /** Drops the trailing whitespace of `s` (`trimEnd`). */
  function TrimEnd(s: string): (r: string)
    ensures r <= s
    ensures r == [] || !IsSpace(r[|r| - 1])
    ensures forall i :: |r| <= i < |s| ==> IsSpace(s[i])
  {
    if s == [] || !IsSpace(s[|s| - 1]) then s else TrimEnd(s[..|s| - 1])
  }

  /** `s.trim()`: a slice of `s` that neither starts nor ends with whitespace. */
  function Trim(s: string): (r: string)
    ensures r == [] || (!IsSpace(r[0]) && !IsSpace(r[|r| - 1]))
    ensures r == [] <==> forall i :: 0 <= i < |s| ==> IsSpace(s[i])
    ensures exists k :: OccursAt(s, r, k)
  {
    TrimFacts(s);
    TrimEnd(TrimStart(s))
  }

  /** The trimmed text sits inside `s`, and is empty exactly when `s` is all whitespace. */
  lemma TrimFacts(s: string)
    ensures OccursAt(s, TrimEnd(TrimStart(s)), |s| - |TrimStart(s)|)
    ensures TrimEnd(TrimStart(s)) == [] <==> forall i :: 0 <= i < |s| ==> IsSpace(s[i])
  {
    var t := TrimStart(s);
    TrimInside(s, t, TrimEnd(t));
    TrimEmpty(s, t, TrimEnd(t));
  }

  lemma TrimInside(s: string, t: string, r: string)
    requires |t| <= |s| && t == s[|s| - |t|..]
    requires r <= t
    ensures OccursAt(s, r, |s| - |t|)
  {
    var d := |s| - |t|;
    assert s[d..d + |r|] == t[..|r|];
  }

  lemma TrimEmpty(s: string, t: string, r: string)
    requires |t| <= |s| && t == s[|s| - |t|..]
    requires forall i :: 0 <= i < |s| - |t| ==> IsSpace(s[i])
    requires t == [] || !IsSpace(t[0])
    requires r <= t
    requires forall i :: |r| <= i < |t| ==> IsSpace(t[i])
    ensures r == [] <==> forall i :: 0 <= i < |s| ==> IsSpace(s[i])
  {
    if t != [] {
      assert s[|s| - |t|] == t[0];
    }
  }

  /** Replaces every maximal run of whitespace by one '-' (`replace(/\s+/g, '-')`). */
  function Hyphenate(s: string): (r: string)
    decreases |s|
  {
    if s == [] then []
    else if IsSpace(s[0]) then "-" + Hyphenate(TrimStart(s[1..]))
    else [s[0]] + Hyphenate(s[1..])
  }

  /** The slug written to `categoria` and `filter`: `title.toLowerCase().replace(/\s+/g, '-')`. */
  function Slug(title: string): string {
    Hyphenate(ToLower(title))
  }

  /** Decimal digits of a natural number, as JavaScript's `String(n)` writes them. */
  function NatToString(n: nat): (r: string)
    ensures |r| >= 1
    ensures forall i :: 0 <= i < |r| ==> '0' <= r[i] <= '9'
  {
    if n < 10 then [Digit(n)] else NatToString(n / 10) + [Digit(n % 10)]
  }

  function Digit(d: nat): (c: char)
    requires d < 10
    ensures '0' <= c <= '9'
  {
    ('0' as int + d) as char
  }

  /** `String(i)` for an integer: a '-' sign before the digits of a negative value. */
  function IntToString(i: int): string {
    if i < 0 then "-" + NatToString(-i) else NatToString(i)
  }

  /** The value of a text of decimal digits, as a database reads an integer literal. */
  function DigitsValue(s: string): nat
    requires forall i :: 0 <= i < |s| ==> '0' <= s[i] <= '9'
  {
    if s == [] then 0 else DigitsValue(s[..|s| - 1]) * 10 + (s[|s| - 1] as int - '0' as int)
  }

  /** Reading back the digits of a natural number gives the number. */
  lemma {:induction false} NatToStringRoundTrip(n: nat)
    ensures DigitsValue(NatToString(n)) == n
  {
    if n >= 10 {
      var r := NatToString(n);
      assert r[..|r| - 1] == NatToString(n / 10);
      NatToStringRoundTrip(n / 10);
    }
  }

  /** Distinct natural numbers have distinct digits. */
  lemma NatToStringInjective(a: nat, b: nat)
    requires NatToString(a) == NatToString(b)
    ensures a == b
  {
    NatToStringRoundTrip(a);
    NatToStringRoundTrip(b);
  }

  /** Distinct integers render as distinct texts. */
  lemma IntToStringInjective(a: int, b: int)
    requires IntToString(a) == IntToString(b)
    ensures a == b
  {
    var r := IntToString(a);
    if a < 0 {
      assert r[0] == '-';
      if b < 0 {
        assert NatToString(-a) == r[1..] == NatToString(-b);
        NatToStringInjective(-a, -b);
      }
    } else {
      assert '0' <= r[0] <= '9';
      if b >= 0 {
        NatToStringInjective(a, b);
      }
    }
  }

  /** `parts.join(sep)`. */
  function Join(parts: seq<string>, sep: string): string {
    if parts == [] then ""
    else if |parts| == 1 then parts[0]
    else parts[0] + sep + Join(parts[1..], sep)
  }

  /** `s.split(c)` for a one-character separator. */
  function SplitOn(s: string, c: char): (r: seq<string>)
    ensures |r| >= 1
    ensures forall k :: 0 <= k < |r| ==> c !in r[k]
    decreases |s|
  {
    var head := BeforeFirst(s, c);
    if head == s then [s] else [head] + SplitOn(s[|head| + 1..], c)
  }

  // ---------------------------------------------------------------------------
  // Properties
  // ---------------------------------------------------------------------------

  lemma NoOccurrenceInPrefix(s: string, pat: string, j: nat)
    requires pat != []
    requires IndexOf(s, pat) == Some(j)
    ensures !Includes(s[..j], pat)
  {
    var p := s[..j];
    if IndexOf(p, pat).Some? {
      var k := IndexOf(p, pat).value;
      assert p[k..k + |pat|] == s[k..k + |pat|];
      assert OccursAt(s, pat, k);
    }
  }

  /** A text that already starts with the separator has the rest of it as its second piece. */
  lemma {:induction false} SecondPieceAfterPrefix(sep: string, p: string)
    requires sep != []
    requires !Includes(p, sep)
    ensures SecondPiece(sep + p, sep) == Some(p)
  {
    var s := sep + p;
    assert s[..|sep|] == sep;
    assert IndexOf(s, sep) == Some(0);
    assert s[|sep|..] == p;
  }

  /** Trimming removes nothing from a text that has no surrounding whitespace. */
  lemma {:induction false} TrimIdempotent(s: string)
    ensures Trim(Trim(s)) == Trim(s)
  {
    var t := Trim(s);
    if t != [] {
      assert TrimStart(t) == t;
      assert TrimEnd(t) == t;
    }
  }

  lemma {:induction false} HyphenateHasNoSpace(s: string)
    ensures forall i :: 0 <= i < |Hyphenate(s)| ==> !IsSpace(Hyphenate(s)[i])
    decreases |s|
  {
    if s == [] {
    } else if IsSpace(s[0]) {
      HyphenateHasNoSpace(TrimStart(s[1..]));
    } else {
      HyphenateHasNoSpace(s[1..]);
    }
  }

  lemma {:induction false} HyphenateWithoutSpace(s: string)
    requires forall i :: 0 <= i < |s| ==> !IsSpace(s[i])
    ensures Hyphenate(s) == s
    decreases |s|
  {
    if s != [] {
      HyphenateWithoutSpace(s[1..]);
    }
  }

  predicate IsLower(s: string) {
    forall i :: 0 <= i < |s| ==> LowerChar(s[i]) == s[i]
  }

  lemma {:induction false} HyphenateKeepsLower(s: string)
    requires IsLower(s)
    ensures IsLower(Hyphenate(s))
    decreases |s|
  {
    if s != [] {
      if IsSpace(s[0]) {
        var t := TrimStart(s[1..]);
        SuffixLower(s, t);
        HyphenateKeepsLower(t);
        ConsLower('-', Hyphenate(t));
      } else {
        SuffixLower(s, s[1..]);
        HyphenateKeepsLower(s[1..]);
        ConsLower(s[0], Hyphenate(s[1..]));
      }
    }
  }

  lemma SuffixLower(s: string, t: string)
    requires IsLower(s) && |t| <= |s| && t == s[|s| - |t|..]
    ensures IsLower(t)
  {
    forall i | 0 <= i < |t|
      ensures LowerChar(t[i]) == t[i]
    {
      assert t[i] == s[|s| - |t| + i];
    }
  }

  lemma ConsLower(c: char, r: string)
    requires LowerChar(c) == c && IsLower(r)
    ensures IsLower([c] + r)
  {
    forall i | 0 <= i < |[c] + r|
      ensures LowerChar(([c] + r)[i]) == ([c] + r)[i]
    {
      if i > 0 {
        assert ([c] + r)[i] == r[i - 1];
      }
    }
  }

  /** A slug contains no whitespace and no upper-case ASCII letter. */
  lemma SlugIsNormal(title: string)
    ensures forall i :: 0 <= i < |Slug(title)| ==> !IsSpace(Slug(title)[i])
    ensures IsLower(Slug(title))
  {
    HyphenateHasNoSpace(ToLower(title));
    HyphenateKeepsLower(ToLower(title));
  }

  /** Slugging a slug changes nothing, so the slug of a stored `categoria` is stable. */
  lemma SlugIdempotent(title: string)
    ensures Slug(Slug(title)) == Slug(title)
  {
    var s := Slug(title);
    SlugIsNormal(title);
    assert ToLower(s) == s;
    HyphenateWithoutSpace(s);
  }

  /** A title without whitespace slugs to its lower-case form. */
  lemma SlugOfSingleWord(title: string)
    requires forall i :: 0 <= i < |title| ==> !IsSpace(title[i])
    ensures Slug(title) == ToLower(title)
  {
    var l := ToLower(title);
    assert forall i :: 0 <= i < |l| ==> !IsSpace(l[i]);
    HyphenateWithoutSpace(l);
  }

  /** A character found in neither the parts nor the separator is not in their join. */
  lemma {:induction false} JoinAvoids(parts: seq<string>, sep: string, c: char)
    requires c !in sep
    requires forall k :: 0 <= k < |parts| ==> c !in parts[k]
    ensures c !in Join(parts, sep)
    decreases |parts|
  {
    if |parts| > 1 {
      JoinAvoids(parts[1..], sep, c);
    }
  }

  /** Splitting a join on a character that no part contains gives the parts back. */
  lemma {:induction false} SplitJoinRoundTrip(parts: seq<string>, c: char)
    requires |parts| >= 1
    requires forall k :: 0 <= k < |parts| ==> c !in parts[k]
    ensures SplitOn(Join(parts, [c]), c) == parts
    decreases |parts|
  {
    if |parts| == 1 {
      assert BeforeFirst(parts[0], c) == parts[0];
    } else {
      var s := Join(parts, [c]);
      var tail := Join(parts[1..], [c]);
      assert s == parts[0] + [c] + tail;
      BeforeFirstOfJoin(parts[0], c, tail);
      assert s[|parts[0]| + 1..] == tail;
      SplitJoinRoundTrip(parts[1..], c);
    }
  }

  lemma {:induction false} BeforeFirstOfJoin(a: string, c: char, b: string)
    requires c !in a
    ensures BeforeFirst(a + [c] + b, c) == a
    decreases |a|
  {
    if a == [] {
      assert (a + [c] + b)[0] == c;
    } else {
      assert (a + [c] + b)[1..] == a[1..] + [c] + b;
      BeforeFirstOfJoin(a[1..], c, b);
    }
  }
}

/** The JavaScript and Python string operations the core uses: whitespace
    (`trim`, `\s`, `\S`), `toLowerCase`, `includes`, number-to-text
    conversion, `padStart`, `replace(/\s+/g, sep)` and the e-mail pattern
    `\S+@\S+\.\S+`. Strings are sequences of characters. */
module Text {
  import opened Seqs

  /** ECMAScript WhiteSpace and LineTerminator code points: what `trim`
      removes and what `\s` matches. */
  predicate IsSpace(c: char)
  {
    var n := c as int;
    n == 0x09 || n == 0x0A || n == 0x0B || n == 0x0C || n == 0x0D || n == 0x20 ||
    n == 0xA0 || n == 0x1680 || (0x2000 <= n <= 0x200A) || n == 0x2028 ||
    n == 0x2029 || n == 0x202F || n == 0x205F || n == 0x3000 || n == 0xFEFF
  }

  /** `s.trim() === ""`: every character is whitespace (the empty string included). */
  predicate IsBlank(s: string)
  {
    forall i :: 0 <= i < |s| ==> IsSpace(s[i])
  }

  /** The lower-case letter of `c` where `toLowerCase` maps one character to
      one character without looking at its neighbours: the ASCII capitals, the
      Latin-1 capitals À to Þ (not ×), and the Cyrillic capitals Ѐ to Я. */
  function LowerChar(c: char): (r: char)
    ensures 'A' <= c <= 'Z' ==> r as int == c as int + 32
    ensures 'a' <= c <= 'z' ==> r == c
  {
    var n := c as int;
    if 'A' <= c <= 'Z' || (0xC0 <= n <= 0xDE && n != 0xD7) || 0x410 <= n <= 0x42F then (n + 0x20) as char
    else if 0x400 <= n <= 0x40F then (n + 0x50) as char
    else c
  }

  /** `toLowerCase`, character by character with `LowerChar`. */
  function ToLower(s: string): (r: string)
    ensures |r| == |s|
    ensures forall i :: 0 <= i < |s| ==> r[i] == LowerChar(s[i])
  {
    seq(|s|, i requires 0 <= i < |s| => LowerChar(s[i]))
  }

  /** `s.includes(sub)`: `sub` occurs in `s` at some position. */
  predicate Contains(s: string, sub: string)
  {
    exists i :: 0 <= i <= |s| - |sub| && OccursAt(s, sub, i)
  }

  predicate OccursAt(s: string, sub: string, i: int)
  {
    0 <= i <= |s| - |sub| && s[i..i + |sub|] == sub
  }

  lemma ContainsEmpty(s: string)
    ensures Contains(s, "")
  {
    assert OccursAt(s, "", 0);
  }

  lemma ToLowerAppend(a: string, b: string)
    ensures ToLower(a + b) == ToLower(a) + ToLower(b)
  {
  }

  /** Lower-casing neither creates nor removes whitespace. */
  lemma LowerKeepsSpaces(s: string)
    ensures forall i :: 0 <= i < |s| ==> (IsSpace(ToLower(s)[i]) <==> IsSpace(s[i]))
  {
  }

  /** The capital E with acute accent lower-cases to its small letter. */
  lemma LowerLatin1Example()
    ensures ToLower("\U{C9}lodie") == "\U{E9}lodie"
  {
  }

  /** Lower-casing twice is lower-casing once. */
  lemma ToLowerIdempotent(s: string)
    ensures ToLower(ToLower(s)) == ToLower(s)
  {
  }

  // ---------------------------------------------------------------------
  // The default order of `Array.prototype.sort` on strings, compared
  // character by character, a proper prefix first. (JavaScript compares
  // UTF-16 code units; the two agree inside the Basic Multilingual Plane.)

  predicate StringLe(a: string, b: string)
    decreases |a|
  {
    a == [] || (b != [] && (a[0] < b[0] || (a[0] == b[0] && StringLe(a[1..], b[1..]))))
  }

  lemma {:induction false} StringLeTotal(a: string, b: string)
    ensures StringLe(a, b) || StringLe(b, a)
    decreases |a|
  {
    if a != [] && b != [] && a[0] == b[0] {
      StringLeTotal(a[1..], b[1..]);
    }
  }

  lemma {:induction false} StringLeTrans(a: string, b: string, c: string)
    requires StringLe(a, b) && StringLe(b, c)
    ensures StringLe(a, c)
    decreases |a|
  {
    if a != [] && a[0] == b[0] && b[0] == c[0] {
      StringLeTrans(a[1..], b[1..], c[1..]);
    }
  }

  lemma {:induction false} StringLeAntisymmetric(a: string, b: string)
    requires StringLe(a, b) && StringLe(b, a)
    ensures a == b
    decreases |a|
  {
    if a != [] {
      StringLeAntisymmetric(a[1..], b[1..]);
      assert a == [a[0]] + a[1..] && b == [b[0]] + b[1..];
    }
  }

  // ---------------------------------------------------------------------
  // Numbers as decimal text (`${n}`, `toString()`, f-strings)

  predicate IsDigit(c: char)
  {
    '0' <= c <= '9'
  }

  predicate AllDigits(s: string)
  {
    forall i :: 0 <= i < |s| ==> IsDigit(s[i])
  }

  function DigitChar(d: nat): (c: char)
    requires d < 10
    ensures IsDigit(c)
  {
    ('0' as int + d) as char
  }

  /** The decimal numeral of `n`, without leading zeros. */
  function NatToString(n: nat): (r: string)
    ensures |r| >= 1 && AllDigits(r)
    decreases n
  {
    if n < 10 then [DigitChar(n)] else NatToString(n / 10) + [DigitChar(n % 10)]
  }

  /** A JavaScript integer or a Python `int` rendered in decimal. */
  function IntToString(i: int): (r: string)
    ensures |r| >= 1
    ensures i < 0 <==> r[0] == '-'
  {
    if i < 0 then "-" + NatToString(-i) else NatToString(i)
  }

  /** The value of a decimal numeral. */
  function DigitsValue(s: string): nat
    requires AllDigits(s)
    decreases |s|
  {
    if s == [] then 0
    else 10 * DigitsValue(s[..|s| - 1]) + (s[|s| - 1] as int - '0' as int)
  }

  /** Reading back the numeral of `n` gives `n`. */
  lemma {:induction false} NatToStringRoundTrip(n: nat)
    ensures DigitsValue(NatToString(n)) == n
    decreases n
  {
    if n >= 10 {
      var r := NatToString(n);
      assert r[..|r| - 1] == NatToString(n / 10);
      NatToStringRoundTrip(n / 10);
    }
  }

  /** Leading zeros do not change the value of a numeral. */
  lemma {:induction false} LeadingZerosValue(z: string, s: string)
    requires forall i :: 0 <= i < |z| ==> z[i] == '0'
    requires AllDigits(s)
    ensures AllDigits(z + s) && DigitsValue(z + s) == DigitsValue(s)
    decreases |s|, |z|
  {
    if s == [] {
      assert z + s == z;
      if z != [] {
        LeadingZerosValue(z[..|z| - 1], []);
        assert z[..|z| - 1] + [] == z[..|z| - 1];
      }
    } else {
      assert (z + s)[..|z + s| - 1] == z + s[..|s| - 1];
      LeadingZerosValue(z, s[..|s| - 1]);
    }
  }

  lemma NatToStringInjective(a: nat, b: nat)
    requires NatToString(a) == NatToString(b)
    ensures a == b
  {
    NatToStringRoundTrip(a);
    NatToStringRoundTrip(b);
  }

  lemma IntToStringInjective(a: int, b: int)
    requires IntToString(a) == IntToString(b)
    ensures a == b
  {
    if a < 0 {
      assert IntToString(a)[1..] == NatToString(-a);
      assert IntToString(b)[1..] == NatToString(-b);
      NatToStringInjective(-a, -b);
    } else {
      NatToStringInjective(a, b);
    }
  }

  /** The longest prefix of `s` made of digits. */
  function LeadingDigits(s: string): (r: string)
    ensures AllDigits(r)
    decreases |s|
  {
    if s != [] && IsDigit(s[0]) then [s[0]] + LeadingDigits(s[1..]) else []
  }

  predicate StartsWithNonDigit(s: string)
  {
    s == [] || !IsDigit(s[0])
  }

  lemma {:induction false} LeadingDigitsOfNumeral(a: string, b: string)
    requires AllDigits(a) && StartsWithNonDigit(b)
    ensures LeadingDigits(a + b) == a
    decreases |a|
  {
    if a == [] {
      assert a + b == b;
    } else {
      assert (a + b)[1..] == a[1..] + b;
      LeadingDigitsOfNumeral(a[1..], b);
    }
  }

  /** A numeral followed by text that does not start with a digit can be
      split back into the number and that text. */
  lemma NumeralPrefixInjective(a: nat, b: nat, s1: string, s2: string)
    requires StartsWithNonDigit(s1) && StartsWithNonDigit(s2)
    requires NatToString(a) + s1 == NatToString(b) + s2
    ensures a == b && s1 == s2
  {
    LeadingDigitsOfNumeral(NatToString(a), s1);
    LeadingDigitsOfNumeral(NatToString(b), s2);
    NatToStringInjective(a, b);
    assert s1 == (NatToString(a) + s1)[|NatToString(a)|..];
  }

  // ---------------------------------------------------------------------
  // padStart and replace(/\s+/g, sep)

  /** `s.padStart(width, fill)`: `fill` characters in front of `s` up to `width`. */
  function PadStart(s: string, width: nat, fill: char): (r: string)
    ensures |r| == if |s| >= width then |s| else width
    ensures r[|r| - |s|..] == s
    ensures forall i :: 0 <= i < |r| - |s| ==> r[i] == fill
  {
    if |s| >= width then s else seq(width - |s|, _ => fill) + s
  }

  /** Padding a numeral with '0' keeps its value. */
  lemma PadStartValue(s: string, width: nat)
    requires AllDigits(s)
    ensures AllDigits(PadStart(s, width, '0')) && DigitsValue(PadStart(s, width, '0')) == DigitsValue(s)
  {
    if |s| < width {
      LeadingZerosValue(seq(width - |s|, _ => '0'), s);
    }
  }

  /** `s` without its leading whitespace run. */
  function SkipSpaces(s: string): (r: string)
    ensures |r| <= |s| && r == s[|s| - |r|..]
    ensures r == [] || !IsSpace(r[0])
    ensures forall i :: 0 <= i < |s| - |r| ==> IsSpace(s[i])
    decreases |s|
  {
    if s != [] && IsSpace(s[0]) then SkipSpaces(s[1..]) else s
  }

  /** `s.replace(/\s+/g, [sep])`: every maximal whitespace run becomes one `sep`. */
  function ReplaceSpaceRuns(s: string, sep: char): (r: string)
    requires !IsSpace(sep)
    ensures forall i :: 0 <= i < |r| ==> !IsSpace(r[i])
    ensures |r| <= |s|
    decreases |s|
  {
    if s == [] then []
    else if IsSpace(s[0]) then [sep] + ReplaceSpaceRuns(SkipSpaces(s[1..]), sep)
    else [s[0]] + ReplaceSpaceRuns(s[1..], sep)
  }

  /** What position `i` contributes to the replacement, read off `s[i]` and
      `s[i - 1]` alone: a non-whitespace character is kept, the first
      whitespace of a run becomes `sep`, and the rest of a run is dropped. */
  function SpacePiece(s: string, i: nat, sep: char): string
    requires i < |s|
  {
    if !IsSpace(s[i]) then [s[i]]
    else if i > 0 && IsSpace(s[i - 1]) then []
    else [sep]
  }

  /** The pieces of positions `i` to the end, in order. */
  function SpacePieces(s: string, i: nat, sep: char): string
    requires i <= |s|
    decreases |s| - i
  {
    if i == |s| then [] else SpacePiece(s, i, sep) + SpacePieces(s, i + 1, sep)
  }

  /** Inside a whitespace run the pieces are empty. */
  lemma {:induction false} SpacePiecesSkipRun(s: string, j: nat, k: nat, sep: char)
    requires 0 < j <= k <= |s|
    requires forall m :: j - 1 <= m < k ==> IsSpace(s[m])
    ensures SpacePieces(s, j, sep) == SpacePieces(s, k, sep)
    decreases k - j
  {
    if j < k {
      SpacePiecesSkipRun(s, j + 1, k, sep);
    }
  }

  /** The replacement is the concatenation of the per-position pieces, from
      any position that does not continue a whitespace run. */
  lemma {:induction false} ReplaceSpaceRunsFrom(s: string, i: nat, sep: char)
    requires !IsSpace(sep) && i <= |s|
    requires !(0 < i < |s| && IsSpace(s[i - 1]) && IsSpace(s[i]))
    ensures ReplaceSpaceRuns(s[i..], sep) == SpacePieces(s, i, sep)
    decreases |s| - i
  {
    if i < |s| {
      if !IsSpace(s[i]) {
        assert s[i..][1..] == s[i + 1..];
        assert ReplaceSpaceRuns(s[i..], sep) == [s[i]] + ReplaceSpaceRuns(s[i + 1..], sep);
        ReplaceSpaceRunsFrom(s, i + 1, sep);
      } else {
        var k := RunEnd(s, i);
        assert ReplaceSpaceRuns(s[i..], sep) == [sep] + ReplaceSpaceRuns(s[k..], sep);
        assert SpacePieces(s, i, sep) == [sep] + SpacePieces(s, i + 1, sep);
        SpacePiecesSkipRun(s, i + 1, k, sep);
        ReplaceSpaceRunsFrom(s, k, sep);
      }
    }
  }

  /** Where the whitespace run starting at `i` ends: `SkipSpaces` of the rest
      of the run lands there. */
  lemma RunEnd(s: string, i: nat) returns (k: nat)
    requires i < |s| && IsSpace(s[i])
    ensures i < k <= |s| && SkipSpaces(s[i..][1..]) == s[k..]
    ensures forall m :: i <= m < k ==> IsSpace(s[m])
    ensures k < |s| ==> !IsSpace(s[k])
  {
    var u := s[i + 1..];
    assert s[i..][1..] == u;
    var t := SkipSpaces(u);
    k := |s| - |t|;
    assert u[|u| - |t|..] == s[k..];
    forall m | i < m < k
      ensures IsSpace(s[m])
    {
      assert u[m - i - 1] == s[m];
    }
  }

  /** `replace(/\s+/g, sep)` on the whole string is the per-position reference. */
  lemma ReplaceSpaceRunsIsPieces(s: string, sep: char)
    requires !IsSpace(sep)
    ensures ReplaceSpaceRuns(s, sep) == SpacePieces(s, 0, sep)
  {
    ReplaceSpaceRunsFrom(s, 0, sep);
    assert s[0..] == s;
  }

  /** A word without whitespace passes through the replacement unchanged. */
  lemma {:induction false} ReplaceSpaceRunsWordFirst(w: string, t: string, sep: char)
    requires !IsSpace(sep)
    requires forall i :: 0 <= i < |w| ==> !IsSpace(w[i])
    ensures ReplaceSpaceRuns(w + t, sep) == w + ReplaceSpaceRuns(t, sep)
    decreases |w|
  {
    if w == [] {
      assert w + t == t;
    } else {
      assert (w + t)[1..] == w[1..] + t;
      ReplaceSpaceRunsWordFirst(w[1..], t, sep);
      assert w == [w[0]] + w[1..];
    }
  }

  /** Skipping a whitespace run stops at the word after it. */
  lemma {:induction false} SkipSpacesBlank(r: string, w: string)
    requires IsBlank(r)
    requires w == [] || !IsSpace(w[0])
    ensures SkipSpaces(r + w) == w
    decreases |r|
  {
    if r == [] {
      assert r + w == w;
    } else {
      assert (r + w)[1..] == r[1..] + w;
      SkipSpacesBlank(r[1..], w);
    }
  }

  /** Two words around a whitespace run become the words joined by one `sep`. */
  lemma ReplaceTwoWords(first: string, gap: string, last: string, sep: char)
    requires !IsSpace(sep)
    requires forall i :: 0 <= i < |first| ==> !IsSpace(first[i])
    requires forall i :: 0 <= i < |last| ==> !IsSpace(last[i])
    requires gap != [] && IsBlank(gap)
    ensures ReplaceSpaceRuns(first + gap + last, sep) == first + [sep] + last
  {
    assert first + gap + last == first + (gap + last);
    ReplaceSpaceRunsWordFirst(first, gap + last, sep);
    RunThenWord(gap, last, sep);
  }

  /** A whitespace run followed by a word becomes `sep` and the word. */
  lemma RunThenWord(gap: string, last: string, sep: char)
    requires !IsSpace(sep)
    requires forall i :: 0 <= i < |last| ==> !IsSpace(last[i])
    requires gap != [] && IsBlank(gap)
    ensures ReplaceSpaceRuns(gap + last, sep) == [sep] + last
  {
    var t := gap + last;
    assert t[0] == gap[0] && t[1..] == gap[1..] + last;
    SkipSpacesBlank(gap[1..], last);
    ReplaceSpaceRunsNoSpace(last, sep);
  }

  function NotChar(sep: char): char -> bool
  {
    c => c != sep
  }

  function NeitherCharNorSpace(sep: char): char -> bool
  {
    c => c != sep && !IsSpace(c)
  }

  /** The replacement keeps every non-whitespace character, in order: deleting
      the separators from the result gives `s` without whitespace and separators. */
  lemma {:induction false} ReplaceSpaceRunsKeepsText(s: string, sep: char)
    requires !IsSpace(sep)
    ensures Filter(ReplaceSpaceRuns(s, sep), NotChar(sep)) == Filter(s, NeitherCharNorSpace(sep))
    decreases |s|
  {
    if s != [] {
      if IsSpace(s[0]) {
        var t := SkipSpaces(s[1..]);
        ReplaceSpaceRunsKeepsText(t, sep);
        var k := |s[1..]| - |t|;
        assert s[1..] == s[1..][..k] + t;
        FilterAppend(s[1..][..k], t, NeitherCharNorSpace(sep));
        NoneKept(s[1..][..k], sep);
        FilterAppend([sep], ReplaceSpaceRuns(t, sep), NotChar(sep));
      } else {
        ReplaceSpaceRunsKeepsText(s[1..], sep);
        FilterAppend([s[0]], ReplaceSpaceRuns(s[1..], sep), NotChar(sep));
      }
    }
  }

  lemma {:induction false} NoneKept(s: string, sep: char)
    requires IsBlank(s)
    ensures Filter(s, NeitherCharNorSpace(sep)) == []
    decreases |s|
  {
    if s != [] {
      NoneKept(s[1..], sep);
    }
  }

  /** Text without whitespace is left as it is. */
  lemma {:induction false} ReplaceSpaceRunsNoSpace(s: string, sep: char)
    requires !IsSpace(sep)
    requires forall i :: 0 <= i < |s| ==> !IsSpace(s[i])
    ensures ReplaceSpaceRuns(s, sep) == s
    decreases |s|
  {
    if s != [] {
      ReplaceSpaceRunsNoSpace(s[1..], sep);
    }
  }

  // ---------------------------------------------------------------------
  // The e-mail pattern /\S+@\S+\.\S+/ used with `test` (an unanchored search)

  predicate NoSpaceIn(s: string, lo: int, hi: int)
    requires 0 <= lo <= hi <= |s|
  {
    forall k :: lo <= k < hi ==> !IsSpace(s[k])
  }

  /** Some substring of `s` is: non-whitespace, '@', non-whitespace, '.',
      non-whitespace, each run non-empty. Because the outer runs only need one
      character, a match is fixed by the positions `p` of '@' and `q` of '.'. */
  predicate MatchesEmailPattern(s: string)
  {
    exists p, q :: 0 <= p < |s| && 0 <= q < |s| && EmailMatchAt(s, p, q)
  }

  predicate EmailMatchAt(s: string, p: int, q: int)
  {
    1 <= p && p + 1 < q && q + 1 < |s| && s[p] == '@' && s[q] == '.'
    && !IsSpace(s[p - 1]) && !IsSpace(s[q + 1]) && NoSpaceIn(s, p + 1, q)
  }

  /** A string that contains a match is not blank. */
  lemma MatchImpliesNotBlank(s: string)
    requires MatchesEmailPattern(s)
    ensures !IsBlank(s)
  {
    var p, q :| 0 <= p < |s| && 0 <= q < |s| && EmailMatchAt(s, p, q);
    assert s[p] == '@' && !IsSpace(s[p]);
  }
}

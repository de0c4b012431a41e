/**
 * Character classes and string primitives of JavaScript that the marketplace's string
 * code relies on: `\s`, `\w`, `\d`, `String.prototype.trim`, `toLowerCase` (ASCII case
 * mapping only), the decimal rendering of a number, and the total order used for sorting.
 */
module Text {

  /** JavaScript's WhiteSpace and LineTerminator code points: what `\s` matches and `trim` removes. */
  predicate IsSpace(c: char) {
    || c == ' ' || c == '\t' || c == '\n' || c == '\r' || c == '\U{000B}' || c == '\U{000C}'
    || c == '\U{00A0}' || c == '\U{1680}' || ('\U{2000}' <= c <= '\U{200A}')
    || c == '\U{2028}' || c == '\U{2029}' || c == '\U{202F}' || c == '\U{205F}'
    || c == '\U{3000}' || c == '\U{FEFF}'
  }

  /** The code points that `.` in a regular expression does not match. */
  predicate IsLineTerminator(c: char) {
    c == '\n' || c == '\r' || c == '\U{2028}' || c == '\U{2029}'
  }

  predicate IsAsciiLower(c: char) { 'a' <= c <= 'z' }
  predicate IsAsciiUpper(c: char) { 'A' <= c <= 'Z' }
  predicate IsDigit(c: char) { '0' <= c <= '9' }

  /** `\w` without the `u` flag: `[A-Za-z0-9_]`. */
  predicate IsWordChar(c: char) { IsAsciiLower(c) || IsAsciiUpper(c) || IsDigit(c) || c == '_' }

  /** `[a-z0-9]` */
  predicate IsLowerAlnum(c: char) { IsAsciiLower(c) || IsDigit(c) }

  function LowerChar(c: char): (r: char)
    ensures !IsAsciiUpper(r)
    ensures IsSpace(r) <==> IsSpace(c)
    ensures IsWordChar(r) <==> IsWordChar(c)
    ensures !IsAsciiUpper(c) ==> r == c
  {
    if IsAsciiUpper(c) then (c as int + 32) as char else c
  }

  /** `s.toLowerCase()` with ASCII case mapping. */
  function Lower(s: string): (r: string)
    ensures |r| == |s|
    ensures forall i :: 0 <= i < |s| ==> r[i] == LowerChar(s[i])
  {
    if s == [] then [] else [LowerChar(s[0])] + Lower(s[1..])
  }

  lemma LowerAppend(a: string, b: string)
    ensures Lower(a + b) == Lower(a) + Lower(b)
  {
    assert forall i :: 0 <= i < |a + b| ==> Lower(a + b)[i] == (Lower(a) + Lower(b))[i];
  }

  /** Lowering a string that has no ASCII capital changes nothing. */
  lemma LowerNoUpper(s: string)
    requires forall c :: c in s ==> !IsAsciiUpper(c)
    ensures Lower(s) == s
  {
    assert forall i :: 0 <= i < |s| ==> Lower(s)[i] == s[i];
  }

  /** Lowering twice is lowering once. */
  lemma LowerIdempotent(s: string)
    ensures Lower(Lower(s)) == Lower(s)
  {
    LowerNoUpper(Lower(s));
  }

  // ---- trim -------------------------------------------------------------------------

  function TrimStart(s: string): (r: string)
    ensures |r| <= |s| && r == s[|s| - |r|..]
    ensures r == [] || !IsSpace(r[0])
    ensures forall i :: 0 <= i < |s| - |r| ==> IsSpace(s[i])
  {
    if s != [] && IsSpace(s[0]) then TrimStart(s[1..]) else s
  }

  function TrimEnd(s: string): (r: string)
    ensures |r| <= |s| && r == s[..|r|]
    ensures r == [] || !IsSpace(r[|r| - 1])
    ensures forall i :: |r| <= i < |s| ==> IsSpace(s[i])
  {
    if s != [] && IsSpace(s[|s| - 1]) then TrimEnd(s[..|s| - 1]) else s
  }

  predicate AllSpace(w: string) { forall i :: 0 <= i < |w| ==> IsSpace(w[i]) }

  /** `r` is the slice `s[i..j]`, with only whitespace before `i` and after `j`. */
  predicate SliceBetweenSpace(r: string, s: string, i: int, j: int) {
    0 <= i <= j <= |s| && r == s[i..j] && AllSpace(s[..i]) && AllSpace(s[j..])
  }

  /**
   * `r` is what `trim` leaves of `s`: a slice of `s` with only whitespace around it and no
   * whitespace at either of its own ends.
   */
  predicate IsTrimOf(r: string, s: string) {
    && (r == [] || (!IsSpace(r[0]) && !IsSpace(r[|r| - 1])))
    && exists i, j :: 0 <= i <= j <= |s| && SliceBetweenSpace(r, s, i, j)
  }

  /** `s.trim()`: the longest slice of `s` that neither starts nor ends with whitespace. */
  function Trim(s: string): (r: string)
    ensures IsTrimOf(r, s)
    ensures r == [] <==> AllSpace(s)
    ensures |r| <= |s| && forall c :: c in r ==> c in s
  {
    var t := TrimStart(s);
    var r := TrimEnd(t);
    SliceBetween(s, |s| - |t|, t, r);
    r
  }

  /** A left-trim suffix `t` of `s` and a right-trim prefix `r` of `t` place `r` between whitespace in `s`. */
  lemma SliceBetween(s: string, i: nat, t: string, r: string)
    requires i <= |s| && s[i..] == t && |r| <= |t| && t[..|r|] == r
    requires forall k :: 0 <= k < i ==> IsSpace(s[k])
    requires forall k :: |r| <= k < |t| ==> IsSpace(t[k])
    requires r == [] || !IsSpace(r[0])
    ensures SliceBetweenSpace(r, s, i, i + |r|)
    ensures r == [] <==> AllSpace(s)
    ensures forall c :: c in r ==> c in s
  {
    assert forall k :: 0 <= k < |r| ==> s[i..i + |r|][k] == s[i + k] == t[k] == r[k];
    assert forall k :: 0 <= k < i ==> s[..i][k] == s[k];
    var after := s[i + |r|..];
    forall k | 0 <= k < |after| ensures IsSpace(after[k]) {
      assert after[k] == t[|r| + k];
    }
    if r == [] {
      assert forall k :: i <= k < |s| ==> s[k] == t[k - i];
    } else {
      assert s[i] == r[0];
    }
    assert forall c :: c in r ==> c in t;
  }

  /** Only one slice of `s` meets the description of `trim`: it is `Trim(s)`. */
  lemma TrimOfUnique(r: string, s: string)
    requires IsTrimOf(r, s)
    ensures r == Trim(s)
  {
    var i, j :| 0 <= i <= j <= |s| && SliceBetweenSpace(r, s, i, j);
    if r == [] {
      forall k | 0 <= k < |s| ensures IsSpace(s[k]) {
        if k < i { assert s[..i][k] == s[k]; } else { assert s[j..][k - j] == s[k]; }
      }
    } else {
      assert s == s[..i] + (r + s[j..]);
      TrimStartSkipsSpace(s[..i], r + s[j..]);
      assert TrimStart(r + s[j..]) == r + s[j..];
      TrimEndSkipsSpace(r, s[j..]);
    }
  }

  lemma {:induction false} TrimStartSkipsSpace(w: string, s: string)
    requires AllSpace(w)
    ensures TrimStart(w + s) == TrimStart(s)
    decreases |w|
  {
    if w != [] {
      assert (w + s)[1..] == w[1..] + s;
      TrimStartSkipsSpace(w[1..], s);
    } else {
      assert w + s == s;
    }
  }

  lemma {:induction false} TrimEndSkipsSpace(s: string, w: string)
    requires AllSpace(w)
    ensures TrimEnd(s + w) == TrimEnd(s)
    decreases |w|
  {
    if w != [] {
      assert (s + w)[..|s + w| - 1] == s + w[..|w| - 1];
      TrimEndSkipsSpace(s, w[..|w| - 1]);
    } else {
      assert s + w == s;
    }
  }

  /** Trailing whitespace passes through `TrimStart` untouched unless everything is whitespace. */
  lemma {:induction false} TrimStartKeepsTail(s: string, w: string)
    requires AllSpace(w)
    ensures TrimStart(s + w) == if TrimStart(s) == [] then [] else TrimStart(s) + w
    decreases |s|
  {
    if s == [] {
      assert s + w == w;
      assert TrimStart(w) == TrimStart(w + []) == TrimStart([]) by {
        assert w + [] == w;
        TrimStartSkipsSpace(w, []);
      }
    } else if IsSpace(s[0]) {
      assert (s + w)[1..] == s[1..] + w;
      TrimStartKeepsTail(s[1..], w);
    }
  }

  /** Surrounding whitespace does not change `trim`. */
  lemma TrimIgnoresSurroundingSpace(w1: string, s: string, w2: string)
    requires AllSpace(w1) && AllSpace(w2)
    ensures Trim(w1 + s + w2) == Trim(s)
  {
    assert w1 + s + w2 == w1 + (s + w2);
    TrimStartSkipsSpace(w1, s + w2);
    TrimStartKeepsTail(s, w2);
    if TrimStart(s) != [] {
      TrimEndSkipsSpace(TrimStart(s), w2);
    }
  }

  /** `trim` leaves alone a string that has no whitespace at all. */
  lemma TrimNoSpace(s: string)
    requires forall c :: c in s ==> !IsSpace(c)
    ensures Trim(s) == s
  {
    assert s != [] ==> s[0] in s && s[|s| - 1] in s;
  }

  // ---- numbers ------------------------------------------------------------------------

  function DigitChar(d: nat): (c: char)
    requires d < 10
    ensures IsDigit(c)
  {
    ('0' as int + d) as char
  }

  /** The number a string of decimal digits denotes, most significant digit first. */
  function DecimalValue(s: string): int {
    if s == [] then 0 else DecimalValue(s[..|s| - 1]) * 10 + (s[|s| - 1] as int - '0' as int)
  }

  /** `n.toString()` for a non-negative integer: its decimal digits, without a leading zero. */
  function Digits(n: nat): (r: string)
    ensures 1 <= |r|
    ensures forall c :: c in r ==> IsDigit(c)
    ensures DecimalValue(r) == n
    ensures r[0] == '0' <==> n == 0
    decreases n
  {
    if n < 10 then [DigitChar(n)]
    else
      var front := Digits(n / 10);
      assert (front + [DigitChar(n % 10)])[..|front|] == front;
      front + [DigitChar(n % 10)]
  }

  function Pow10(k: nat): (p: nat)
    ensures p >= 1
  {
    if k == 0 then 1 else 10 * Pow10(k - 1)
  }

  /** Each division by ten removes one digit. */
  lemma DigitsStep(n: nat)
    ensures |Digits(n)| == if n < 10 then 1 else |Digits(n / 10)| + 1
  {
  }

  /** A number has at least four digits exactly when it is at least 1000. */
  lemma DigitsLength(n: nat)
    ensures |Digits(n)| >= 4 <==> n >= 1000
  {
    DigitsStep(n);
    DigitsStep(n / 10);
    DigitsStep(n / 10 / 10);
    DigitsStep(n / 10 / 10 / 10);
  }

  /** The last `k` digits of `n.toString()` denote `n % 10^k`. */
  lemma {:induction false} DigitsSuffixValue(n: nat, k: nat)
    requires k <= |Digits(n)|
    ensures DecimalValue(Digits(n)[|Digits(n)| - k..]) == n % Pow10(k)
    decreases n
  {
    var d := Digits(n);
    if k == 0 {
      assert d[|d|..] == [];
    } else if n < 10 {
      assert d[|d| - k..] == d;
      assert d[..0] == [];
    } else {
      var front := Digits(n / 10);
      assert d == front + [DigitChar(n % 10)];
      var tail := d[|d| - k..];
      assert tail[..|tail| - 1] == front[|front| - (k - 1)..];
      assert tail[|tail| - 1] == DigitChar(n % 10);
      DigitsSuffixValue(n / 10, k - 1);
      TenTimesMod(n, Pow10(k - 1));
    }
  }

  /** Dropping the last digit, reducing, and putting the digit back is reducing by ten times as much. */
  lemma TenTimesMod(n: nat, p: nat)
    requires p >= 1
    ensures (n / 10) % p * 10 + n % 10 == n % (10 * p)
  {
    var q, b := (n / 10) / p, (n / 10) % p;
    assert n == q * (10 * p) + (b * 10 + n % 10);
    assert 0 <= b * 10 + n % 10 < 10 * p;
    ModUnique(n, 10 * p, q, b * 10 + n % 10);
  }

  lemma ModUnique(n: nat, m: nat, q: int, x: int)
    requires m >= 1 && n == q * m + x && 0 <= x < m
    ensures n % m == x
  {
    var q', x' := n / m, n % m;
    assert (q - q') * m == x' - x;
    if q > q' {
      MulAtLeast(q - q', m);
    } else if q < q' {
      MulAtLeast(q' - q, m);
    }
  }

  lemma MulAtLeast(d: int, m: nat)
    requires d >= 1
    ensures d * m >= m
  {
    assert d * m == m + (d - 1) * m;
  }

  // ---- UTF-16 lengths ---------------------------------------------------------------

  /** The UTF-16 code units of one code point: a surrogate pair above U+FFFF, otherwise one unit. */
  function Units(c: char): nat { if c as int > 0xFFFF then 2 else 1 }

  /** `s.length`: the number of UTF-16 code units of `s`. */
  function Utf16Len(s: string): (n: nat)
    ensures |s| <= n <= 2 * |s|
    ensures (forall i :: 0 <= i < |s| ==> s[i] as int <= 0xFFFF) ==> n == |s|
  {
    if s == [] then 0
    else
      assert forall i :: 0 <= i < |s| - 1 ==> s[..|s| - 1][i] == s[i];
      Utf16Len(s[..|s| - 1]) + Units(s[|s| - 1])
  }

  /** Code units add up over concatenation. */
  lemma {:induction false} Utf16LenAppend(a: string, b: string)
    ensures Utf16Len(a + b) == Utf16Len(a) + Utf16Len(b)
    decreases |b|
  {
    if b == [] {
      assert a + b == a;
    } else {
      assert (a + b)[..|a + b| - 1] == a + b[..|b| - 1];
      Utf16LenAppend(a, b[..|b| - 1]);
    }
  }

  /**
   * The number of code points of `s` that `s.slice(0, n)` keeps whole: the longest prefix of
   * at most `n` code units.
   */
  function Utf16Prefix(s: string, n: nat): (k: nat)
    ensures k <= |s| && Utf16Len(s[..k]) <= n
    ensures k == |s| <==> Utf16Len(s) <= n
    ensures k < |s| ==> Utf16Len(s[..k + 1]) > n
  {
    if Utf16Len(s) <= n then
      assert s[..|s|] == s;
      |s|
    else
      var k := Utf16Prefix(s[..|s| - 1], n);
      assert s[..|s| - 1][..k] == s[..k];
      assert k < |s| - 1 ==> s[..|s| - 1][..k + 1] == s[..k + 1];
      assert k == |s| - 1 ==> s[..k + 1] == s;
      k
  }

  // ---- order ------------------------------------------------------------------------

  /**
   * Lexicographic order on code points: the fixed total order that stands in for
   * `localeCompare`.
   */
  predicate StrLe(a: string, b: string) {
    a == [] || (b != [] && (a[0] < b[0] || (a[0] == b[0] && StrLe(a[1..], b[1..]))))
  }

  lemma {:induction false} StrLeTotal(a: string, b: string)
    ensures StrLe(a, b) || StrLe(b, a)
    decreases |a|
  {
    if a != [] && b != [] && a[0] == b[0] {
      StrLeTotal(a[1..], b[1..]);
    }
  }

  lemma {:induction false} StrLeTransitive(a: string, b: string, c: string)
    requires StrLe(a, b) && StrLe(b, c)
    ensures StrLe(a, c)
    decreases |a|
  {
    if a != [] && a[0] == b[0] && b[0] == c[0] {
      StrLeTransitive(a[1..], b[1..], c[1..]);
    }
  }

  lemma {:induction false} StrLeAntisymmetric(a: string, b: string)
    requires StrLe(a, b) && StrLe(b, a)
    ensures a == b
    decreases |a|
  {
    if a != [] {
      StrLeAntisymmetric(a[1..], b[1..]);
      assert a == [a[0]] + a[1..] && b == [b[0]] + b[1..];
    }
  }
}

/**
 * Slug builders: `makeSlug` of the seed script, and the slug expression shared by product
 * creation and seller registration, with the product's timestamp suffix.
 */
module Slugs {
  import opened Text

  /** The characters `makeSlug` can leave: `[a-z0-9_-]`. */
  predicate IsSlugChar(c: char) { IsLowerAlnum(c) || c == '_' || c == '-' }

  predicate IsDash(c: char) { c == '-' }

  /** `[^\w-]` */
  predicate IsNotWordOrDash(c: char) { !IsWordChar(c) && c != '-' }

  /** `[^a-z0-9]` */
  predicate IsNotLowerAlnum(c: char) { !IsLowerAlnum(c) }

  /** No two consecutive dashes. */
  predicate NoDoubleDash(s: string) {
    forall i :: 0 <= i < |s| - 1 ==> !(s[i] == '-' && s[i + 1] == '-')
  }

  /** The rest of `s` after its leading run of characters satisfying `p`. */
  function SkipRun(s: string, p: char -> bool): (r: string)
    ensures |r| <= |s| && r == s[|s| - |r|..]
    ensures r == [] || !p(r[0])
    ensures s != [] && p(s[0]) ==> |r| < |s|
    ensures forall i :: 0 <= i < |s| - |r| ==> p(s[i])
  {
    if s != [] && p(s[0]) then
      var t := SkipRun(s[1..], p);
      assert s[1..][|s| - 1 - |t|..] == s[|s| - |t|..];
      assert forall i :: 1 <= i < |s| - |t| ==> s[i] == s[1..][i - 1];
      t
    else s
  }

  /** `s.replace(/P+/g, rep)`: every maximal run of characters satisfying `p` becomes `rep`. */
  function ReplaceRuns(s: string, p: char -> bool, rep: string): (r: string)
    ensures forall c :: c in r ==> (c in s && !p(c)) || c in rep
    decreases |s|
  {
    if s == [] then []
    else if p(s[0]) then
      var rest := SkipRun(s, p);
      assert forall c :: c in rest ==> c in s;
      rep + ReplaceRuns(rest, p, rep)
    else [s[0]] + ReplaceRuns(s[1..], p, rep)
  }

  /** A run replaced by a single dash, when dashes are themselves replaced, never yields "--". */
  lemma {:induction false} ReplaceByDashNoDoubleDash(s: string, p: char -> bool)
    requires p('-')
    ensures NoDoubleDash(ReplaceRuns(s, p, "-"))
    decreases |s|
  {
    if s == [] {
    } else if p(s[0]) {
      var rest := SkipRun(s, p);
      ReplaceByDashNoDoubleDash(rest, p);
      if rest != [] {
        assert ReplaceRuns(rest, p, "-")[0] == rest[0];
      }
    } else {
      ReplaceByDashNoDoubleDash(s[1..], p);
      assert s[0] != '-';
    }
  }

  /** Replacing runs that never occur changes nothing. */
  lemma {:induction false} ReplaceRunsAbsent(s: string, p: char -> bool, rep: string)
    requires forall c :: c in s ==> !p(c)
    ensures ReplaceRuns(s, p, rep) == s
    decreases |s|
  {
    if s != [] {
      assert s[0] in s;
      assert forall c :: c in s[1..] ==> c in s;
      ReplaceRunsAbsent(s[1..], p, rep);
      assert s == [s[0]] + s[1..];
    }
  }

  /**
   * When the only characters of `s` that `p` matches are dashes and no two dashes are
   * adjacent, every run is a single dash, so replacing runs by "-" changes nothing.
   */
  lemma {:induction false} ReplaceSingleDashes(s: string, p: char -> bool)
    requires forall c :: c in s ==> (p(c) <==> c == '-')
    requires NoDoubleDash(s)
    ensures ReplaceRuns(s, p, "-") == s
    decreases |s|
  {
    if s != [] {
      var t := s[1..];
      TailFacts(s);
      ReplaceSingleDashes(t, p);
      if p(s[0]) {
        assert s[0] in s;
        assert t != [] ==> t[0] in s && t[0] != '-';
        ReplaceRunsSingleStep(s, p, "-");
      } else {
        assert ReplaceRuns(s, p, "-") == [s[0]] + ReplaceRuns(t, p, "-");
      }
      assert s == [s[0]] + t;
    }
  }

  /** The tail of a string keeps its characters and its lack of "--". */
  lemma TailFacts(s: string)
    requires s != []
    ensures forall c :: c in s[1..] ==> c in s
    ensures NoDoubleDash(s) ==> NoDoubleDash(s[1..])
  {
    var t := s[1..];
    assert forall i :: 0 <= i < |t| ==> t[i] == s[i + 1];
  }

  /** A run of length one is replaced on its own, then the rest. */
  lemma ReplaceRunsSingleStep(s: string, p: char -> bool, rep: string)
    requires s != [] && p(s[0]) && (|s| == 1 || !p(s[1]))
    ensures ReplaceRuns(s, p, rep) == rep + ReplaceRuns(s[1..], p, rep)
  {
    assert SkipRun(s[1..], p) == s[1..];
  }

  // ---- makeSlug (seed script) -------------------------------------------------------------

  /** A lowercase word character or a dash is a slug character, and never whitespace. */
  lemma SlugCharOfLowerWord(c: char)
    requires !IsAsciiUpper(c) && (IsWordChar(c) || c == '-')
    ensures IsSlugChar(c) && !IsSpace(c)
  {
  }

  /**
   * `makeSlug(text)`: lowercase, trim, whitespace runs to '-', drop `[^\w-]` runs, collapse
   * dash runs to one '-'.
   */
  function MakeSlug(text: string): (r: string)
    ensures forall c :: c in r ==> IsSlugChar(c) && !IsSpace(c)
    ensures NoDoubleDash(r)
  {
    var lowered := Lower(text);
    var trimmed := Trim(lowered);
    var dashed := ReplaceRuns(trimmed, IsSpace, "-");
    var cleaned := ReplaceRuns(dashed, IsNotWordOrDash, "");
    var r := ReplaceRuns(cleaned, IsDash, "-");
    forall c | c in r ensures IsSlugChar(c) && !IsSpace(c) {
      if c != '-' {
        assert c in cleaned;
        assert c in dashed;
        assert c in trimmed;
        assert c in lowered;
      }
      SlugCharOfLowerWord(c);
    }
    ReplaceByDashNoDoubleDash(cleaned, IsDash);
    r
  }

  /** A string that is already made of slug characters without "--" is its own slug. */
  lemma MakeSlugFixes(y: string)
    requires forall c :: c in y ==> IsSlugChar(c)
    requires NoDoubleDash(y)
    ensures MakeSlug(y) == y
  {
    forall c | c in y ensures !IsAsciiUpper(c) && !IsSpace(c) && !IsNotWordOrDash(c) {
      assert IsSlugChar(c);
    }
    LowerNoUpper(y);
    TrimNoSpace(y);
    ReplaceRunsAbsent(y, IsSpace, "-");
    ReplaceRunsAbsent(y, IsNotWordOrDash, "");
    ReplaceSingleDashes(y, IsDash);
  }

  /** `makeSlug` is idempotent. */
  lemma MakeSlugIdempotent(text: string)
    ensures MakeSlug(MakeSlug(text)) == MakeSlug(text)
  {
    MakeSlugFixes(MakeSlug(text));
  }

  /** Leading and trailing whitespace of the input does not change the slug. */
  lemma MakeSlugIgnoresSurroundingSpace(w1: string, text: string, w2: string)
    requires AllSpace(w1) && AllSpace(w2)
    ensures MakeSlug(w1 + text + w2) == MakeSlug(text)
  {
    LowerAppend(w1, text);
    LowerAppend(w1 + text, w2);
    SpaceLowered(w1);
    SpaceLowered(w2);
    assert Lower(w1 + text + w2) == w1 + Lower(text) + w2;
    TrimIgnoresSurroundingSpace(w1, Lower(text), w2);
    assert Trim(Lower(w1 + text + w2)) == Trim(Lower(text));
  }

  /** Lowercasing leaves whitespace as it is. */
  lemma SpaceLowered(w: string)
    requires AllSpace(w)
    ensures Lower(w) == w
  {
    forall c | c in w ensures !IsAsciiUpper(c) {
      var i :| 0 <= i < |w| && w[i] == c;
    }
    LowerNoUpper(w);
  }

  // ---- product and store slugs -------------------------------------------------------------

  /** `(^-|-$)+` removed: one leading and one trailing dash. */
  function StripEdgeDashes(s: string): (r: string)
    ensures forall c :: c in r ==> c in s
    ensures NoDoubleDash(s) ==> NoDoubleDash(r) && (r == [] || (r[0] != '-' && r[|r| - 1] != '-'))
  {
    var a := if s != [] && s[0] == '-' then s[1..] else s;
    assert forall c :: c in a ==> c in s;
    assert NoDoubleDash(s) ==> NoDoubleDash(a);
    assert NoDoubleDash(s) && a != [] ==> a[0] != '-' || |s| == 1;
    if a != [] && a[|a| - 1] == '-' then a[..|a| - 1] else a
  }

  /**
   * The slug of a product name or store name: lowercased, every run of characters outside
   * `[a-z0-9]` replaced by '-', then the edge dashes removed.
   */
  function Slugify(name: string): (r: string)
    ensures forall c :: c in r ==> IsLowerAlnum(c) || c == '-'
    ensures NoDoubleDash(r)
    ensures r == [] || (r[0] != '-' && r[|r| - 1] != '-')
  {
    var dashed := ReplaceRuns(Lower(name), IsNotLowerAlnum, "-");
    ReplaceByDashNoDoubleDash(Lower(name), IsNotLowerAlnum);
    forall c | c in dashed ensures IsLowerAlnum(c) || c == '-' {
      assert (c in Lower(name) && !IsNotLowerAlnum(c)) || c in "-";
    }
    StripEdgeDashes(dashed)
  }

  /** A slug is its own slug. */
  lemma SlugifyFixes(y: string)
    requires forall c :: c in y ==> IsLowerAlnum(c) || c == '-'
    requires NoDoubleDash(y) && (y == [] || (y[0] != '-' && y[|y| - 1] != '-'))
    ensures Slugify(y) == y
  {
    forall c | c in y ensures !IsAsciiUpper(c) && (IsNotLowerAlnum(c) <==> c == '-') {
    }
    LowerNoUpper(y);
    ReplaceSingleDashes(y, IsNotLowerAlnum);
    assert ReplaceRuns(Lower(y), IsNotLowerAlnum, "-") == y;
    assert StripEdgeDashes(y) == y;
  }

  /** Slugifying a slug changes nothing. */
  lemma SlugifyIdempotent(name: string)
    ensures Slugify(Slugify(name)) == Slugify(name)
  {
    SlugifyFixes(Slugify(name));
  }

  /** `s.slice(-4)`. */
  function LastFour(s: string): (r: string)
    ensures |r| == if |s| < 4 then |s| else 4
    ensures r == s[|s| - |r|..]
  {
    if |s| <= 4 then s else s[|s| - 4..]
  }

  /**
   * The slug a new product gets: the name's slug, '-', then the last four characters of
   * the decimal timestamp `now` (milliseconds).
   */
  function ProductSlug(name: string, now: nat): (r: string)
    ensures var base := Slugify(name);
      && |base| + 2 <= |r| <= |base| + 5
      && r[..|base|] == base && r[|base|] == '-'
      && (forall c :: c in r[|base| + 1..] ==> IsDigit(c))
    ensures var suffix := r[|Slugify(name)| + 1..];
      && DecimalValue(suffix) == now % 10000
      && (now >= 1000 ==> |suffix| == 4)
      && (now < 1000 ==> suffix == Digits(now))
  {
    var base := Slugify(name);
    var suffix := LastFour(Digits(now));
    DashSuffix(base, Digits(now), suffix);
    TimestampSuffix(now);
    base + "-" + suffix
  }

  /** The last four characters of the decimal timestamp denote it modulo 10000. */
  lemma TimestampSuffix(now: nat)
    ensures var suffix := LastFour(Digits(now));
      && DecimalValue(suffix) == now % 10000
      && (now >= 1000 ==> |suffix| == 4)
      && (now < 1000 ==> suffix == Digits(now))
  {
    var suffix := LastFour(Digits(now));
    DigitsLength(now);
    DigitsSuffixValue(now, |suffix|);
    if now < 1000 {
      assert Digits(now)[0..] == Digits(now);
    } else {
      assert Pow10(4) == 10000;
    }
  }

  /** Joining a base and a tail of a digit string with '-' puts the digits after the dash. */
  lemma DashSuffix(base: string, d: string, t: string)
    requires 1 <= |t| <= 4 && |t| <= |d| && t == d[|d| - |t|..]
    requires forall c :: c in d ==> IsDigit(c)
    ensures var r := base + "-" + t;
      && |base| + 2 <= |r| <= |base| + 5
      && r[..|base|] == base && r[|base|] == '-'
      && (forall c :: c in r[|base| + 1..] ==> IsDigit(c))
      && r[|base| + 1..] == t
  {
    var r := base + "-" + t;
    assert r[|base| + 1..] == t;
    assert forall c :: c in t ==> c in d;
  }
}

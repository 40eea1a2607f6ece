/**
 * Text metrics and fitting: the heuristic width estimator and the
 * width-bounded truncation with an ellipsis.
 *
 * Strings are sequences of `char` (Unicode scalar values). The estimator of
 * the original iterates by code point while the fitter indexes UTF-16 code
 * units; both are modelled over the same sequence of characters, which is
 * exact for text without characters outside the Basic Multilingual Plane.
 */
module TextMetrics {

  /** The ellipsis glyph appended to a truncated label. */
  const Ellipsis: char := '…'

  /** Whitespace as the `\s` class of a JavaScript regular expression. */
  predicate IsSpace(c: char) {
    var cp := c as int;
    (0x09 <= cp <= 0x0D) || cp == 0x20 || cp == 0xA0 || cp == 0x1680
    || (0x2000 <= cp <= 0x200A) || cp == 0x2028 || cp == 0x2029
    || cp == 0x202F || cp == 0x205F || cp == 0x3000 || cp == 0xFEFF
  }

  /** CJK ideographs, kana, Hangul syllables and the fullwidth forms. */
  predicate IsWide(c: char) {
    var cp := c as int;
    (0x3400 <= cp <= 0x9FFF) || (0xF900 <= cp <= 0xFAFF) || (0x3040 <= cp <= 0x30FF)
    || (0xAC00 <= cp <= 0xD7A3) || (0xFF00 <= cp <= 0xFFEF)
  }

  /** Pictographs, emoji and the miscellaneous symbols and dingbats blocks. */
  predicate IsEmoji(c: char) {
    var cp := c as int;
    (0x1F300 <= cp <= 0x1FAFF) || (0x2600 <= cp <= 0x27BF)
  }

  /** The four width buckets, matched in this order. */
  datatype CharClass = Space | Latin | Wide | Emoji

  function Classify(c: char): (k: CharClass)
    ensures k == Space <==> IsSpace(c)
    ensures k == Wide <==> !IsSpace(c) && IsWide(c)
    ensures k == Emoji <==> !IsSpace(c) && !IsWide(c) && IsEmoji(c)
  {
    if IsSpace(c) then Space
    else if IsWide(c) then Wide
    else if IsEmoji(c) then Emoji
    else Latin
  }

  /** Width of one character of each bucket, in multiples of the font size. */
  function Factor(k: CharClass): real {
    match k
    case Space => 0.35
    case Latin => 0.56
    case Wide => 0.95
    case Emoji => 1.2
  }

  /** Estimated width of one character at font size `fs`. */
  function CharWidth(c: char, fs: real): (w: real)
    ensures w == 0.35 * fs || w == 0.56 * fs || w == 0.95 * fs || w == 1.2 * fs
    ensures fs >= 0.0 ==> 0.35 * fs <= w <= 1.2 * fs
  {
    Factor(Classify(c)) * fs
  }

  /**
   * Which bucket costs what: whitespace 0.35, CJK and fullwidth 0.95, emoji
   * 1.2 and everything else 0.56 times the font size.
   */
  lemma CharWidthByClass(c: char, fs: real)
    ensures IsSpace(c) ==> CharWidth(c, fs) == 0.35 * fs
    ensures !IsSpace(c) && IsWide(c) ==> CharWidth(c, fs) == 0.95 * fs
    ensures !IsSpace(c) && !IsWide(c) && IsEmoji(c) ==> CharWidth(c, fs) == 1.2 * fs
    ensures !IsSpace(c) && !IsWide(c) && !IsEmoji(c) ==> CharWidth(c, fs) == 0.56 * fs
  {
  }

  /** Estimated width of a string: the sum of its characters' widths. */
  function Width(s: string, fs: real): real
    decreases |s|
  {
    if s == [] then 0.0 else Width(s[..|s| - 1], fs) + CharWidth(s[|s| - 1], fs)
  }

  lemma WidthSingle(c: char, fs: real)
    ensures Width([c], fs) == CharWidth(c, fs)
  {
    assert [c][..0] == [];
  }

  /** One more character adds exactly that character's width. */
  lemma WidthSnoc(s: string, i: nat, fs: real)
    requires i < |s|
    ensures Width(s[..i + 1], fs) == Width(s[..i], fs) + CharWidth(s[i], fs)
  {
    assert s[..i + 1][..i] == s[..i];
  }

  /** The estimator is additive over concatenation. */
  lemma {:induction false} WidthAppend(a: string, b: string, fs: real)
    ensures Width(a + b, fs) == Width(a, fs) + Width(b, fs)
    decreases |b|
  {
    if b == [] {
      assert a + b == a;
    } else {
      var b' := b[..|b| - 1];
      WidthAppend(a, b', fs);
      assert (a + b)[..|a + b| - 1] == a + b';
    }
  }

  /** For a non-negative font size every character costs at least 0.35 times it. */
  lemma {:induction false} WidthLower(s: string, fs: real)
    requires fs >= 0.0
    ensures 0.35 * fs * (|s| as real) <= Width(s, fs)
    decreases |s|
  {
    if s != [] {
      var n := (|s| - 1) as real;
      WidthLower(s[..|s| - 1], fs);
      assert 0.35 * fs * (|s| as real) == 0.35 * fs * n + 0.35 * fs;
    }
  }

  /** ... and at most 1.2 times it. */
  lemma {:induction false} WidthUpper(s: string, fs: real)
    requires fs >= 0.0
    ensures Width(s, fs) <= 1.2 * fs * (|s| as real)
    decreases |s|
  {
    if s != [] {
      var n := (|s| - 1) as real;
      WidthUpper(s[..|s| - 1], fs);
      assert 1.2 * fs * (|s| as real) == 1.2 * fs * n + 1.2 * fs;
    }
  }

  /** Appending characters never makes the estimate smaller. */
  lemma WidthPrefixMonotone(s: string, i: nat, j: nat, fs: real)
    requires fs >= 0.0 && i <= j <= |s|
    ensures Width(s[..i], fs) <= Width(s[..j], fs)
  {
    assert s[..j] == s[..i] + s[i..j];
    WidthAppend(s[..i], s[i..j], fs);
    WidthLower(s[i..j], fs);
  }

  /** The loop of `estimateTextWidth`: accumulate the width character by character. */
  method EstimateTextWidth(s: string, fs: real) returns (acc: real)
    ensures acc == Width(s, fs)
  {
    acc := 0.0;
    var i := 0;
    while i < |s|
      invariant 0 <= i <= |s|
      invariant acc == Width(s[..i], fs)
    {
      WidthSnoc(s, i, fs);
      acc := acc + CharWidth(s[i], fs);
      i := i + 1;
    }
    assert s[..|s|] == s;
  }

  /** Room kept for the ellipsis after a prefix that is not the whole string. */
  function EllipsisReserve(fs: real): real {
    fs * 0.95
  }

  /** Budget below which nothing at all is drawn. */
  function MinBudget(fs: real): real {
    fs * 0.7
  }

  /** Width that character `i` needs: its own, plus the ellipsis unless it is the last. */
  function Allow(s: string, fs: real, i: nat): real
    requires i < |s|
  {
    var w := Width([s[i]], fs);
    if i < |s| - 1 then w + EllipsisReserve(fs) else w
  }

  /** Character `i` is kept when the remaining budget covers what it needs. */
  predicate Passes(s: string, fs: real, maxW: real, i: nat)
    requires i < |s|
  {
    maxW - Width(s[..i], fs) >= Allow(s, fs, i)
  }

  /** The first index from `i` on whose character is not kept, or |s| if all are. */
  function FirstMiss(s: string, fs: real, maxW: real, i: nat): (k: nat)
    requires i <= |s|
    ensures i <= k <= |s|
    ensures forall j :: i <= j < k ==> Passes(s, fs, maxW, j)
    ensures k < |s| ==> !Passes(s, fs, maxW, k)
    decreases |s| - i
  {
    if i == |s| then |s|
    else if Passes(s, fs, maxW, i) then FirstMiss(s, fs, maxW, i + 1)
    else i
  }

  /** `fitTextToWidth` as a function of its inputs. */
  function Fit(s: string, fs: real, maxW: real): (r: string)
    ensures maxW <= MinBudget(fs) ==> r == []
    ensures |r| <= |s|
    ensures r != s && r != [] ==> 2 <= |r| && r[|r| - 1] == Ellipsis && r[..|r| - 1] == s[..|r| - 1]
  {
    if maxW <= MinBudget(fs) then []
    else
      var k := FirstMiss(s, fs, maxW, 0);
      if k == |s| then s else s[..k] + (if k > 0 then [Ellipsis] else [])
  }

  /**
   * The three outcomes of fitting: the whole string when every character
   * passes; nothing when the first character, with the ellipsis reserve when
   * it is not the last, has no room; otherwise the longest passing prefix,
   * which leaves room for the ellipsis. Each character but the last is tested
   * with the reserve, so a string that would fit whole can still be cut or
   * dropped (`FitDropsFittingText`).
   */
  lemma FitOutcomes(s: string, fs: real, maxW: real)
    requires maxW > MinBudget(fs)
    ensures var k := FirstMiss(s, fs, maxW, 0);
      && (k == |s| ==> Fit(s, fs, maxW) == s && (s == [] || Width(s, fs) <= maxW))
      && (k == 0 < |s| ==> Fit(s, fs, maxW) == [])
      && (0 < k < |s| ==>
            && Fit(s, fs, maxW) == s[..k] + [Ellipsis]
            && Width(s[..k], fs) + EllipsisReserve(fs) <= maxW
            && (k < |s| - 1 ==> Width(s[..k + 1], fs) + EllipsisReserve(fs) > maxW)
            && (k == |s| - 1 ==> Width(s, fs) > maxW))
  {
    var k := FirstMiss(s, fs, maxW, 0);
    if k == |s| && s != [] {
      LastFits(s, fs, maxW);
    }
    if 0 < k < |s| {
      CutFits(s, fs, maxW, k);
    }
  }

  /**
   * The reserve applies even when the whole string would fit: "ab" at size 10
   * is 11.2 wide yet comes back empty in a budget of 12, and "abc" is 16.8
   * wide yet is cut to "a" and the ellipsis in a budget of 17.
   */
  lemma FitDropsFittingText()
    ensures Width("ab", 10.0) <= 12.0 && Fit("ab", 10.0, 12.0) == []
    ensures Width("abc", 10.0) <= 17.0 && Fit("abc", 10.0, 17.0) == "a" + [Ellipsis]
  {
    assert Classify('a') == Latin && Classify('b') == Latin && Classify('c') == Latin;
    WidthSingle('a', 10.0);
    assert "ab"[..1] == "a" && "abc"[..1] == "a" && "abc"[..2] == "ab" && "ab"[..0] == [];
    assert Width("ab", 10.0) == 11.2;
    assert Width("abc", 10.0) == 16.8;
    assert !Passes("ab", 10.0, 12.0, 0);
    assert Passes("abc", 10.0, 17.0, 0);
    assert !Passes("abc", 10.0, 17.0, 1);
  }

  /** When every character passes, the whole string fits. */
  lemma LastFits(s: string, fs: real, maxW: real)
    requires s != [] && Passes(s, fs, maxW, |s| - 1)
    ensures Width(s, fs) <= maxW
  {
    WidthSingle(s[|s| - 1], fs);
    WidthSnoc(s, |s| - 1, fs);
    assert s[..|s|] == s;
  }

  /** A cut after `k` characters leaves room for the ellipsis, and one more would not. */
  lemma CutFits(s: string, fs: real, maxW: real, k: nat)
    requires 0 < k < |s|
    requires Passes(s, fs, maxW, k - 1) && !Passes(s, fs, maxW, k)
    ensures Width(s[..k], fs) + EllipsisReserve(fs) <= maxW
    ensures k < |s| - 1 ==> Width(s[..k + 1], fs) + EllipsisReserve(fs) > maxW
    ensures k == |s| - 1 ==> Width(s, fs) > maxW
  {
    WidthSingle(s[k - 1], fs);
    WidthSnoc(s, k - 1, fs);
    WidthSingle(s[k], fs);
    WidthSnoc(s, k, fs);
    assert s[..|s|] == s;
  }

  /** A fitted label never overflows its budget; the ellipsis costs less than its reserve. */
  lemma FitWidthBound(s: string, fs: real, maxW: real)
    requires fs >= 0.0 && maxW >= 0.0
    ensures Width(Fit(s, fs, maxW), fs) <= maxW
  {
    if maxW > MinBudget(fs) {
      FitOutcomes(s, fs, maxW);
      var k := FirstMiss(s, fs, maxW, 0);
      if 0 < k < |s| {
        WidthAppend(s[..k], [Ellipsis], fs);
        WidthSingle(Ellipsis, fs);
        assert Classify(Ellipsis) == Latin;
      }
    }
  }

  /** The loop of `fitTextToWidth`, returning as soon as a character does not fit. */
  method FitTextToWidth(s: string, fs: real, maxW: real) returns (r: string)
    ensures r == Fit(s, fs, maxW)
  {
    var wEllipsis := fs * 0.95;
    if maxW <= fs * 0.7 {
      return [];
    }
    var acc := 0.0;
    var i := 0;
    while i < |s|
      invariant 0 <= i <= |s|
      invariant acc == Width(s[..i], fs)
      invariant FirstMiss(s, fs, maxW, i) == FirstMiss(s, fs, maxW, 0)
    {
      var w := EstimateTextWidth([s[i]], fs);
      var remain := maxW - acc;
      var needEllipsis := i < |s| - 1;
      var allow := if needEllipsis then w + wEllipsis else w;
      if remain >= allow {
        WidthSingle(s[i], fs);
        WidthSnoc(s, i, fs);
        acc := acc + w;
        i := i + 1;
        continue;
      }
      return s[..i] + (if i > 0 then [Ellipsis] else []);
    }
    return s;
  }
}

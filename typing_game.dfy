/**
 * The poem typing game (src/app/apps/deus00/page.tsx): the kana normalisation used for
 * grading and the positional accuracy score. A character is a Dafny `char`, a Unicode
 * scalar value. It coincides with a JavaScript UTF-16 code unit inside the Basic
 * Multilingual Plane, where every character the normalisation touches lies.
 */
module TypingGame {
  import opened Text
  import Percent
  import Lists

  /** The katakana block `toHiragana` shifts: U+30A1 (small a) to U+30F6 (small ke). */
  predicate IsKatakana(c: char) {
    '\U{30A1}' <= c <= '\U{30F6}'
  }

  /** One character of `toHiragana`: katakana move down by 0x60 onto hiragana. */
  function HiraganaOf(c: char): (d: char)
    ensures IsKatakana(c) ==> d as int == c as int - 0x60
    ensures !IsKatakana(c) ==> d == c
    ensures !IsKatakana(d)
  {
    if IsKatakana(c) then (c as int - 0x60) as char else c
  }

  /** `toHiragana(s)` */
  function ToHiragana(s: string): (r: string)
    ensures |r| == |s|
    ensures forall k | 0 <= k < |r| :: !IsKatakana(r[k])
  {
    seq(|s|, k requires 0 <= k < |s| => HiraganaOf(s[k]))
  }

  /** Hiragana are never shifted again, so converting twice is converting once. */
  lemma ToHiraganaIdempotent(s: string)
    ensures ToHiragana(ToHiragana(s)) == ToHiragana(s)
  {
  }

  /** `.replace(/[ab]/g, to)` for two single characters a and b. */
  function ReplaceEither(s: string, a: char, b: char, to: char): (r: string)
    ensures |r| == |s|
    ensures forall k | 0 <= k < |s| && (s[k] == a || s[k] == b) :: r[k] == to
    ensures forall k | 0 <= k < |s| && s[k] != a && s[k] != b :: r[k] == s[k]
  {
    seq(|s|, k requires 0 <= k < |s| => if s[k] == a || s[k] == b then to else s[k])
  }

  /** The characters the accuracy comparison ignores: ASCII and ideographic spaces, Japanese and
      full-width punctuation, the ASCII comma and full stop, newline, return and tab. */
  predicate IsIgnored(c: char) {
    c == ' ' || c == '\U{3000}' || c == '、' || c == '。' || c == '・' || c == '，' || c == '．'
    || c == ',' || c == '.' || c == '\n' || c == '\r' || c == '\t'
  }

  /** `.replace(/[ 　、。・，．,.\n\r\t]/g, "")` */
  function DropIgnored(s: string): (r: string)
    ensures |r| <= |s|
    ensures forall k | 0 <= k < |r| :: !IsIgnored(r[k])
    ensures forall k | 0 <= k < |r| :: r[k] in s
  {
    var r := Lists.Filter(s, (c: char) => !IsIgnored(c));
    assert forall k | 0 <= k < |r| :: r[k] in r;
    r
  }

  /** The removal distributes over concatenation: the kept characters stay in their order. */
  lemma {:induction false} DropIgnoredAppend(a: string, b: string)
    ensures DropIgnored(a + b) == DropIgnored(a) + DropIgnored(b)
  {
    Lists.FilterAppend(a, b, (c: char) => !IsIgnored(c));
  }

  /** One character is kept exactly when it is not ignored. */
  lemma DropIgnoredOne(c: char)
    ensures DropIgnored([c]) == if IsIgnored(c) then [] else [c]
  {
    assert [c][1..] == [];
  }

  /** The first three steps of `normalizeJP`: katakana to hiragana, then the obsolete
      kana ゐ and ゑ (and their katakana) to い and え. */
  function Kana(s: string): (r: string)
    ensures |r| == |s|
    ensures forall k | 0 <= k < |r| :: !IsKatakana(r[k]) && r[k] != 'ゐ' && r[k] != 'ゑ'
    ensures forall k | 0 <= k < |s| ::
              r[k] == (if HiraganaOf(s[k]) == 'ゐ' then 'い' else if HiraganaOf(s[k]) == 'ゑ' then 'え' else HiraganaOf(s[k]))
  {
    var h := ToHiragana(s);
    var w := ReplaceEither(h, 'ゐ', 'ヰ', 'い');
    assert forall k | 0 <= k < |w| :: !IsKatakana(w[k]) && w[k] != 'ゐ';
    ReplaceEither(w, 'ゑ', 'ヱ', 'え')
  }

  /** `normalizeJP(s)`: the kana steps, ignored characters removed, surrounding white
      space trimmed. */
  function NormalizeJP(s: string): string {
    Trim(DropIgnored(Kana(s)))
  }

  /** What a normalised string never contains. */
  predicate Clean(s: string) {
    forall k | 0 <= k < |s| ::
      !IsKatakana(s[k]) && s[k] != 'ゐ' && s[k] != 'ゑ' && !IsIgnored(s[k])
  }

  /** The normalised text holds no katakana, no ゐ or ゑ and no ignored character. */
  lemma NormalizeClean(s: string)
    ensures Clean(NormalizeJP(s))
  {
    var d := DropIgnored(Kana(s));
    assert Clean(d) by {
      forall k | 0 <= k < |d|
        ensures !IsKatakana(d[k]) && d[k] != 'ゐ' && d[k] != 'ゑ' && !IsIgnored(d[k])
      {
        assert d[k] in Kana(s);
      }
    }
    TrimKeepsClean(d);
  }

  lemma TrimKeepsClean(d: string)
    requires Clean(d)
    ensures Clean(Trim(d))
  {
    TrimSlice(d);
    var t, i := Trim(d), Lead(d);
    assert forall k | 0 <= k < |t| :: t[k] == d[i + k];
  }

  /** On a clean string every step before the trim changes nothing. */
  lemma CleanSteps(s: string)
    requires Clean(s)
    ensures DropIgnored(Kana(s)) == s
  {
    assert ToHiragana(s) == s;
    assert ReplaceEither(s, 'ゐ', 'ヰ', 'い') == s;
    assert ReplaceEither(s, 'ゑ', 'ヱ', 'え') == s;
    DropNone(s);
  }

  lemma {:induction false} DropNone(s: string)
    requires forall k | 0 <= k < |s| :: !IsIgnored(s[k])
    ensures DropIgnored(s) == s
  {
    if s != [] {
      DropNone(s[1..]);
      assert [s[0]] + s[1..] == s;
    }
  }

  /** Normalising twice is normalising once. */
  lemma NormalizeIdempotent(s: string)
    ensures NormalizeJP(NormalizeJP(s)) == NormalizeJP(s)
  {
    var n := NormalizeJP(s);
    NormalizeClean(s);
    CleanSteps(n);
    TrimIdempotent(DropIgnored(Kana(s)));
  }

  /** The positions among the first m where target and input agree. */
  function Hits(t: string, i: string, m: nat): (h: nat)
    requires m <= |t| && m <= |i|
    ensures h <= m
  {
    if m == 0 then 0 else Hits(t, i, m - 1) + (if t[m - 1] == i[m - 1] then 1 else 0)
  }

  function Min(a: nat, b: nat): nat {
    if a <= b then a else b
  }

  /** The score on normalised strings: the share of target positions the input matches,
      as a rounded percentage, and 0 for an empty target. */
  function Score(t: string, i: string): (s: int)
    ensures |t| == 0 ==> s == 0
  {
    if |t| == 0 then 0 else Percent.RoundDiv(100 * Hits(t, i, Min(|t|, |i|)), |t|)
  }

  /** `accuracyPercent(targetRaw, inputRaw)`: both texts are normalised, then scored. */
  method AccuracyPercent(targetRaw: string, inputRaw: string) returns (p: int)
    ensures p == Score(NormalizeJP(targetRaw), NormalizeJP(inputRaw))
  {
    var t := NormalizeJP(targetRaw);
    var i := NormalizeJP(inputRaw);
    p := PositionalScore(t, i);
  }

  /** The counting loop of `accuracyPercent` on the normalised texts t and i. */
  method PositionalScore(t: string, i: string) returns (p: int)
    ensures p == Score(t, i)
  {
    var n := |t|;
    if n == 0 {
      return 0;
    }
    var hit := 0;
    var idx := 0;
    while idx < Min(n, |i|)
      invariant idx <= Min(n, |i|)
      invariant hit == Hits(t, i, idx)
    {
      if t[idx] == i[idx] {
        hit := hit + 1;
      }
      idx := idx + 1;
    }
    p := Percent.RoundDiv(100 * hit, n);
  }

  /** The score is a percentage, and 0 when the target is empty. */
  lemma ScoreBounds(t: string, i: string)
    ensures 0 <= Score(t, i) <= 100
    ensures |t| == 0 ==> Score(t, i) == 0
  {
    if |t| > 0 {
      var h := Hits(t, i, Min(|t|, |i|));
      Percent.RoundDivMono(0, 100 * h, |t|);
      Percent.RoundDivMono(100 * h, 100 * |t|, |t|);
      Percent.RoundDivExact(0, |t|);
      Percent.RoundDivExact(100, |t|);
    }
  }

  lemma {:induction false} HitsSelf(t: string, m: nat)
    requires m <= |t|
    ensures Hits(t, t, m) == m
  {
    if m > 0 {
      HitsSelf(t, m - 1);
    }
  }

  /** Typing the target exactly scores 100 whenever its normalised form is not empty. */
  lemma ScoreSelf(target: string)
    requires NormalizeJP(target) != []
    ensures Score(NormalizeJP(target), NormalizeJP(target)) == 100
  {
    var t := NormalizeJP(target);
    HitsSelf(t, |t|);
    Percent.RoundDivExact(100, |t|);
  }

  lemma {:induction false} HitsPrefix(t: string, i: string, j: string, m: nat)
    requires m <= |t| && m <= |i| && m <= |j|
    requires i[..m] == j[..m]
    ensures Hits(t, i, m) == Hits(t, j, m)
  {
    if m > 0 {
      assert i[m - 1] == i[..m][m - 1] && j[m - 1] == j[..m][m - 1];
      assert i[..m - 1] == i[..m][..m - 1] && j[..m - 1] == j[..m][..m - 1];
      HitsPrefix(t, i, j, m - 1);
    }
  }

  /** Characters typed beyond the target's length do not change the score. */
  lemma ScoreIgnoresOverflow(t: string, i: string, extra: string)
    requires |i| >= |t|
    ensures Score(t, i + extra) == Score(t, i)
  {
    assert (i + extra)[..|t|] == i[..|t|];
    HitsPrefix(t, i + extra, i, |t|);
  }
}

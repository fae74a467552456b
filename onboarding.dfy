/**
 * The registration form (src/app/onboarding/page.tsx): the phone number formatter applied
 * while typing, the pattern the phone must match, and the date-of-birth checks.
 */
module Onboarding {
  import opened Wrappers
  import opened Text

  predicate PhoneChar(c: char) {
    IsDigit(c) || c == '-'
  }

  /** The string with every '-' removed. */
  function StripHyphens(s: string): (r: string)
    ensures |r| <= |s|
  {
    if s == [] then [] else (if s[0] == '-' then [] else [s[0]]) + StripHyphens(s[1..])
  }

  function CountHyphens(s: string): (n: nat)
    ensures n <= |s|
  {
    if s == [] then 0 else (if s[0] == '-' then 1 else 0) + CountHyphens(s[1..])
  }

  lemma {:induction false} HyphensAppend(a: string, b: string)
    ensures StripHyphens(a + b) == StripHyphens(a) + StripHyphens(b)
    ensures CountHyphens(a + b) == CountHyphens(a) + CountHyphens(b)
  {
    StripAppend(a, b);
    CountAppend(a, b);
  }

  lemma {:induction false} StripAppend(a: string, b: string)
    ensures StripHyphens(a + b) == StripHyphens(a) + StripHyphens(b)
  {
    if a == [] {
      assert a + b == b;
    } else {
      var head := if a[0] == '-' then [] else [a[0]];
      assert (a + b)[0] == a[0] && (a + b)[1..] == a[1..] + b;
      StripAppend(a[1..], b);
      assert StripHyphens(a + b) == head + (StripHyphens(a[1..]) + StripHyphens(b));
      assert head + (StripHyphens(a[1..]) + StripHyphens(b)) == (head + StripHyphens(a[1..])) + StripHyphens(b);
    }
  }

  lemma {:induction false} CountAppend(a: string, b: string)
    ensures CountHyphens(a + b) == CountHyphens(a) + CountHyphens(b)
  {
    if a == [] {
      assert a + b == b;
    } else {
      assert (a + b)[0] == a[0] && (a + b)[1..] == a[1..] + b;
      CountAppend(a[1..], b);
    }
  }

  lemma {:induction false} HyphensOfDigits(s: string)
    requires AllDigits(s)
    ensures StripHyphens(s) == s && CountHyphens(s) == 0
  {
    if s != [] {
      HyphensOfDigits(s[1..]);
    }
  }

  function Min(a: int, b: int): int {
    if a <= b then a else b
  }

  /** The layout `formatPhone` gives a string of digits: up to three digits as they are,
      up to seven as 3-rest, and beyond that the first eleven as 3-4-rest. */
  function Layout(d: string): (r: string)
    requires AllDigits(d)
    ensures forall k :: 0 <= k < |r| ==> PhoneChar(r[k])
    ensures forall k :: 0 <= k < |r| ==> (r[k] == '-' <==> (|d| > 3 && k == 3) || (|d| > 7 && k == 8))
    ensures |r| == Min(|d|, 11) + (if |d| <= 3 then 0 else if |d| <= 7 then 1 else 2)
  {
    if |d| <= 3 then d
    else if |d| <= 7 then d[..3] + "-" + d[3..]
    else
      var t := d[..Min(|d|, 11)];
      assert AllDigits(t);
      var r := t[..3] + "-" + t[3..7] + "-" + t[7..];
      assert forall k :: 0 <= k < |r| ==>
        r[k] == (if k < 3 then t[k] else if k == 3 then '-' else if k < 8 then t[k - 1] else if k == 8 then '-' else t[k - 2]);
      assert forall k :: 0 <= k < |r| && k != 3 && k != 8 ==> IsDigit(r[k]);
      r
  }

  /** `formatPhone(input)` */
  function FormatPhone(input: string): (r: string)
    ensures forall k :: 0 <= k < |r| ==> PhoneChar(r[k])
  {
    Layout(Digits(input))
  }

  /** The digits of the input, cut to eleven. */
  function Truncated(input: string): (t: string)
    ensures AllDigits(t) && |t| <= 11 && |t| <= |Digits(input)|
    ensures t == Digits(input)[..|t|]
  {
    var d := Digits(input);
    d[..Min(|d|, 11)]
  }

  /** Dropping the hyphens from the output gives back the input's digits, cut to eleven;
      the output has no hyphen for up to three digits, one for up to seven, two beyond. */
  lemma FormatPhoneDigits(input: string)
    ensures StripHyphens(FormatPhone(input)) == Truncated(input)
    ensures Digits(FormatPhone(input)) == Truncated(input)
    ensures var n := |Digits(input)|;
      CountHyphens(FormatPhone(input)) == (if n <= 3 then 0 else if n <= 7 then 1 else 2)
  {
    var d := Digits(input);
    if |d| <= 3 {
      assert d[..Min(|d|, 11)] == d;
      HyphensOfDigits(d);
      DigitsOfDigits(d);
    } else if |d| <= 7 {
      LayoutMiddle(d);
    } else {
      LayoutLong(d);
    }
  }

  /** Four to seven digits: one hyphen, after the third. */
  lemma LayoutMiddle(d: string)
    requires AllDigits(d) && 3 < |d| <= 7
    ensures var r := Layout(d);
      StripHyphens(r) == d && Digits(r) == d && CountHyphens(r) == 1
  {
    Pieces2(d[..3], d[3..]);
    assert d[..3] + d[3..] == d;
  }

  /** Eight digits or more: two hyphens, after the third and the seventh, and the digits
      beyond the eleventh are dropped. */
  lemma LayoutLong(d: string)
    requires AllDigits(d) && 7 < |d|
    ensures var r, t := Layout(d), d[..Min(|d|, 11)];
      StripHyphens(r) == t && Digits(r) == t && CountHyphens(r) == 2
  {
    var t := d[..Min(|d|, 11)];
    assert AllDigits(t);
    Pieces3(t[..3], t[3..7], t[7..]);
    assert t[..3] + t[3..7] + t[7..] == t;
  }

  /** What a joining hyphen contributes. */
  lemma {:induction false} JoinStrip(a: string, b: string)
    ensures StripHyphens(a + "-" + b) == StripHyphens(a) + StripHyphens(b)
  {
    HyphensAppend(a + "-", b);
    HyphensAppend(a, "-");
  }

  lemma {:induction false} JoinCount(a: string, b: string)
    ensures CountHyphens(a + "-" + b) == CountHyphens(a) + CountHyphens(b) + 1
  {
    HyphensAppend(a + "-", b);
    HyphensAppend(a, "-");
  }

  lemma {:induction false} JoinDigits(a: string, b: string)
    ensures Digits(a + "-" + b) == Digits(a) + Digits(b)
  {
    DigitsAppend(a + "-", b);
    DigitsAppend(a, "-");
  }

  lemma Pieces2(a: string, b: string)
    requires AllDigits(a) && AllDigits(b)
    ensures StripHyphens(a + "-" + b) == a + b && CountHyphens(a + "-" + b) == 1
    ensures Digits(a + "-" + b) == a + b
  {
    JoinStrip(a, b);
    JoinCount(a, b);
    JoinDigits(a, b);
    HyphensOfDigits(a);
    HyphensOfDigits(b);
    DigitsOfDigits(a);
    DigitsOfDigits(b);
  }

  lemma Pieces3(a: string, b: string, c: string)
    requires AllDigits(a) && AllDigits(b) && AllDigits(c)
    ensures StripHyphens(a + "-" + b + "-" + c) == a + b + c && CountHyphens(a + "-" + b + "-" + c) == 2
    ensures Digits(a + "-" + b + "-" + c) == a + b + c
  {
    Pieces2(a, b);
    var ab := a + "-" + b;
    JoinStrip(ab, c);
    JoinCount(ab, c);
    JoinDigits(ab, c);
    HyphensOfDigits(c);
    DigitsOfDigits(c);
  }

  /** Formatting an already formatted number changes nothing. */
  lemma FormatPhoneIdempotent(input: string)
    ensures FormatPhone(FormatPhone(input)) == FormatPhone(input)
  {
    FormatPhoneDigits(input);
    var d := Digits(input);
    var t := Truncated(input);
    assert t[..Min(|t|, 11)] == t;
    if |d| <= 7 {
      assert t == d;
    }
  }

  /** `/^\d{2,4}-\d{3,4}-\d{3,4}$/` with the two hyphens at positions i and j. */
  predicate PhoneShape(s: string, i: int, j: int) {
    && 2 <= i <= 4 && i + 4 <= j <= i + 5 && j + 4 <= |s| <= j + 5
    && s[i] == '-' && s[j] == '-'
    && AllDigits(s[..i]) && AllDigits(s[i + 1..j]) && AllDigits(s[j + 1..])
  }

  /** `phoneRegex.test(s)` */
  predicate MatchesPhone(s: string) {
    exists i, j | 0 <= i < j < |s| :: PhoneShape(s, i, j)
  }

  /** A formatted number passes the pattern exactly when at least ten digits were typed. */
  lemma FormatPhoneMatches(input: string)
    ensures MatchesPhone(FormatPhone(input)) <==> |Digits(input)| >= 10
  {
    var d := Digits(input);
    var r := FormatPhone(input);
    if |d| >= 10 {
      assert PhoneShape(r, 3, 8) by {
        assert forall k :: 0 <= k < 3 ==> r[..3][k] == r[k];
        assert forall k :: 0 <= k < 4 ==> r[4..8][k] == r[4 + k];
        assert forall k :: 0 <= k < |r| - 9 ==> r[9..][k] == r[9 + k];
      }
    }
  }

  /** A calendar date as year, month and day of month. */
  datatype Date = Date(year: int, month: int, day: int)

  /** Calendar order. */
  predicate OnOrBefore(a: Date, b: Date) {
    a.year < b.year || (a.year == b.year && (a.month < b.month || (a.month == b.month && a.day <= b.day)))
  }

  /** The age-rule arithmetic: the year difference, one less before this year's birthday. */
  function Age(birth: Date, today: Date): int {
    var m := today.month - birth.month;
    var age := today.year - birth.year;
    if m < 0 || (m == 0 && today.day < birth.day) then age - 1 else age
  }

  /** The age is the number of birthdays that have passed: the one at that age is on or
      before today and the next one is after it. */
  lemma AgeIsPassedBirthdays(birth: Date, today: Date)
    ensures var a := Age(birth, today);
      && OnOrBefore(Date(birth.year + a, birth.month, birth.day), today)
      && !OnOrBefore(Date(birth.year + a + 1, birth.month, birth.day), today)
  {
  }

  /** Someone at least eighteen was not born in the future. */
  lemma AdultIsPast(birth: Date, today: Date)
    requires Age(birth, today) >= 18
    ensures OnOrBefore(birth, today)
  {
  }

  const DobRequired := "生年月日を入力してください"
  const DobInvalid := "正しい日付を入力してください"
  const DobFuture := "未来日は選べません"
  const DobUnder18 := "18歳以上のみ登録可能です"

  /** The message shown for the date of birth: the first check it fails, in the order the
      schema lists them. `parsed` is what the entered string denotes, `None` when
      `Date.parse` rejects it. */
  function DobError(dob: string, parsed: Option<Date>, today: Date): (e: Option<string>)
    ensures e == None <==> dob != "" && parsed.Some? && Age(parsed.value, today) >= 18
    ensures dob == "" ==> e == Some(DobRequired)
    ensures dob != "" && parsed.None? ==> e == Some(DobInvalid)
    ensures dob != "" && parsed.Some? && !OnOrBefore(parsed.value, today) ==> e == Some(DobFuture)
    ensures dob != "" && parsed.Some? && OnOrBefore(parsed.value, today) && Age(parsed.value, today) < 18 ==>
              e == Some(DobUnder18)
  {
    if dob == "" then Some(DobRequired)
    else if parsed.None? then Some(DobInvalid)
    else if !OnOrBefore(parsed.value, today) then Some(DobFuture)
    else if Age(parsed.value, today) < 18 then Some(DobUnder18)
    else None
  }
}

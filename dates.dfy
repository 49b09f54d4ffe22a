/** The date keys of the two trend endpoints: the name
    `transactions_MMDDYY.csv` gives the key `20YY-MM-DD`; the weekday endpoint
    also parses the key with `datetime.strptime(key, '%Y-%m-%d')` and takes
    `weekday()` of the result (Monday is 0). */
module Dates {
  import opened Text
  import opened Wrappers
  import opened Calendar

  const Prefix: string := "transactions_"
  const Suffix: string := ".csv"

  /** `name.replace('transactions_', '').replace('.csv', '')`. */
  function DatePart(name: string): string {
    RemoveAll(RemoveAll(name, Prefix), Suffix)
  }

  /** A key as the trend endpoints build it: ten characters, "20" first and
      dashes at positions 4 and 7. */
  ghost predicate IsKeyShape(k: string) {
    |k| == 10 && k[..2] == "20" && k[4] == '-' && k[7] == '-'
  }

  /** `f"20{year}-{month}-{day}"` of the six characters `MMDDYY`. */
  function KeyOf(p: string): (k: string)
    requires |p| == 6
    ensures IsKeyShape(k)
  {
    "20" + p[4..6] + "-" + p[..2] + "-" + p[2..4]
  }

  /** The six characters `MMDDYY` a key is built from. */
  function PartOf(k: string): string
    requires |k| == 10
  {
    k[5..7] + k[8..10] + k[2..4]
  }

  /** Building a key loses none of the six characters... */
  lemma KeyRoundTrip(p: string)
    requires |p| == 6
    ensures PartOf(KeyOf(p)) == p
  {
    var k := KeyOf(p);
    assert k[5..7] == p[..2] && k[8..10] == p[2..4] && k[2..4] == p[4..6];
    assert p == p[..2] + p[2..4] + p[4..6];
  }

  /** ...and every key shape is built from its own six characters. */
  lemma PartRoundTrip(k: string)
    requires IsKeyShape(k)
    ensures KeyOf(PartOf(k)) == k
  {
    var p := PartOf(k);
    assert p[4..6] == k[2..4] && p[..2] == k[5..7] && p[2..4] == k[8..10];
    assert k == k[..2] + k[2..4] + [k[4]] + k[5..7] + [k[7]] + k[8..10];
  }

  /** The date key of a file name, or `None` where the endpoints `continue`
      because the name does not leave exactly six characters. */
  function DateKey(name: string): (r: Option<string>)
    ensures r.Some? <==> |DatePart(name)| == 6
    ensures r.Some? ==> IsKeyShape(r.v) && PartOf(r.v) == DatePart(name)
  {
    var p := DatePart(name);
    if |p| == 6 then
      KeyRoundTrip(p);
      Some(KeyOf(p))
    else None
  }

  /** The file name `transactions_MMDDYY.csv` of a key. */
  function FileNameOf(k: string): string
    requires |k| == 10
  {
    Prefix + PartOf(k) + Suffix
  }

  /** Any six characters other than `t` and `.` between prefix and suffix give
      their key: the daily endpoint checks neither that they are digits nor
      that they form a date. */
  lemma DateKeyOfName(p: string)
    requires |p| == 6 && forall i :: 0 <= i < |p| ==> p[i] != 't' && p[i] != '.'
    ensures DateKey(Prefix + p + Suffix) == Some(KeyOf(p))
  {
    assert Prefix + p + Suffix == Prefix + (p + Suffix);
    RemoveAllLeading(Prefix, p + Suffix);
    assert p + Suffix == (p + Suffix) + [];
    RemoveAllKeeps(p + Suffix, [], Prefix);
    RemoveAllKeeps(p, Suffix, Suffix);
    assert Suffix == Suffix + [];
    RemoveAllLeading(Suffix, []);
    assert p + [] == p;
  }

  /** A key whose six characters avoid `t` and `.` is the key of its own file name. */
  lemma FileNameRoundTrip(k: string)
    requires IsKeyShape(k)
    requires forall i :: 0 <= i < 6 ==> PartOf(k)[i] != 't' && PartOf(k)[i] != '.'
    ensures DateKey(FileNameOf(k)) == Some(k)
  {
    DateKeyOfName(PartOf(k));
    PartRoundTrip(k);
  }

  // ---------------------------------------------------------------- strptime

  predicate IsDigit(c: char) {
    '0' <= c <= '9'
  }

  function DigitValue(c: char): int {
    c as int - '0' as int
  }

  function DigitChar(n: int): char
    requires 0 <= n <= 9
  {
    ('0' as int + n) as char
  }

  /** Alternative `i` of `%m`, `1[0-2]|0[1-9]|[1-9]`, at the start of `s`, if it
      matches there: the month it denotes and the number of characters it takes. */
  function MonthAlternative(s: string, i: nat): (r: Option<(int, nat)>)
    requires i < 3
    ensures r.Some? ==> 1 <= r.v.0 <= 12 && 1 <= r.v.1 <= 2 && r.v.1 <= |s|
  {
    if i == 0 then
      if |s| >= 2 && s[0] == '1' && '0' <= s[1] <= '2' then Some((10 + DigitValue(s[1]), 2)) else None
    else if i == 1 then
      if |s| >= 2 && s[0] == '0' && '1' <= s[1] <= '9' then Some((DigitValue(s[1]), 2)) else None
    else
      if |s| >= 1 && '1' <= s[0] <= '9' then Some((DigitValue(s[0]), 1)) else None
  }

  /** `%d`, `3[01]|[12]\d|0[1-9]|[1-9]| [1-9]`, at the start of `s`: nothing
      follows it in the pattern, so the first alternative that matches is the
      one taken. A day may also be written as a blank and one digit. */
  function DayMatch(s: string): (r: Option<(int, nat)>)
    ensures r.Some? ==> 1 <= r.v.0 <= 31 && 1 <= r.v.1 <= 2 && r.v.1 <= |s|
  {
    if |s| >= 2 && s[0] == '3' && '0' <= s[1] <= '1' then Some((30 + DigitValue(s[1]), 2))
    else if |s| >= 2 && '1' <= s[0] <= '2' && IsDigit(s[1]) then Some((10 * DigitValue(s[0]) + DigitValue(s[1]), 2))
    else if |s| >= 2 && s[0] == '0' && '1' <= s[1] <= '9' then Some((DigitValue(s[1]), 2))
    else if |s| >= 1 && '1' <= s[0] <= '9' then Some((DigitValue(s[0]), 1))
    else if |s| >= 2 && s[0] == ' ' && '1' <= s[1] <= '9' then Some((DigitValue(s[1]), 2))
    else None
  }

  /** `(%m)-(%d)` at the start of `s`, trying the month alternatives from `i`
      on, in order: the first one behind which a dash and a day follow. Gives
      month, day and the number of characters of `s` taken. */
  function MatchMonthDay(s: string, i: nat): (r: Option<(int, int, nat)>)
    requires i <= 3
    ensures r.Some? ==> 1 <= r.v.0 <= 12 && 1 <= r.v.1 <= 31 && r.v.2 <= |s|
    decreases 3 - i
  {
    if i == 3 then None
    else
      var m := MonthAlternative(s, i);
      if m.Some? && m.v.1 < |s| && s[m.v.1] == '-' && DayMatch(s[m.v.1 + 1..]).Some? then
        var day := DayMatch(s[m.v.1 + 1..]).v;
        Some((m.v.0, day.0, m.v.1 + 1 + day.1))
      else MatchMonthDay(s, i + 1)
  }

  /** `re.match` of `(\d\d\d\d)-(%m)-(%d)` against `s`: the first match in
      the regular expression's backtracking order, as the date it spells and
      the number of characters it covers. */
  function MatchYmd(s: string): (r: Option<(Date, nat)>)
    ensures r.Some? ==> 1 <= r.v.0.month <= 12 && 1 <= r.v.0.day <= 31 && 0 <= r.v.0.year <= 9999 && r.v.1 <= |s|
  {
    if |s| >= 5 && IsDigit(s[0]) && IsDigit(s[1]) && IsDigit(s[2]) && IsDigit(s[3]) && s[4] == '-' then
      var year := 1000 * DigitValue(s[0]) + 100 * DigitValue(s[1]) + 10 * DigitValue(s[2]) + DigitValue(s[3]);
      match MatchMonthDay(s[5..], 0)
      case None => None
      case Some(md) => Some((Date(year, md.0, md.1), 5 + md.2))
    else None
  }

  /** `datetime.strptime(s, '%Y-%m-%d')`: `None` for each `ValueError` it
      raises, that is when the format does not match, when the first match
      leaves characters over, or when the date does not exist (year 0, a day
      past the end of its month). */
  function ParseYmd(s: string): (r: Option<Date>)
    ensures r.Some? ==> ValidDate(r.v)
  {
    match MatchYmd(s)
    case None => None
    case Some(m) =>
      if m.1 != |s| then None
      else if !ValidDate(m.0) then None
      else Some(m.0)
  }

  /** `n` as two digits. */
  function Digits2(n: int): (r: string)
    requires 0 <= n <= 99
    ensures |r| == 2 && IsDigit(r[0]) && IsDigit(r[1]) && 10 * DigitValue(r[0]) + DigitValue(r[1]) == n
  {
    [DigitChar(n / 10), DigitChar(n % 10)]
  }

  /** A date written `YYYY-MM-DD` with leading zeros. */
  function FormatYmd(d: Date): (r: string)
    requires ValidDate(d)
    ensures |r| == 10
  {
    Digits2(d.year / 100) + Digits2(d.year % 100) + "-" + Digits2(d.month) + "-" + Digits2(d.day)
  }

  /** The same with the day written as a blank and its one digit. */
  function FormatYmdBlankDay(d: Date): (r: string)
    requires ValidDate(d) && d.day <= 9
    ensures |r| == 10
  {
    FormatYmd(d)[..8] + [' ', DigitChar(d.day)]
  }

  /** Two digits read as a number and written again give back the two digits. */
  lemma TwoDigits(a: char, b: char)
    requires IsDigit(a) && IsDigit(b)
    ensures Digits2(10 * DigitValue(a) + DigitValue(b)) == [a, b]
  {
  }

  /** Every existing date, written with leading zeros, parses back to itself;
      a day below 10 written with a blank instead of the zero does too. */
  lemma ParseFormat(d: Date)
    requires ValidDate(d)
    ensures ParseYmd(FormatYmd(d)) == Some(d)
    ensures d.day <= 9 ==> ParseYmd(FormatYmdBlankDay(d)) == Some(d)
  {
    ParseWritten(d, FormatYmd(d));
    if d.day <= 9 {
      ParseWritten(d, FormatYmdBlankDay(d));
    }
  }

  lemma ParseWritten(d: Date, s: string)
    requires ValidDate(d) && |s| == 10 && s[..8] == FormatYmd(d)[..8]
    requires s[8..] == Digits2(d.day) || (d.day <= 9 && s[8..] == [' ', DigitChar(d.day)])
    ensures ParseYmd(s) == Some(d)
  {
    var f := FormatYmd(d);
    var hi, lo := Digits2(d.year / 100), Digits2(d.year % 100);
    assert f[..2] == hi && f[2..4] == lo && f[4] == '-';
    assert s[0] == hi[0] && s[1] == hi[1] && s[2] == lo[0] && s[3] == lo[1];
    assert 100 * (d.year / 100) + d.year % 100 == d.year;
    assert s[5..7] == f[5..7] == Digits2(d.month) && s[7] == '-';
    var rest := s[5..];
    assert rest[3..] == s[8..];
    MonthDayFormat(d.month, d.day, rest);
  }

  /** A two-digit month, a dash and a day written as two digits or as a blank
      and one digit are matched whole by the first alternatives that apply. */
  lemma MonthDayFormat(m: int, day: int, s: string)
    requires 1 <= m <= 12 && 1 <= day <= 31 && |s| == 5 && s[..2] == Digits2(m) && s[2] == '-'
    requires s[3..] == Digits2(day) || (day <= 9 && s[3..] == [' ', DigitChar(day)])
    ensures MatchMonthDay(s, 0) == Some((m, day, 5))
  {
    assert s[0] == Digits2(m)[0] && s[1] == Digits2(m)[1];
    assert MonthAlternative(s, 0).Some? || MonthAlternative(s, 1).Some?;
    var t := s[3..];
    assert DayMatch(t) == Some((day, 2));
  }

  /** A ten-character string that parses is the written form of its date, with
      leading zeros or with a blank before a one-digit day: the weekday
      endpoint accepts exactly the keys that spell an existing date. */
  lemma ParseKey(s: string)
    requires |s| == 10 && ParseYmd(s).Some?
    ensures var d := ParseYmd(s).v;
      s == FormatYmd(d) || (d.day <= 9 && s == FormatYmdBlankDay(d))
  {
    var d := ParseYmd(s).v;
    var rest := s[5..];
    MatchTen(rest, 0);
    YearDigits(s);
    var f := FormatYmd(d);
    assert f[..4] == s[..4] && f[4] == s[4] && f[5..7] == rest[..2] && f[7] == rest[2];
    DayDigits(rest[3..]);
    if rest[3] == ' ' {
      assert s == f[..8] + [' ', DigitChar(d.day)];
    } else {
      assert s == f;
    }
  }

  /** The four year digits of a match are the year written with leading zeros. */
  lemma YearDigits(s: string)
    requires MatchYmd(s).Some?
    ensures var y := MatchYmd(s).v.0.year;
      s[..4] == Digits2(y / 100) + Digits2(y % 100)
  {
    var y := MatchYmd(s).v.0.year;
    assert y / 100 == 10 * DigitValue(s[0]) + DigitValue(s[1]);
    assert y % 100 == 10 * DigitValue(s[2]) + DigitValue(s[3]);
    TwoDigits(s[0], s[1]);
    TwoDigits(s[2], s[3]);
  }

  /** A two-character day is two digits or a blank and a digit. */
  lemma DayDigits(t: string)
    requires |t| == 2 && DayMatch(t).Some? && DayMatch(t).v.1 == 2
    ensures var day := DayMatch(t).v.0;
      if t[0] == ' ' then day <= 9 && t == [' ', DigitChar(day)] else t == Digits2(day)
  {
    if t[0] != ' ' {
      TwoDigits(t[0], t[1]);
    }
  }

  /** On the five characters after the year, a match that covers them all
      takes a two-digit month, the dash behind it and a two-character day. */
  lemma {:induction false} MatchTen(rest: string, i: nat)
    requires |rest| == 5 && i <= 3
    requires MatchMonthDay(rest, i).Some? && MatchMonthDay(rest, i).v.2 == 5
    ensures var md := MatchMonthDay(rest, i).v;
      && rest[2] == '-' && rest[..2] == Digits2(md.0)
      && DayMatch(rest[3..]) == Some((md.1, 2))
    decreases 3 - i
  {
    var m := MonthAlternative(rest, i);
    if m.Some? && m.v.1 < |rest| && rest[m.v.1] == '-' && DayMatch(rest[m.v.1 + 1..]).Some? {
      assert m.v.1 == 2;
      assert i < 2;
      TwoDigits(rest[0], rest[1]);
    } else {
      MatchTen(rest, i + 1);
    }
  }

  /** The example of the source's comments: `transactions_110625.csv` has the
      key 2025-11-06... */
  lemma ExampleKey()
    ensures DateKey("transactions_110625.csv") == Some("2025-11-06")
  {
    var p := "110625";
    assert Prefix + p + Suffix == "transactions_110625.csv";
    DateKeyOfName(p);
    assert p[4..6] == "25" && p[..2] == "11" && p[2..4] == "06";
    assert KeyOf(p) == "20" + "25" + "-" + "11" + "-" + "06" == "2025-11-06";
  }

  /** ...which parses to 6 November 2025... */
  lemma ExampleParse()
    ensures ParseYmd("2025-11-06") == Some(Date(2025, 11, 6))
  {
    var d := Date(2025, 11, 6);
    assert Digits2(20) == "20" && Digits2(25) == "25" && Digits2(11) == "11" && Digits2(6) == "06";
    assert FormatYmd(d) == "2025-11-06";
    ParseFormat(d);
  }

  /** ...a Thursday. */
  lemma ExampleWeekday()
    ensures ValidDate(Date(2025, 11, 6)) && Weekday(Date(2025, 11, 6)) == 3 && DayNames[3] == "Thursday"
  {
    var d := Date(2025, 11, 6);
    var o := Ordinal(d);
    assert o == 739561;
    assert Weekday(d) == (o + 6) % 7;
  }
}

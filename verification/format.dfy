/** The log-line formatting both services share: `getCurrTime` renders the UTC
    date components as `YYYY/MM/DD HH:MM:SS`, and `log` prefixes a message with
    `[<time>]: `.  The clock and the file/console output are not modelled; the
    date enters as a record of the integers the `Date` getters return. */
module Format {

  import opened Wrappers

  predicate IsDigit(c: char) {
    '0' <= c <= '9'
  }

  predicate AllDigits(s: string) {
    forall i :: 0 <= i < |s| ==> IsDigit(s[i])
  }

  /** A decimal numeral as JavaScript prints one: at least one digit, and no
      leading zero unless the numeral is the single digit `0`. */
  predicate Canonical(s: string) {
    AllDigits(s) && 1 <= |s| && (|s| > 1 ==> s[0] != '0')
  }

  function DigitChar(d: nat): (c: char)
    requires d < 10
    ensures IsDigit(c)
  {
    ('0' as int + d) as char
  }

  function DigitValue(c: char): (d: nat)
    requires IsDigit(c)
    ensures d < 10 && DigitChar(d) == c
  {
    c as int - '0' as int
  }

  /** The number a string of decimal digits denotes, most significant first. */
  function ParseNat(s: string): (n: nat)
    requires AllDigits(s)
    decreases |s|
  {
    if s == [] then 0 else ParseNat(s[..|s| - 1]) * 10 + DigitValue(s[|s| - 1])
  }

  /** JavaScript's `String(n)` (and `"" + n`) for a non-negative integer below
      10^21, the range in which it prints plain decimal digits; every value
      formatted here lies far below it. */
  function NatToString(n: nat): (s: string)
    ensures Canonical(s) && ParseNat(s) == n
    ensures |s| == 1 <==> n < 10
    decreases n
  {
    if n < 10 then [DigitChar(n)]
    else
      var p := NatToString(n / 10);
      var s := p + [DigitChar(n % 10)];
      assert s[..|s| - 1] == p;
      s
  }

  lemma {:induction false} ParseNatPositive(s: string)
    requires AllDigits(s) && 1 <= |s| && s[0] != '0'
    ensures ParseNat(s) >= 1
    decreases |s|
  {
    if |s| > 1 {
      var p := s[..|s| - 1];
      assert p[0] == s[0];
      ParseNatPositive(p);
    } else {
      assert DigitChar(0) == '0';
    }
  }

  /** `NatToString` is onto the canonical numerals: together with its own
      postcondition, `NatToString` and `ParseNat` are mutually inverse. */
  lemma {:induction false} NatToStringOfParse(s: string)
    requires Canonical(s)
    ensures NatToString(ParseNat(s)) == s
    decreases |s|
  {
    var p := s[..|s| - 1];
    var c := s[|s| - 1];
    assert s == p + [c];
    if |s| > 1 {
      assert p[0] == s[0];
      assert Canonical(p);
      ParseNatPositive(p);
      NatToStringOfParse(p);
      var n := ParseNat(s);
      assert n == ParseNat(p) * 10 + DigitValue(c);
      assert n / 10 == ParseNat(p) && n % 10 == DigitValue(c);
    }
  }

  /** The source's `(v < 10 ? "0" : "") + v`. */
  function Pad2(v: nat): (s: string)
    ensures AllDigits(s) && ParseNat(s) == v
    ensures 2 <= |s| && (v < 100 ==> |s| == 2)
    ensures s[0] == '0' <==> v < 10
  {
    if v < 10 then
      var t := NatToString(v);
      assert ("0" + t)[..1] == "0";
      "0" + t
    else
      var s := NatToString(v);
      assert v < 100 ==> NatToString(v / 10) == [DigitChar(v / 10)];
      s
  }

  /** The values `getUTCFullYear`, `getUTCMonth` (zero-based), `getUTCDate`,
      `getUTCHours`, `getUTCMinutes` and `getUTCSeconds` return. */
  datatype DateParts = DateParts(year: nat, month: nat, day: nat, hours: nat, minutes: nat, seconds: nat)

  /** The ranges the `Date` getters guarantee. */
  predicate ValidDate(d: DateParts) {
    d.month < 12 && 1 <= d.day <= 31 && d.hours < 24 && d.minutes < 60 && d.seconds < 60
  }

  /** `getCurrTime`: the year as printed, then the one-based month, the day,
      the hours, the minutes and the seconds, each padded to two digits. */
  function CurrTime(d: DateParts): (s: string)
    ensures ValidDate(d) ==> |s| == |NatToString(d.year)| + 15
  {
    NatToString(d.year) + "/" + Pad2(d.month + 1) + "/" + Pad2(d.day) + " "
    + Pad2(d.hours) + ":" + Pad2(d.minutes) + ":" + Pad2(d.seconds)
  }

  /** The value of a two-digit field. */
  function Digits2(hi: char, lo: char): (v: nat)
    requires IsDigit(hi) && IsDigit(lo)
    ensures v < 100
  {
    DigitValue(hi) * 10 + DigitValue(lo)
  }

  lemma ParseNat2(s: string)
    requires AllDigits(s) && |s| == 2
    ensures ParseNat(s) == Digits2(s[0], s[1])
  {
    var p := s[..1];
    assert p[..0] == [] && p[0] == s[0];
    assert ParseNat(p) == DigitValue(s[0]);
  }

  /** `s` is a printed year followed by `/MM/DD HH:MM:SS`. */
  predicate TimeLayout(s: string) {
    && 16 <= |s|
    && var k := |s| - 15;
    && Canonical(s[..k]) && s[k] == '/' && s[k + 3] == '/' && s[k + 6] == ' '
    && s[k + 9] == ':' && s[k + 12] == ':'
    && IsDigit(s[k + 1]) && IsDigit(s[k + 2]) && IsDigit(s[k + 4]) && IsDigit(s[k + 5])
    && IsDigit(s[k + 7]) && IsDigit(s[k + 8]) && IsDigit(s[k + 10]) && IsDigit(s[k + 11])
    && IsDigit(s[k + 13]) && IsDigit(s[k + 14])
  }

  /** Reads a `getCurrTime` string back into date components; `None` when the
      string does not have that layout. */
  function ParseTime(s: string): (r: Option<DateParts>)
  {
    if !TimeLayout(s) then None
    else
      var k := |s| - 15;
      var month := Digits2(s[k + 1], s[k + 2]);
      if month == 0 then None
      else
        Some(DateParts(ParseNat(s[..k]), month - 1, Digits2(s[k + 4], s[k + 5]),
                       Digits2(s[k + 7], s[k + 8]), Digits2(s[k + 10], s[k + 11]),
                       Digits2(s[k + 13], s[k + 14])))
  }

  /** Where each piece of a `y/mo/da h:mi:se` concatenation lands when the
      five trailing fields have two characters each. */
  lemma FieldOffsets(y: string, mo: string, da: string, h: string, mi: string, se: string)
    requires |mo| == 2 && |da| == 2 && |h| == 2 && |mi| == 2 && |se| == 2
    ensures var s, k := y + "/" + mo + "/" + da + " " + h + ":" + mi + ":" + se, |y|;
            && |s| == k + 15
            && s[..k] == y
            && s[k] == '/' && s[k + 3] == '/' && s[k + 6] == ' ' && s[k + 9] == ':' && s[k + 12] == ':'
            && s[k + 1..k + 3] == mo && s[k + 4..k + 6] == da && s[k + 7..k + 9] == h
            && s[k + 10..k + 12] == mi && s[k + 13..] == se
  {
    var k := |y|;
    // Peel the fields off the back, one concatenation at a time.
    var p2 := y + "/" + mo;
    var p4 := p2 + "/" + da;
    var p6 := p4 + " " + h;
    var p8 := p6 + ":" + mi;
    var s := p8 + ":" + se;
    SliceOfPrefix(p8, ":" + se, k + 10, k + 12);
    SliceOfPrefix(p6, ":" + mi, k + 7, k + 9);
    SliceOfPrefix(p4, " " + h, k + 4, k + 6);
    SliceOfPrefix(p2, "/" + da, k + 1, k + 3);
    assert s == p8 + (":" + se);
    assert s[..k + 12] == p8;
    assert p8 == p6 + (":" + mi);
    assert s[..k + 9] == p6;
    assert p6 == p4 + (" " + h);
    assert s[..k + 6] == p4;
    assert p4 == p2 + ("/" + da);
    assert s[..k + 3] == p2;
  }

  /** The characters of each field of a `y/mo/da h:mi:se` string. */
  lemma FieldChars(y: string, mo: string, da: string, h: string, mi: string, se: string)
    requires Canonical(y) && AllDigits(mo) && AllDigits(da) && AllDigits(h) && AllDigits(mi) && AllDigits(se)
    requires |mo| == 2 && |da| == 2 && |h| == 2 && |mi| == 2 && |se| == 2
    ensures var s, k := y + "/" + mo + "/" + da + " " + h + ":" + mi + ":" + se, |y|;
            && TimeLayout(s) && k == |s| - 15 && s[..k] == y
            && s[k + 1] == mo[0] && s[k + 2] == mo[1] && s[k + 4] == da[0] && s[k + 5] == da[1]
            && s[k + 7] == h[0] && s[k + 8] == h[1] && s[k + 10] == mi[0] && s[k + 11] == mi[1]
            && s[k + 13] == se[0] && s[k + 14] == se[1]
  {
    FieldOffsets(y, mo, da, h, mi, se);
    var s := y + "/" + mo + "/" + da + " " + h + ":" + mi + ":" + se;
    var k := |y|;
    assert s[k + 1] == mo[0] && s[k + 2] == mo[1];
    assert s[k + 4] == da[0] && s[k + 5] == da[1];
    assert s[k + 7] == h[0] && s[k + 8] == h[1];
    assert s[k + 10] == mi[0] && s[k + 11] == mi[1];
    assert s[k + 13] == se[0] && s[k + 14] == se[1];
  }

  /** What `ParseTime` returns on a string with the `getCurrTime` layout. */
  lemma ParseTimeFields(s: string, k: nat)
    requires TimeLayout(s) && k == |s| - 15
    requires Digits2(s[k + 1], s[k + 2]) >= 1
    ensures ParseTime(s) == Some(DateParts(ParseNat(s[..k]), Digits2(s[k + 1], s[k + 2]) - 1, Digits2(s[k + 4], s[k + 5]),
                                           Digits2(s[k + 7], s[k + 8]), Digits2(s[k + 10], s[k + 11]),
                                           Digits2(s[k + 13], s[k + 14])))
  {
  }

  /** `ParseTime` reads each field of a `y/mo/da h:mi:se` string back. */
  lemma ParseFields(y: string, mo: string, da: string, h: string, mi: string, se: string)
    requires Canonical(y) && AllDigits(mo) && AllDigits(da) && AllDigits(h) && AllDigits(mi) && AllDigits(se)
    requires |mo| == 2 && |da| == 2 && |h| == 2 && |mi| == 2 && |se| == 2
    requires Digits2(mo[0], mo[1]) >= 1
    ensures ParseTime(y + "/" + mo + "/" + da + " " + h + ":" + mi + ":" + se)
         == Some(DateParts(ParseNat(y), Digits2(mo[0], mo[1]) - 1, Digits2(da[0], da[1]),
                           Digits2(h[0], h[1]), Digits2(mi[0], mi[1]), Digits2(se[0], se[1])))
  {
    FieldChars(y, mo, da, h, mi, se);
    ParseTimeFields(y + "/" + mo + "/" + da + " " + h + ":" + mi + ":" + se, |y|);
  }

  /** Every component survives the formatting: the date can be read back
      exactly from what `getCurrTime` prints. */
  lemma CurrTimeRoundTrip(d: DateParts)
    requires ValidDate(d)
    ensures ParseTime(CurrTime(d)) == Some(d)
  {
    var y, mo, da := NatToString(d.year), Pad2(d.month + 1), Pad2(d.day);
    var h, mi, se := Pad2(d.hours), Pad2(d.minutes), Pad2(d.seconds);
    ParseNat2(mo);
    ParseNat2(da);
    ParseNat2(h);
    ParseNat2(mi);
    ParseNat2(se);
    ParseFields(y, mo, da, h, mi, se);
  }

  lemma SliceOfPrefix(a: string, b: string, i: nat, j: nat)
    requires i <= j <= |a|
    ensures (a + b)[i..j] == a[i..j] && (a + b)[..j] == a[..j]
  {
  }

  /** Two distinct valid dates never print the same. */
  lemma CurrTimeInjective(d1: DateParts, d2: DateParts)
    requires ValidDate(d1) && ValidDate(d2) && d1 != d2
    ensures CurrTime(d1) != CurrTime(d2)
  {
    CurrTimeRoundTrip(d1);
    CurrTimeRoundTrip(d2);
  }

  /** The characters `getCurrTime` can produce. */
  predicate TimeChar(c: char) {
    IsDigit(c) || c == '/' || c == ' ' || c == ':'
  }

  predicate TimeChars(s: string) {
    forall i :: 0 <= i < |s| ==> TimeChar(s[i])
  }

  lemma TimeCharsConcat(a: string, b: string)
    requires TimeChars(a) && TimeChars(b)
    ensures TimeChars(a + b)
  {
    forall i | 0 <= i < |a + b|
      ensures TimeChar((a + b)[i])
    {
      if i >= |a| {
        assert (a + b)[i] == b[i - |a|];
      }
    }
  }

  /** A time stamp holds only digits and the three separators, never `]`. */
  lemma CurrTimeCharset(d: DateParts)
    ensures TimeChars(CurrTime(d))
    ensures ']' !in CurrTime(d)
  {
    var p := NatToString(d.year);
    TimeCharsConcat(p, "/");
    p := p + "/";
    TimeCharsConcat(p, Pad2(d.month + 1));
    p := p + Pad2(d.month + 1);
    TimeCharsConcat(p, "/");
    p := p + "/";
    TimeCharsConcat(p, Pad2(d.day));
    p := p + Pad2(d.day);
    TimeCharsConcat(p, " ");
    p := p + " ";
    TimeCharsConcat(p, Pad2(d.hours));
    p := p + Pad2(d.hours);
    TimeCharsConcat(p, ":");
    p := p + ":";
    TimeCharsConcat(p, Pad2(d.minutes));
    p := p + Pad2(d.minutes);
    TimeCharsConcat(p, ":");
    p := p + ":";
    TimeCharsConcat(p, Pad2(d.seconds));
    p := p + Pad2(d.seconds);
    assert p == CurrTime(d);
  }

  /** `log`'s prefix: the message as it reaches the console and the log file. */
  function LogLine(time: string, message: string): (line: string)
    ensures |line| == |time| + |message| + 4
    ensures line[0] == '[' && line[1..|time| + 1] == time
    ensures line[|time| + 1..|time| + 4] == "]: " && line[|time| + 4..] == message
  {
    "[" + time + "]: " + message
  }

  /** The position of the first `c` in `s`, if any. */
  function IndexOf(s: string, c: char): (r: Option<nat>)
    ensures r.Some? ==> r.value < |s| && s[r.value] == c && c !in s[..r.value]
    ensures r.None? <==> c !in s
  {
    if s == [] then None
    else if s[0] == c then Some(0)
    else
      match IndexOf(s[1..], c)
      case None => None
      case Some(i) =>
        assert s[..i + 1] == [s[0]] + s[1..][..i];
        Some(i + 1)
  }

  /** Splits a log line at its first `]: ` into the time stamp and the message. */
  function SplitLogLine(line: string): (r: Option<(string, string)>)
  {
    if |line| == 0 || line[0] != '[' then None
    else
      match IndexOf(line, ']')
      case None => None
      case Some(i) =>
        if i + 3 <= |line| && line[i + 1..i + 3] == ": " then Some((line[1..i], line[i + 3..]))
        else None
  }

  /** The prefix is removable again whenever the time stamp holds no `]`. */
  lemma LogLineRoundTrip(time: string, message: string)
    requires ']' !in time
    ensures SplitLogLine(LogLine(time, message)) == Some((time, message))
  {
    var line := LogLine(time, message);
    var j := |time| + 1;
    assert line[j] == ']';
    assert line[..j] == "[" + time;
    var r := IndexOf(line, ']');
    assert r.Some?;
    assert r.value == j;
    assert line[j + 1..j + 3] == ": ";
    assert line[1..j] == time;
    assert line[j + 3..] == message;
  }

  /** What `log` writes: a line whose prefix yields back the exact date and
      whose remainder is the message. */
  lemma LogLineOfCurrTime(d: DateParts, message: string)
    requires ValidDate(d)
    ensures var line := LogLine(CurrTime(d), message);
            && SplitLogLine(line).Some?
            && ParseTime(SplitLogLine(line).value.0) == Some(d)
            && SplitLogLine(line).value.1 == message
  {
    CurrTimeCharset(d);
    LogLineRoundTrip(CurrTime(d), message);
    CurrTimeRoundTrip(d);
  }

}

/**
 * Display helpers of src/lib/time-utils.ts: `formatTime` renders a number of
 * minutes as hours and minutes, `cleanPhoneNumber` keeps only digits and `+`.
 */
module TimeUtils {
  import opened Wrappers
  import opened Text

  /** JavaScript's `%` on integers: the remainder takes the sign of the dividend. */
  function JsRemainder(a: int, b: int): (r: int)
    requires b > 0
    ensures a >= 0 ==> r == a % b
    ensures a < 0 ==> -b < r <= 0
  {
    if a >= 0 then a % b else -((-a) % b)
  }

  /**
   * `formatTime(minutes)`. `Math.floor(minutes / 60)` is Dafny's `/` because the
   * divisor is positive; the remainder is JavaScript's.
   */
  function FormatTime(minutes: int): string
  {
    var hours := minutes / 60;
    var mins := JsRemainder(minutes, 60);
    if hours == 0 then IntToString(mins) + "m"
    else if mins == 0 then IntToString(hours) + "h"
    else IntToString(hours) + "h " + IntToString(mins) + "m"
  }

  /** The three shapes `FormatTime` produces for a non-negative number of minutes. */
  lemma FormatTimeCases(n: nat)
    ensures n < 60 ==> FormatTime(n) == NatToString(n) + "m"
    ensures n >= 60 && n % 60 == 0 ==> FormatTime(n) == NatToString(n / 60) + "h"
    ensures n >= 60 && n % 60 != 0 ==>
              FormatTime(n) == NatToString(n / 60) + "h " + NatToString(n % 60) + "m"
  {
  }

  lemma FormatTimeZero()
    ensures FormatTime(0) == "0m"
  {
  }

  /** Negative minutes follow JavaScript: floor for the hours, a signed remainder for the minutes. */
  lemma FormatTimeNegative()
    ensures FormatTime(-30) == "-1h -30m"
  {
    assert JsRemainder(-30, 60) == -30;
    assert IntToString(-1) == "-1" && IntToString(-30) == "-30";
  }

  /**
   * Reads a duration written as `"<m>m"`, `"<h>h"` or `"<h>h <m>m"` back into
   * minutes; the inverse of `FormatTime` on non-negative inputs.
   */
  function ParseTime(s: string): Option<nat>
  {
    var i := IndexOf(s, 'h');
    if i == |s| then ParseMinutes(s) else ParseAfterHours(s[..i], s[i + 1..])
  }

  /** `"<m>m"` */
  function ParseMinutes(s: string): Option<nat>
  {
    if |s| >= 2 && s[|s| - 1] == 'm' && AllDigits(s[..|s| - 1])
    then Some(ParseNat(s[..|s| - 1]))
    else None
  }

  /** The hours digits `hs`, then either nothing or `" <m>m"`. */
  function ParseAfterHours(hs: string, rest: string): Option<nat>
  {
    if hs == [] || !AllDigits(hs) then None
    else if rest == [] then Some(ParseNat(hs) * 60)
    else if rest[0] != ' ' then None
    else match ParseMinutes(rest[1..])
      case Some(m) => Some(ParseNat(hs) * 60 + m)
      case None => None
  }

  lemma ParseMinutesOnly(m: nat)
    ensures ParseMinutes(NatToString(m) + "m") == Some(m)
    ensures ParseTime(NatToString(m) + "m") == Some(m)
  {
    var dm := NatToString(m);
    var s := dm + "m";
    ParseNatToString(m);
    IndexOfAfterDigits(dm, "m", 'h');
    assert s[..|s| - 1] == dm;
  }

  /** After a run of digits and an `h`, parsing continues with the hours and the rest. */
  lemma ParseAtHours(dh: string, rest: string)
    requires AllDigits(dh)
    ensures ParseTime(dh + "h" + rest) == ParseAfterHours(dh, rest)
  {
    var s := dh + "h" + rest;
    var tail := "h" + rest;
    assert s == dh + tail;
    IndexOfAfterDigits(dh, tail, 'h');
    assert IndexOf(s, 'h') == |dh|;
    assert s[..|dh|] == dh;
    assert s[|dh| + 1..] == rest;
  }

  lemma ParseHoursOnly(h: nat)
    ensures ParseTime(NatToString(h) + "h") == Some(h * 60)
  {
    var dh := NatToString(h);
    ParseNatToString(h);
    ParseAtHours(dh, "");
    assert dh + "h" + "" == dh + "h";
  }

  lemma ParseMinutesAfterHours(h: nat, m: nat)
    ensures ParseAfterHours(NatToString(h), " " + NatToString(m) + "m") == Some(h * 60 + m)
  {
    var rest := " " + NatToString(m) + "m";
    assert rest[1..] == NatToString(m) + "m";
    ParseNatToString(h);
    ParseMinutesOnly(m);
  }

  lemma ParseHoursAndMinutes(h: nat, m: nat)
    ensures ParseTime(NatToString(h) + "h " + NatToString(m) + "m") == Some(h * 60 + m)
  {
    var dh, dm := NatToString(h), NatToString(m);
    ParseAtHours(dh, " " + dm + "m");
    assert dh + "h" + (" " + dm + "m") == dh + "h " + dm + "m";
    ParseMinutesAfterHours(h, m);
  }

  /**
   * Round trip: the hours and minutes `FormatTime` prints for n >= 0 add up to
   * n again (hours * 60 + minutes == n, with the minutes below 60).
   */
  lemma FormatTimeRoundTrip(n: nat)
    ensures ParseTime(FormatTime(n)) == Some(n)
  {
    var h, m := n / 60, n % 60;
    assert n == h * 60 + m;
    if h == 0 {
      ParseMinutesOnly(m);
    } else if m == 0 {
      ParseHoursOnly(h);
    } else {
      ParseHoursAndMinutes(h, m);
    }
  }

  /** Distinct non-negative durations are displayed differently. */
  lemma FormatTimeInjective(a: nat, b: nat)
    requires FormatTime(a) == FormatTime(b)
    ensures a == b
  {
    FormatTimeRoundTrip(a);
    FormatTimeRoundTrip(b);
  }

  predicate IsPhoneChar(c: char) { IsDigit(c) || c == '+' }

  /** `cleanPhoneNumber`: `replace(/[^\d+]/g, '')`, dropping every character but digits and `+`. */
  function CleanPhoneNumber(s: string): (r: string)
    ensures |r| <= |s|
    ensures forall i :: 0 <= i < |r| ==> IsPhoneChar(r[i])
  {
    if s == [] then []
    else (if IsPhoneChar(s[0]) then [s[0]] else []) + CleanPhoneNumber(s[1..])
  }

  /** Cleaning works piecewise, so digits and `+` keep their original order. */
  lemma {:induction false} CleanPhoneNumberConcat(a: string, b: string)
    ensures CleanPhoneNumber(a + b) == CleanPhoneNumber(a) + CleanPhoneNumber(b)
  {
    if a == [] {
      assert a + b == b;
    } else {
      assert (a + b)[1..] == a[1..] + b;
      CleanPhoneNumberConcat(a[1..], b);
    }
  }

  /** A string of digits and `+` only (a `+` anywhere, not just leading) is left as it is. */
  lemma {:induction false} CleanPhoneNumberKeepsPhoneChars(s: string)
    requires forall i :: 0 <= i < |s| ==> IsPhoneChar(s[i])
    ensures CleanPhoneNumber(s) == s
  {
    if s != [] {
      CleanPhoneNumberKeepsPhoneChars(s[1..]);
    }
  }

  lemma CleanPhoneNumberIdempotent(s: string)
    ensures CleanPhoneNumber(CleanPhoneNumber(s)) == CleanPhoneNumber(s)
  {
    CleanPhoneNumberKeepsPhoneChars(CleanPhoneNumber(s));
  }

  /** Every digit and every `+` of the input survives, as often as it occurs; nothing else does. */
  lemma {:induction false} CleanPhoneNumberCounts(s: string, c: char)
    ensures multiset(CleanPhoneNumber(s))[c] == if IsPhoneChar(c) then multiset(s)[c] else 0
  {
    if s != [] {
      CleanPhoneNumberCounts(s[1..], c);
      assert s == [s[0]] + s[1..];
    }
  }
}

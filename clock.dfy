/** Calendar timestamps as card_auto_add handles them (`datetime` values) and the
    `%m/%d/%Y %H:%M` rendering used in DSX import files. The clock itself is
    never read here: every "now" is a parameter. */
module Clock {
  import opened Wrappers
  import opened Text

  datatype DateTime = DateTime(year: nat, month: nat, day: nat, hour: nat, minute: nat, second: nat, microsecond: nat)

  /** The `datetime` range: years 1..9999, a day-of-month up to 31, a 24-hour clock. */
  predicate ValidDateTime(t: DateTime)
  {
    1 <= t.year <= 9999 && 1 <= t.month <= 12 && 1 <= t.day <= 31 &&
    t.hour < 24 && t.minute < 60 && t.second < 60 && t.microsecond < 1000000
  }

  /** `datetime(9999, 12, 31)`: the stop date of a card that never expires. */
  const Never: DateTime := DateTime(9999, 12, 31, 0, 0, 0, 0)

  /** `t.replace(microsecond=0)`. */
  function WithoutMicroseconds(t: DateTime): DateTime
  {
    t.(microsecond := 0)
  }

  /** `t.replace(hour=0, minute=0, second=0, microsecond=0)`. */
  function StartOfDay(t: DateTime): DateTime
  {
    t.(hour := 0, minute := 0, second := 0, microsecond := 0)
  }

  /** `t.__format__("%m/%d/%Y %H:%M")`. */
  function FormatMinutes(t: DateTime): string
  {
    Pad(t.month, 2) + "/" + Pad(t.day, 2) + "/" + Pad(t.year, 4) + " " + Pad(t.hour, 2) + ":" + Pad(t.minute, 2)
  }

  /** Reads a `%m/%d/%Y %H:%M` string back into (year, month, day, hour, minute). */
  function ParseMinutes(s: string): Option<(nat, nat, nat, nat, nat)>
  {
    if |s| == 16 && s[2] == '/' && s[5] == '/' && s[10] == ' ' && s[13] == ':' &&
       AllDigits(s[..2]) && AllDigits(s[3..5]) && AllDigits(s[6..10]) && AllDigits(s[11..13]) && AllDigits(s[14..])
    then Some((DigitsValue(s[6..10]), DigitsValue(s[..2]), DigitsValue(s[3..5]), DigitsValue(s[11..13]), DigitsValue(s[14..])))
    else None
  }

  lemma {:induction false} ZerosValue(k: nat, d: string)
    requires AllDigits(d)
    ensures AllDigits(seq(k, _ => '0') + d)
    ensures DigitsValue(seq(k, _ => '0') + d) == DigitsValue(d)
    decreases |d|
  {
    var z := seq(k, _ => '0');
    if d == [] {
      assert z + d == z;
      ZerosOnlyValue(k);
    } else {
      var d' := d[..|d| - 1];
      ZerosValue(k, d');
      assert (z + d)[..|z + d| - 1] == z + d';
    }
  }

  lemma {:induction false} ZerosOnlyValue(k: nat)
    ensures AllDigits(seq(k, _ => '0'))
    ensures DigitsValue(seq(k, _ => '0')) == 0
  {
    if k > 0 {
      ZerosOnlyValue(k - 1);
      assert seq(k, _ => '0')[..k - 1] == seq(k - 1, _ => '0');
    }
  }

  lemma PadValue(n: nat, width: nat)
    ensures AllDigits(Pad(n, width))
    ensures DigitsValue(Pad(n, width)) == n
  {
    var d := NatToString(n);
    NatToStringRoundTrip(n);
    if |d| < width {
      ZerosValue(width - |d|, d);
    }
  }

  /** The rendering keeps every field down to the minute: it parses back to the same fields. */
  lemma FormatMinutesRoundTrip(t: DateTime)
    requires ValidDateTime(t)
    ensures ParseMinutes(FormatMinutes(t)) == Some((t.year, t.month, t.day, t.hour, t.minute))
  {
    var mo, da, ye, ho, mi := Pad(t.month, 2), Pad(t.day, 2), Pad(t.year, 4), Pad(t.hour, 2), Pad(t.minute, 2);
    SmallWidth(t.month, 2);
    SmallWidth(t.day, 2);
    SmallWidth(t.year, 4);
    SmallWidth(t.hour, 2);
    SmallWidth(t.minute, 2);
    PadValue(t.month, 2);
    PadValue(t.day, 2);
    PadValue(t.year, 4);
    PadValue(t.hour, 2);
    PadValue(t.minute, 2);
    FieldSlices(mo, da, ye, ho, mi);
  }

  lemma FieldSlices(mo: string, da: string, ye: string, ho: string, mi: string)
    requires |mo| == 2 && |da| == 2 && |ye| == 4 && |ho| == 2 && |mi| == 2
    ensures var s := mo + "/" + da + "/" + ye + " " + ho + ":" + mi;
      |s| == 16 && s[2] == '/' && s[5] == '/' && s[10] == ' ' && s[13] == ':' &&
      s[..2] == mo && s[3..5] == da && s[6..10] == ye && s[11..13] == ho && s[14..] == mi
  {
  }

  function Pow10(w: nat): nat { if w == 0 then 1 else 10 * Pow10(w - 1) }

  lemma {:induction false} SmallWidth(n: nat, w: nat)
    requires w >= 1 && n < Pow10(w)
    ensures |NatToString(n)| <= w
  {
    if n >= 10 {
      assert w >= 2;
      SmallWidth(n / 10, w - 1);
    }
  }
}

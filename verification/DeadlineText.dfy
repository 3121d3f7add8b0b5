/** Deadline text: the subset of the `date-time` grammar in section 5.6 of RFC 3339 that a
    task plan accepts, and the UTC form it is stored in. */
module DeadlineText {
  import opened Prelude
  import opened Calendar

  predicate IsDigit(c: char) { '0' <= c <= '9' }

  predicate AllDigits(s: string) { forall i :: 0 <= i < |s| ==> IsDigit(s[i]) }

  function DigitValue(c: char): nat
    requires IsDigit(c)
  {
    (c - '0') as nat
  }

  function DigitChar(d: nat): (c: char)
    requires d < 10
    ensures IsDigit(c) && DigitValue(c) == d
  {
    '0' + d as char
  }

  function ToNat(s: string): nat
    requires AllDigits(s)
  {
    if s == [] then 0 else ToNat(s[..|s| - 1]) * 10 + DigitValue(s[|s| - 1])
  }

  function Pow10(w: nat): nat { if w == 0 then 1 else 10 * Pow10(w - 1) }

  /** Zero-padded decimal of a fixed width. */
  function Pad(n: nat, width: nat): (s: string)
    ensures |s| == width && AllDigits(s)
  {
    if width == 0 then "" else Pad(n / 10, width - 1) + [DigitChar(n % 10)]
  }

  lemma {:induction false} PadRoundTrip(n: nat, width: nat)
    requires n < Pow10(width)
    ensures ToNat(Pad(n, width)) == n
  {
    if width > 0 {
      PadRoundTrip(n / 10, width - 1);
      assert Pad(n, width)[..width - 1] == Pad(n / 10, width - 1);
    }
  }

  lemma SmallPowers()
    ensures Pow10(2) == 100 && Pow10(4) == 10_000 && Pow10(6) == 1_000_000
  {
  }

  /** How many digits a text starts with: what the fraction part of the pattern consumes. */
  function LeadingDigits(s: string): (n: nat)
    ensures n <= |s| && AllDigits(s[..n])
    ensures n < |s| ==> !IsDigit(s[n])
  {
    if s == [] || !IsDigit(s[0]) then 0
    else
      var n := LeadingDigits(s[1..]);
      assert s[..1 + n] == [s[0]] + s[1..][..n];
      1 + n
  }

  lemma LeadingDigitsStop(digits: string, rest: string)
    requires AllDigits(digits) && rest != "" && !IsDigit(rest[0])
    ensures LeadingDigits(digits + rest) == |digits|
  {
    if digits != "" {
      assert (digits + rest)[1..] == digits[1..] + rest;
      LeadingDigitsStop(digits[1..], rest);
    } else {
      assert digits + rest == rest;
    }
  }

  /** A matched deadline before its fields are range-checked. */
  datatype Reading = Reading(local: DateTime, offset: int)

  /** `YYYY-MM-DDTHH:MM:SS`, the fixed 19 leading characters. */
  predicate IsBase(s: string) {
    |s| == 19 && s[4] == '-' && s[7] == '-' && s[10] == 'T' && s[13] == ':' && s[16] == ':'
    && AllDigits(s[..4]) && AllDigits(s[5..7]) && AllDigits(s[8..10])
    && AllDigits(s[11..13]) && AllDigits(s[14..16]) && AllDigits(s[17..19])
  }

  function ReadBase(s: string, micro: nat): DateTime
    requires IsBase(s)
  {
    DateTime(Date(ToNat(s[..4]), ToNat(s[5..7]), ToNat(s[8..10])),
             ToNat(s[11..13]), ToNat(s[14..16]), ToNat(s[17..19]), micro)
  }

  /** The optional fraction: its length in characters and its value in microseconds. */
  function Fraction(s: string): (r: Option<(nat, nat)>)
    ensures r.Some? ==> r.value.0 <= |s|
  {
    if s == "" || s[0] != '.' then Some((0, 0))
    else
      var n := LeadingDigits(s[1..]);
      if 1 <= n <= 6 then Some((1 + n, ToNat(s[1..][..n]) * Pow10(6 - n))) else None
  }

  /** `Z` or a signed `hh:mm`, in minutes; the hour is at most 23 and the minute at most 59. */
  function Zone(s: string): (r: Option<int>)
    ensures r.Some? ==> -MINUTES_IN_A_DAY < r.value < MINUTES_IN_A_DAY
  {
    if s == "Z" then Some(0)
    else if |s| == 6 && (s[0] == '+' || s[0] == '-') && AllDigits(s[1..3]) && s[3] == ':' && AllDigits(s[4..6]) then
      var hours, minutes := ToNat(s[1..3]), ToNat(s[4..6]);
      if hours <= 23 && minutes <= 59
      then Some(if s[0] == '-' then -(hours * 60 + minutes) else hours * 60 + minutes)
      else None
    else None
  }

  /** The pattern match together with the field ranges that `fromisoformat` enforces. */
  function Read(s: string): (r: Option<Reading>)
    ensures r.Some? ==> IsDay(r.value.local.date) && ValidClock(r.value.local)
                        && -MINUTES_IN_A_DAY < r.value.offset < MINUTES_IN_A_DAY
  {
    if |s| < 20 || !IsBase(s[..19]) || Fraction(s[19..]).None? then None
    else
      var (taken, micro) := Fraction(s[19..]).value;
      var local := ReadBase(s[..19], micro);
      match Zone(s[19 + taken..])
      case None => None
      case Some(offset) => if ValidDateTime(local) then Some(Reading(local, offset)) else None
  }

  /** Deadline text to UTC; `None` where the validator fails the field. */
  function ParseDeadline(s: string): Option<UtcTime> {
    match Read(s)
    case None => None
    case Some(reading) =>
      ToUtcKeepsInstant(reading.local, reading.offset);
      match ToUtc(reading.local, reading.offset)
      case None => None
      case Some(utc) => Some(utc)
  }

  /** The stored form: `isoformat()` of a UTC reading with `+00:00` written as `Z`. */
  function PrintDeadline(t: UtcTime): string
  {
    PrintBase(t) + PrintFraction(t) + "Z"
  }

  function JoinBase(year: string, month: string, day: string, hour: string, minute: string, second: string): string {
    year + "-" + month + "-" + day + "T" + hour + ":" + minute + ":" + second
  }

  function PrintBase(t: UtcTime): string
  {
    JoinBase(Pad(t.date.year, 4), Pad(t.date.month, 2), Pad(t.date.day, 2),
             Pad(t.hour, 2), Pad(t.minute, 2), Pad(t.second, 2))
  }

  function PrintFraction(t: UtcTime): string
  {
    if t.micro == 0 then "" else "." + Pad(t.micro, 6)
  }

  lemma JoinedFields(year: string, month: string, day: string, hour: string, minute: string, second: string)
    requires |year| == 4 && |month| == |day| == |hour| == |minute| == |second| == 2
    ensures var s := JoinBase(year, month, day, hour, minute, second);
            |s| == 19 && s[4] == '-' && s[7] == '-' && s[10] == 'T' && s[13] == ':' && s[16] == ':'
            && s[..4] == year && s[5..7] == month && s[8..10] == day
            && s[11..13] == hour && s[14..16] == minute && s[17..19] == second
  {
    var date := year + "-" + month + "-" + day;
    var time := hour + ":" + minute + ":" + second;
    var s := JoinBase(year, month, day, hour, minute, second);
    assert s == date + "T" + time;
    DateFields(year, month, day);
    TimeFields(hour, minute, second);
    assert s[..10] == date && s[11..] == time;
    assert s[..4] == date[..4] && s[5..7] == date[5..7] && s[8..10] == date[8..10];
    assert s[11..13] == time[..2] && s[14..16] == time[3..5] && s[17..19] == time[6..8];
    assert s[4] == date[4] && s[7] == date[7] && s[13] == time[2] && s[16] == time[5];
  }

  lemma DateFields(year: string, month: string, day: string)
    requires |year| == 4 && |month| == |day| == 2
    ensures var s := year + "-" + month + "-" + day;
            |s| == 10 && s[4] == s[7] == '-' && s[..4] == year && s[5..7] == month && s[8..10] == day
  {
  }

  lemma TimeFields(hour: string, minute: string, second: string)
    requires |hour| == |minute| == |second| == 2
    ensures var s := hour + ":" + minute + ":" + second;
            |s| == 8 && s[2] == s[5] == ':' && s[..2] == hour && s[3..5] == minute && s[6..8] == second
  {
  }

  lemma BaseRoundTrip(t: UtcTime, micro: nat)
    ensures IsBase(PrintBase(t)) && ReadBase(PrintBase(t), micro) == t.(micro := micro)
  {
    SmallPowers();
    JoinedFields(Pad(t.date.year, 4), Pad(t.date.month, 2), Pad(t.date.day, 2),
                 Pad(t.hour, 2), Pad(t.minute, 2), Pad(t.second, 2));
    PadRoundTrip(t.date.year, 4); PadRoundTrip(t.date.month, 2); PadRoundTrip(t.date.day, 2);
    PadRoundTrip(t.hour, 2); PadRoundTrip(t.minute, 2); PadRoundTrip(t.second, 2);
  }

  lemma FractionRoundTrip(t: UtcTime)
    ensures Fraction(PrintFraction(t) + "Z") == Some((|PrintFraction(t)|, t.micro))
  {
    if t.micro != 0 {
      var s := PrintFraction(t) + "Z";
      SmallPowers();
      PadRoundTrip(t.micro, 6);
      assert s[1..] == Pad(t.micro, 6) + "Z";
      LeadingDigitsStop(Pad(t.micro, 6), "Z");
      assert s[1..][..6] == Pad(t.micro, 6);
    }
  }

  /** A base, a fraction and the letter Z are read back part by part. */
  lemma ReadParts(base: string, fraction: string, micro: nat)
    requires IsBase(base) && Fraction(fraction + "Z") == Some((|fraction|, micro))
    requires ValidDateTime(ReadBase(base, micro))
    ensures Read(base + fraction + "Z") == Some(Reading(ReadBase(base, micro), 0))
  {
    var s := base + fraction + "Z";
    assert s[..19] == base && s[19..] == fraction + "Z" && s[19 + |fraction|..] == "Z";
  }

  /** Reading back the stored form of any supported instant gives that instant. */
  lemma DeadlineRoundTrip(t: UtcTime)
    ensures ParseDeadline(PrintDeadline(t)) == Some(t)
  {
    BaseRoundTrip(t, t.micro);
    FractionRoundTrip(t);
    ReadParts(PrintBase(t), PrintFraction(t), t.micro);
    ReadAtZero(t);
  }

  lemma ReadAtZero(t: UtcTime)
    ensures ToUtc(t, 0) == Some(t)
  {
  }

  /** Moving to UTC shifts minutes and nothing finer. */
  lemma StoredMicro(s: string)
    requires ParseDeadline(s).Some?
    ensures ParseDeadline(s).value.micro == Read(s).value.local.micro
    ensures Read(s).value.local.micro != 0 ==> |s| >= 22
  {
    var (taken, micro) := Fraction(s[19..]).value;
    assert |s[19 + taken..]| >= 1;
  }

  /** The stored form of an accepted text is longer than the text by at most five characters, and only
      where it has to write out a fraction in full. */
  lemma StoredLength(s: string)
    requires ParseDeadline(s).Some?
    ensures |PrintDeadline(ParseDeadline(s).value)| <= |s| + 5
    ensures |PrintDeadline(ParseDeadline(s).value)| > |s| ==> ParseDeadline(s).value.micro != 0
  {
    StoredMicro(s);
  }

  /** It does happen: a fraction of one digit is stored with six. */
  lemma OneDigitFractionGrows(t: UtcTime, digit: nat)
    requires 1 <= digit <= 9 && t.micro == digit * 100_000
    ensures var s := PrintBase(t) + "." + Pad(digit, 1) + "Z";
            ParseDeadline(s) == Some(t) && |PrintDeadline(t)| == |s| + 5
  {
    SmallPowers();
    var fraction := "." + Pad(digit, 1);
    PadRoundTrip(digit, 1);
    LeadingDigitsStop(Pad(digit, 1), "Z");
    assert (fraction + "Z")[1..] == Pad(digit, 1) + "Z" && (Pad(digit, 1) + "Z")[..1] == Pad(digit, 1);
    BaseRoundTrip(t, t.micro);
    ReadParts(PrintBase(t), fraction, t.micro);
    ReadAtZero(t);
    assert PrintBase(t) + "." + Pad(digit, 1) + "Z" == PrintBase(t) + fraction + "Z";
  }
}

/** Every way to write a deadline, built from a wall-clock reading, fraction digits and a zone, and the
    instant each of them stands for. The parser of DeadlineText accepts these texts and no others. */
module DeadlineSpellings {
  import opened Prelude
  import opened Calendar
  import opened DeadlineText

  /** Local clocks run ahead of UTC or behind it. */
  datatype Shift = Zulu | Ahead(hours: nat, minutes: nat) | Behind(hours: nat, minutes: nat)

  predicate TwoDigits(z: Shift) { z.Zulu? || (z.hours < 100 && z.minutes < 100) }

  predicate BelowADay(z: Shift) { z.Zulu? || (z.hours <= 23 && z.minutes <= 59) }

  function ShiftText(z: Shift): string {
    match z
    case Zulu => "Z"
    case Ahead(h, m) => SignedText('+', Pad(h, 2), Pad(m, 2))
    case Behind(h, m) => SignedText('-', Pad(h, 2), Pad(m, 2))
  }

  function SignedText(sign: char, hours: string, minutes: string): string { [sign] + hours + ":" + minutes }

  /** The instant of a local reading in a zone: a clock that runs ahead shows a later time than UTC. */
  function InstantOf(local: UtcTime, z: Shift): int {
    match z
    case Zulu => Instant(local)
    case Ahead(h, m) => Instant(local) - (h * 60 + m) * MICROS_IN_A_MINUTE
    case Behind(h, m) => Instant(local) + (h * 60 + m) * MICROS_IN_A_MINUTE
  }

  function Zeros(n: nat): (s: string)
    ensures |s| == n && AllDigits(s)
  {
    if n == 0 then "" else Zeros(n - 1) + "0"
  }

  /** Up to six digits write the microseconds, trailing zeros left off at will. */
  predicate WritesMicro(digits: string, micro: nat) {
    |digits| <= 6 && AllDigits(digits) && Pad(micro, 6) == Filled(digits, 6 - |digits|)
  }

  function Filled(digits: string, zeros: nat): (s: string)
    requires AllDigits(digits)
    ensures |s| == |digits| + zeros && AllDigits(s)
  {
    digits + Zeros(zeros)
  }

  function FractionText(digits: string): string { if digits == "" then "" else "." + digits }

  function Spelling(local: UtcTime, digits: string, z: Shift): string {
    PrintBase(local) + FractionText(digits) + ShiftText(z)
  }

  // ----- digits -----

  /** Positional notation. */
  lemma {:induction false} PadDigit(n: nat, width: nat, i: nat)
    requires i < width
    ensures Pow10(width - 1 - i) > 0 && Pad(n, width)[i] == "0123456789"[n / Pow10(width - 1 - i) % 10]
  {
    if i < width - 1 {
      PadDigit(n / 10, width - 1, i);
      DivideTwice(n, Pow10(width - 2 - i));
    }
  }

  lemma DivideTwice(n: nat, p: nat)
    requires p > 0
    ensures n / 10 / p == n / (10 * p)
  {
    var q, r := n / 10, n % 10;
    var a, b := q / p, q % p;
    assert n == 10 * (a * p + b) + r;
    assert 10 * b + r < 10 * p;
    assert n == a * (10 * p) + (10 * b + r) by { assert 10 * (a * p) == a * (10 * p); }
    QuotientIs(n, 10 * p, a, 10 * b + r);
  }

  lemma QuotientIs(n: nat, d: nat, q: nat, r: nat)
    requires n == q * d + r && r < d
    ensures n / d == q
  {
    assert (n / d - q) * d == r - n % d;
    MultiplesAreApart(n / d - q, d);
  }

  lemma MultiplesAreApart(x: int, d: nat)
    ensures x >= 1 ==> x * d >= d
    ensures x <= -1 ==> x * d + d <= 0
  {
  }

  lemma {:induction false} PadOfToNat(s: string)
    requires AllDigits(s)
    ensures Pad(ToNat(s), |s|) == s && ToNat(s) < Pow10(|s|)
  {
    if s != "" {
      var front := s[..|s| - 1];
      PadOfToNat(front);
      assert ToNat(s) / 10 == ToNat(front) && ToNat(s) % 10 == DigitValue(s[|s| - 1]);
      assert s == front + [s[|s| - 1]];
    }
  }

  function Shifted(n: nat, k: nat): nat { if k == 0 then n else 10 * Shifted(n, k - 1) }

  lemma {:induction false} ShiftedIs(n: nat, k: nat)
    ensures Shifted(n, k) == n * Pow10(k)
  {
    if k > 0 {
      ShiftedIs(n, k - 1);
      TenTimes(n, Pow10(k - 1));
    }
  }

  lemma TenTimes(n: nat, p: nat)
    ensures 10 * (n * p) == n * (10 * p)
  {
  }

  lemma {:induction false} TrailingZeros(digits: string, k: nat)
    requires AllDigits(digits)
    ensures ToNat(Filled(digits, k)) == Shifted(ToNat(digits), k)
  {
    if k == 0 {
      assert Filled(digits, 0) == digits;
    } else {
      TrailingZeros(digits, k - 1);
      OneMoreZero(digits, k);
    }
  }

  lemma OneMoreZero(digits: string, k: nat)
    requires AllDigits(digits) && k > 0
    ensures ToNat(Filled(digits, k)) == 10 * ToNat(Filled(digits, k - 1))
  {
    var more := Filled(digits, k);
    assert more[..|more| - 1] == Filled(digits, k - 1);
  }

  /** Fraction digits are read as the microseconds they write. */
  lemma MicroIsRead(digits: string, micro: nat)
    requires |digits| <= 6 && AllDigits(digits) && micro < 1_000_000
    ensures WritesMicro(digits, micro) <==> Shifted(ToNat(digits), 6 - |digits|) == micro
  {
    TrailingZeros(digits, 6 - |digits|);
    SixDigits(Filled(digits, 6 - |digits|), micro);
  }

  lemma SixDigits(full: string, micro: nat)
    requires |full| == 6 && AllDigits(full) && micro < 1_000_000
    ensures Pad(micro, 6) == full <==> ToNat(full) == micro
  {
    SmallPowers();
    PadRoundTrip(micro, 6);
    PadOfToNat(full);
  }

  lemma SixDigitsAreSmall(full: string)
    requires |full| == 6 && AllDigits(full)
    ensures ToNat(full) < 1_000_000
  {
    SmallPowers();
    PadOfToNat(full);
  }

  lemma MicroIsSmall(digits: string)
    requires |digits| <= 6 && AllDigits(digits)
    ensures Shifted(ToNat(digits), 6 - |digits|) < 1_000_000
  {
    TrailingZeros(digits, 6 - |digits|);
    SixDigitsAreSmall(Filled(digits, 6 - |digits|));
  }

  // ----- every spelling is read -----

  lemma SignedFields(sign: char, hours: string, minutes: string)
    requires |hours| == |minutes| == 2
    ensures var s := SignedText(sign, hours, minutes);
            |s| == 6 && s[0] == sign && s[3] == ':' && s[1..3] == hours && s[4..6] == minutes
  {
  }

  lemma SignedIsRead(sign: char, h: nat, m: nat)
    requires (sign == '+' || sign == '-') && h < 100 && m < 100
    ensures Zone(SignedText(sign, Pad(h, 2), Pad(m, 2)))
            == if h <= 23 && m <= 59 then Some(if sign == '-' then -(h * 60 + m) else h * 60 + m) else None
  {
    SmallPowers();
    PadRoundTrip(h, 2);
    PadRoundTrip(m, 2);
    SignedFields(sign, Pad(h, 2), Pad(m, 2));
  }

  lemma ShiftIsRead(z: Shift, local: UtcTime)
    requires TwoDigits(z)
    ensures Zone(ShiftText(z)).Some? <==> BelowADay(z)
    ensures BelowADay(z) ==> OffsetInstant(local, Zone(ShiftText(z)).value) == InstantOf(local, z)
  {
    match z
    case Zulu =>
    case Ahead(h, m) => SignedIsRead('+', h, m);
    case Behind(h, m) => SignedIsRead('-', h, m);
  }

  lemma FractionIsRead(digits: string, z: Shift, micro: nat)
    requires WritesMicro(digits, micro) && micro < 1_000_000
    ensures Fraction(FractionText(digits) + ShiftText(z)) == Some((|FractionText(digits)|, micro))
  {
    MicroIsRead(digits, micro);
    if digits != "" { DigitsAreRead(digits, ShiftText(z)); }
  }

  lemma AfterDot(digits: string, rest: string)
    ensures var s := "." + digits + rest;
            s != "" && s[0] == '.' && s[1..] == digits + rest && (digits + rest)[..|digits|] == digits
  {
  }

  lemma DigitsAreRead(digits: string, rest: string)
    requires 1 <= |digits| <= 6 && AllDigits(digits) && rest != "" && !IsDigit(rest[0])
    ensures Fraction("." + digits + rest) == Some((1 + |digits|, Shifted(ToNat(digits), 6 - |digits|)))
  {
    AfterDot(digits, rest);
    LeadingDigitsStop(digits, rest);
    ShiftedIs(ToNat(digits), 6 - |digits|);
  }

  lemma PartsAreRead(local: UtcTime, fraction: string, zone: string)
    requires Fraction(fraction + zone) == Some((|fraction|, local.micro)) && zone != ""
    ensures Read(PrintBase(local) + fraction + zone)
            == match Zone(zone) case None => None case Some(offset) => Some(Reading(local, offset))
  {
    var s := PrintBase(local) + fraction + zone;
    BaseRoundTrip(local, local.micro);
    assert s[..19] == PrintBase(local) && s[19..] == fraction + zone && s[19 + |fraction|..] == zone;
  }

  lemma SpellingParts(local: UtcTime, digits: string, z: Shift)
    requires WritesMicro(digits, local.micro) && TwoDigits(z)
    ensures Read(Spelling(local, digits, z)) == match Zone(ShiftText(z)) case None => None
                                                case Some(offset) => Some(Reading(local, offset))
  {
    FractionIsRead(digits, z, local.micro);
    PartsAreRead(local, FractionText(digits), ShiftText(z));
  }

  lemma StoredReading(s: string, local: UtcTime, offset: int)
    requires Read(s) == Some(Reading(local, offset))
    ensures ParseDeadline(s).Some? <==> InstantInRange(OffsetInstant(local, offset))
    ensures ParseDeadline(s).Some? ==> Instant(ParseDeadline(s).value) == OffsetInstant(local, offset)
  {
    ToUtcKeepsInstant(local, offset);
  }

  /** A spelling is accepted exactly when its zone is below a day and its instant is in range, and then
      it is stored as that instant. */
  lemma SpellingIsRead(local: UtcTime, digits: string, z: Shift)
    requires WritesMicro(digits, local.micro) && TwoDigits(z)
    ensures ParseDeadline(Spelling(local, digits, z)).Some? <==> BelowADay(z) && InstantInRange(InstantOf(local, z))
    ensures ParseDeadline(Spelling(local, digits, z)).Some? ==>
              Instant(ParseDeadline(Spelling(local, digits, z)).value) == InstantOf(local, z)
  {
    SpellingParts(local, digits, z);
    ShiftIsRead(z, local);
    if BelowADay(z) { StoredReading(Spelling(local, digits, z), local, Zone(ShiftText(z)).value); }
  }

  // ----- nothing else is read -----

  lemma BaseIsWritten(s: string, t: UtcTime)
    requires IsBase(s) && ReadBase(s, t.micro) == t
    ensures PrintBase(t) == s
  {
    PadOfToNat(s[..4]); PadOfToNat(s[5..7]); PadOfToNat(s[8..10]);
    PadOfToNat(s[11..13]); PadOfToNat(s[14..16]); PadOfToNat(s[17..19]);
    JoinedFields(s[..4], s[5..7], s[8..10], s[11..13], s[14..16], s[17..19]);
    SplitAtMarks(s, PrintBase(t));
  }

  lemma SplitAtMarks(s: string, r: string)
    requires IsBase(s) && IsBase(r)
    requires s[..4] == r[..4] && s[5..7] == r[5..7] && s[8..10] == r[8..10]
    requires s[11..13] == r[11..13] && s[14..16] == r[14..16] && s[17..19] == r[17..19]
    ensures s == r
  {
  }

  lemma ShiftIsWritten(s: string) returns (z: Shift)
    requires Zone(s).Some?
    ensures TwoDigits(z) && BelowADay(z) && ShiftText(z) == s
  {
    if s == "Z" {
      z := Zulu;
    } else {
      PadOfToNat(s[1..3]);
      PadOfToNat(s[4..6]);
      z := if s[0] == '+' then Ahead(ToNat(s[1..3]), ToNat(s[4..6])) else Behind(ToNat(s[1..3]), ToNat(s[4..6]));
      SplitAtColon(s);
    }
  }

  lemma SplitAtColon(s: string)
    requires |s| == 6 && s[3] == ':'
    ensures SignedText(s[0], s[1..3], s[4..6]) == s
  {
  }

  lemma FractionIsWritten(s: string) returns (digits: string)
    requires Fraction(s).Some?
    ensures WritesMicro(digits, Fraction(s).value.1) && Fraction(s).value.1 < 1_000_000
    ensures s[..Fraction(s).value.0] == FractionText(digits)
  {
    digits := if s == "" || s[0] != '.' then "" else s[1..][..LeadingDigits(s[1..])];
    ShiftedIs(ToNat(digits), 6 - |digits|);
    MicroIsSmall(digits);
    MicroIsRead(digits, Fraction(s).value.1);
    if digits != "" { assert s[..1 + |digits|] == "." + digits; }
  }

  lemma AcceptedIsSpelling(s: string) returns (local: UtcTime, digits: string, z: Shift)
    requires ParseDeadline(s).Some?
    ensures WritesMicro(digits, local.micro) && TwoDigits(z) && s == Spelling(local, digits, z)
  {
    local := Read(s).value.local;
    digits := FractionIsWritten(s[19..]);
    var n := Fraction(s[19..]).value.0;
    z := ShiftIsWritten(s[19 + n..]);
    BaseIsWritten(s[..19], local);
    assert s == s[..19] + s[19..][..n] + s[19 + n..];
  }

  /** The text writes some valid local reading, in a zone, whose instant this is. */
  ghost predicate Means(s: string, instant: int) {
    exists local: UtcTime, digits: string, z: Shift ::
      WritesMicro(digits, local.micro) && BelowADay(z) && s == Spelling(local, digits, z)
      && instant == InstantOf(local, z)
  }

  ghost predicate Spells(s: string, t: UtcTime) { Means(s, Instant(t)) }

  /** The two texts stand for the same supported instant, or both for none. */
  ghost predicate SameMeaning(a: string, b: string) {
    forall instant :: InstantInRange(instant) ==> (Means(a, instant) <==> Means(b, instant))
  }

  lemma MeaningIsStored(s: string, instant: int)
    requires InstantInRange(instant) && Means(s, instant)
    ensures ParseDeadline(s).Some? && Instant(ParseDeadline(s).value) == instant
  {
    var local: UtcTime, digits: string, z: Shift :|
      WritesMicro(digits, local.micro) && BelowADay(z) && s == Spelling(local, digits, z)
      && instant == InstantOf(local, z);
    SpellingIsRead(local, digits, z);
  }

  lemma StoredIsMeant(s: string)
    requires ParseDeadline(s).Some?
    ensures Means(s, Instant(ParseDeadline(s).value)) && InstantInRange(Instant(ParseDeadline(s).value))
  {
    var local, digits, z := AcceptedIsSpelling(s);
    SpellingIsRead(local, digits, z);
    YearMatchesInstant(ParseDeadline(s).value);
  }

  /** A text is stored as a UTC time if and only if it spells that time. */
  lemma ParsedExactlyWhenSpelled(s: string, t: UtcTime)
    ensures ParseDeadline(s) == Some(t) <==> Spells(s, t)
  {
    if ParseDeadline(s).Some? { StoredIsMeant(s); }
    if Spells(s, t) {
      YearMatchesInstant(t);
      MeaningIsStored(s, Instant(t));
      InstantIdentifies(ParseDeadline(s).value, t);
    }
  }

  function StoredInstant(s: string): Option<int> {
    match ParseDeadline(s)
    case None => None
    case Some(t) => Some(Instant(t))
  }

  lemma StoredIsMeaning(s: string, instant: int)
    ensures StoredInstant(s) == Some(instant) <==> InstantInRange(instant) && Means(s, instant)
  {
    if ParseDeadline(s).Some? { StoredIsMeant(s); }
    if InstantInRange(instant) && Means(s, instant) { MeaningIsStored(s, instant); }
  }

  lemma StoredInstantIdentifies(s: string, t: string)
    ensures StoredInstant(s) == StoredInstant(t) <==> ParseDeadline(s) == ParseDeadline(t)
  {
    if ParseDeadline(s).Some? && ParseDeadline(t).Some? {
      InstantIdentifies(ParseDeadline(s).value, ParseDeadline(t).value);
    }
  }

  lemma StoredAlike(s: string, t: string)
    ensures StoredInstant(s) == StoredInstant(t) <==> SameMeaning(s, t)
  {
    forall instant | InstantInRange(instant)
      ensures Means(s, instant) <==> StoredInstant(s) == Some(instant)
      ensures Means(t, instant) <==> StoredInstant(t) == Some(instant)
    {
      StoredIsMeaning(s, instant);
      StoredIsMeaning(t, instant);
    }
    if StoredInstant(s).Some? { StoredIsMeaning(s, StoredInstant(s).value); }
    if StoredInstant(t).Some? { StoredIsMeaning(t, StoredInstant(t).value); }
  }

  /** The validator accepts exactly the texts that mean a supported instant, keeps that instant, and gives
      two texts the same stored form exactly when they mean the same. */
  lemma ParseKeepsMeaning(s: string, t: string)
    ensures ParseDeadline(s).Some? <==> exists instant :: InstantInRange(instant) && Means(s, instant)
    ensures ParseDeadline(s).Some? ==> Means(s, Instant(ParseDeadline(s).value))
    ensures ParseDeadline(s) == ParseDeadline(t) <==> SameMeaning(s, t)
  {
    if ParseDeadline(s).Some? { StoredIsMeant(s); }
    if instant :| InstantInRange(instant) && Means(s, instant) { MeaningIsStored(s, instant); }
    StoredAlike(s, t);
    StoredInstantIdentifies(s, t);
  }
}

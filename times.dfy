/**
 * Wall-clock times, weekday bitmasks and weekday numbering of the
 * conversion engine (models/models.go, TimeOfDay, Recurrence, weekdayToOCF).
 */
module Times {
  import opened GoInts
  import opened Wrappers

  /** An hour and a minute of the day, each a Go uint8; nothing in the type keeps them in range. */
  datatype TimeOfDay = TimeOfDay(hour: uint8, minute: uint8)

  /** The times a clock can show: 00:00 to 23:59. */
  predicate Valid(t: TimeOfDay)
  {
    t.hour <= 23 && t.minute <= 59
  }

  const Midnight: TimeOfDay := TimeOfDay(0, 0)
  const LastMinute: TimeOfDay := TimeOfDay(23, 59)

  /** Minutes since midnight of a valid time. */
  function Minutes(t: TimeOfDay): nat
  {
    t.hour * 60 + t.minute
  }

  // ----- String: fmt.Sprintf("%02d:%02d", hour, minute) -----

  function DigitChar(d: nat): char
    requires d < 10
  {
    ('0' as int + d) as char
  }

  /** The decimal digits of n, with no leading zero (Go's %d). */
  function Digits(n: nat): string
  {
    if n < 10 then [DigitChar(n)] else Digits(n / 10) + [DigitChar(n % 10)]
  }

  /** Go's %02d: padded with zeros to at least two digits. */
  function Pad2(n: nat): string
  {
    if n < 10 then ['0'] + Digits(n) else Digits(n)
  }

  /** TimeOfDay.String. */
  function Format(t: TimeOfDay): string
  {
    Pad2(t.hour) + [':'] + Pad2(t.minute)
  }

  lemma {:induction false} Pad2Small(n: nat)
    requires n < 100
    ensures Pad2(n) == [DigitChar(n / 10), DigitChar(n % 10)]
  {
    if n >= 10 {
      assert Digits(n / 10) == [DigitChar(n / 10)];
    }
  }

  function DigitValue(c: char): int
  {
    c as int - '0' as int
  }

  predicate IsDigit(c: char)
  {
    '0' <= c <= '9'
  }

  /** Reads back a five-character "HH:MM" string. */
  function ParseHHMM(s: string): (r: Option<TimeOfDay>)
    ensures r.Some? ==> r.value.hour < 100 && r.value.minute < 100
  {
    if |s| == 5 && IsDigit(s[0]) && IsDigit(s[1]) && s[2] == ':' && IsDigit(s[3]) && IsDigit(s[4])
    then Some(TimeOfDay(10 * DigitValue(s[0]) + DigitValue(s[1]), 10 * DigitValue(s[3]) + DigitValue(s[4])))
    else None
  }

  /** A valid time renders as exactly five characters "HH:MM" that read back as the same time. */
  lemma FormatRoundTrip(t: TimeOfDay)
    requires Valid(t)
    ensures |Format(t)| == 5 && Format(t)[2] == ':'
    ensures ParseHHMM(Format(t)) == Some(t)
  {
    Pad2Small(t.hour);
    Pad2Small(t.minute);
  }

  /** Distinct valid times render as distinct strings. */
  lemma FormatInjective(t1: TimeOfDay, t2: TimeOfDay)
    requires Valid(t1) && Valid(t2)
    ensures Format(t1) == Format(t2) <==> t1 == t2
  {
    FormatRoundTrip(t1);
    FormatRoundTrip(t2);
  }

  // ----- LessThan: hours first, then minutes with <= -----

  /** TimeOfDay.LessThan: despite its name, a non-strict comparison. */
  predicate LessThan(t: TimeOfDay, t2: TimeOfDay)
  {
    if t.hour != t2.hour then t.hour < t2.hour else t.minute <= t2.minute
  }

  /** LessThan is the reflexive, total lexicographic order on (hour, minute). */
  lemma LessThanIsTotalOrder(a: TimeOfDay, b: TimeOfDay, c: TimeOfDay)
    ensures LessThan(a, a)
    ensures LessThan(a, b) || LessThan(b, a)
    ensures LessThan(a, b) && LessThan(b, a) ==> a == b
    ensures LessThan(a, b) && LessThan(b, c) ==> LessThan(a, c)
    ensures LessThan(a, b) <==> a.hour < b.hour || (a.hour == b.hour && a.minute <= b.minute)
  {
  }

  /** On valid times LessThan compares minutes since midnight with <=. */
  lemma LessThanMinutes(a: TimeOfDay, b: TimeOfDay)
    requires Valid(a) && Valid(b)
    ensures LessThan(a, b) <==> Minutes(a) <= Minutes(b)
  {
  }

  // ----- SubOneMinute -----

  /** TimeOfDay.SubOneMinute: one minute earlier, 00:00 wrapping to 23:59. */
  function SubOneMinute(t: TimeOfDay): TimeOfDay
  {
    if t.minute == 0 then
      TimeOfDay(if t.hour == 0 then 23 else t.hour - 1, 59)
    else
      TimeOfDay(t.hour, t.minute - 1)
  }

  /** One minute later on the clock, 23:59 wrapping to 00:00. */
  function AddOneMinute(t: TimeOfDay): TimeOfDay
    requires Valid(t)
  {
    if t.minute == 59 then
      TimeOfDay(if t.hour == 23 then 0 else t.hour + 1, 0)
    else
      TimeOfDay(t.hour, t.minute + 1)
  }

  /** On valid times SubOneMinute is "minus one minute modulo a day", and AddOneMinute undoes it. */
  lemma SubOneMinuteSpec(t: TimeOfDay)
    requires Valid(t)
    ensures Valid(SubOneMinute(t))
    ensures Minutes(SubOneMinute(t)) == if t == Midnight then 1439 else Minutes(t) - 1
    ensures AddOneMinute(SubOneMinute(t)) == t
    ensures SubOneMinute(AddOneMinute(t)) == t
    ensures t == Midnight <==> SubOneMinute(t) == LastMinute
  {
  }

  // ----- Recurrence -----

  /** A weekday mask: Sunday is bit 6, Saturday bit 0. */
  type Recurrence = uint8

  /** Recurrence.ActiveOn; Go panics on a negative shift count, so the day must not exceed 6. */
  predicate ActiveOn(r: Recurrence, day: int)
    requires 0 <= day <= 6
  {
    (r as bv8) & (1 << (6 - day)) != 0
  }

  function Pow2(k: nat): (p: nat)
    ensures p >= 1
  {
    if k == 0 then 1 else 2 * Pow2(k - 1)
  }

  /** ActiveOn(day) tests bit 6 - day of the mask. */
  lemma ActiveOnBit(r: Recurrence, day: int)
    requires 0 <= day <= 6
    ensures ActiveOn(r, day) <==> (r / Pow2(6 - day)) % 2 == 1
  {
    assert Pow2(0) == 1 && Pow2(1) == 2 && Pow2(2) == 4 && Pow2(3) == 8;
    assert Pow2(4) == 16 && Pow2(5) == 32 && Pow2(6) == 64;
  }

  /** Bit 7 of the mask is never read. */
  lemma ActiveOnIgnoresBit7(r: Recurrence, day: int)
    requires 128 <= r && 0 <= day <= 6
    ensures ActiveOn(r, day) == ActiveOn(r - 128, day)
  {
    ActiveOnBit(r, day);
    ActiveOnBit(r - 128, day);
    var p := Pow2(6 - day);
    assert p == 1 || p == 2 || p == 4 || p == 8 || p == 16 || p == 32 || p == 64 by {
      assert Pow2(0) == 1 && Pow2(1) == 2 && Pow2(2) == 4 && Pow2(3) == 8;
      assert Pow2(4) == 16 && Pow2(5) == 32 && Pow2(6) == 64;
    }
    BitBelow7(r, p);
  }

  lemma BitBelow7(r: int, p: int)
    requires 128 <= r < 256
    requires p == 1 || p == 2 || p == 4 || p == 8 || p == 16 || p == 32 || p == 64
    ensures (r / p) % 2 == ((r - 128) / p) % 2
  {
    var x := r - 128;
    if p == 1 { assert r / p == x / p + 128; }
    else if p == 2 { assert r / p == x / p + 64; }
    else if p == 4 { assert r / p == x / p + 32; }
    else if p == 8 { assert r / p == x / p + 16; }
    else if p == 16 { assert r / p == x / p + 8; }
    else if p == 32 { assert r / p == x / p + 4; }
    else { assert r / p == x / p + 2; }
  }

  // ----- weekdayToOCF -----

  const Sunday: int := 0
  const Monday: int := 1
  const Saturday: int := 6

  /** weekdayToOCF: Go weekday (Sunday 0) to target numbering (Monday 1 .. Sunday 7). */
  function WeekdayToOCF(day: nat): int
  {
    (day + 6) % 7 + 1
  }

  /** The Go weekday with a given target number. */
  function OCFToWeekday(n: int): int
  {
    n % 7
  }

  /**
   * On 0..6, weekdayToOCF is a bijection onto 1..7 with Sunday 7 and Monday 1;
   * the out-of-range weekday 7 also maps to 7, like Sunday.
   */
  lemma WeekdayToOCFBijective(day: nat, other: nat)
    requires day <= 6 && other <= 6
    ensures 1 <= WeekdayToOCF(day) <= 7
    ensures OCFToWeekday(WeekdayToOCF(day)) == day
    ensures WeekdayToOCF(day) == WeekdayToOCF(other) ==> day == other
    ensures WeekdayToOCF(Sunday) == 7 && WeekdayToOCF(Monday) == 1 && WeekdayToOCF(Saturday) == 6
    ensures WeekdayToOCF(7) == 7
  {
  }

  /** Every target day number 1..7 is reached from exactly one weekday. */
  lemma WeekdayToOCFOnto(n: int)
    requires 1 <= n <= 7
    ensures 0 <= OCFToWeekday(n) <= 6 && WeekdayToOCF(OCFToWeekday(n)) == n
  {
  }
}

/** The pure rules of the shift dashboard: the overnight roll-forward of a
    shift's end, the statutory break, the net duration shown per shift, the
    quarter-hour time picker, the driver-name fallback and the id filter the
    optimistic deletes use.

    Instants are whole minutes of local wall-clock time: `Stamp(day, clock)`
    is minute `clock` of day number `day`. Every clock time the form offers
    is a quarter hour, so elapsed times are exact. */
module ShiftRules {
  import opened Store

  const MinutesPerDay: int := 1440

  /** A minute of the day, 00:00 to 23:59. */
  type ClockTime = m: int | 0 <= m < 1440

  function Stamp(day: int, clock: ClockTime): int
  {
    day * MinutesPerDay + clock
  }

  /** A `drivers` row. */
  datatype Driver = Driver(id: string, name: string, bossId: string)

  /** The joined `drivers(name)` of a shift row: missing, a list of rows or
      one row, each with a name that may be missing. */
  datatype DriverRelation = NoRelation | RelationList(names: seq<Option<string>>) | RelationRow(name: Option<string>)

  /** A `shifts` row as the dashboard and the report select it. */
  datatype Shift = Shift(id: string, userId: string, driverId: string,
                         startTime: int, endTime: int, breakMinutes: int,
                         drivers: DriverRelation)

  function DriverId(d: Driver): string { d.id }

  function ShiftId(s: Shift): string { s.id }

  // ------------------------------------------------------------------
  // Overnight shifts and the break policy
  // ------------------------------------------------------------------

  /** The end instant of a shift entered as one date and two clock times:
      an end earlier than the start moves to the following day, once. */
  function ShiftEnd(day: int, start: ClockTime, end: ClockTime): (e: int)
    ensures Stamp(day, start) <= e < Stamp(day, start) + MinutesPerDay
    ensures e % MinutesPerDay == end
    ensures e == Stamp(day, end) <==> start <= end
  {
    if Stamp(day, end) < Stamp(day, start) then Stamp(day + 1, end) else Stamp(day, end)
  }

  /** The statutory break for a shift of `elapsed` minutes, decided on the
      elapsed time in hours. */
  function BreakMinutes(elapsed: int): (b: int)
    ensures b == 0 || b == 30 || b == 45
  {
    var hoursTotal := elapsed as real / 60.0;
    if hoursTotal > 9.0 then 45 else if hoursTotal > 6.0 then 30 else 0
  }

  /** Above 9 hours 45 minutes, above 6 hours 30 minutes, else none; both
      thresholds exclusive. */
  lemma BreakTiers(elapsed: int)
    ensures BreakMinutes(elapsed) == 45 <==> elapsed > 9 * 60
    ensures BreakMinutes(elapsed) == 30 <==> 6 * 60 < elapsed <= 9 * 60
    ensures BreakMinutes(elapsed) == 0 <==> elapsed <= 6 * 60
  {
  }

  lemma BreakBoundaries()
    ensures BreakMinutes(9 * 60) == 30 && BreakMinutes(9 * 60 + 1) == 45
    ensures BreakMinutes(6 * 60) == 0 && BreakMinutes(6 * 60 + 1) == 30
  {
  }

  /** A longer shift never gets a shorter break. */
  lemma BreakMonotone(shorter: int, longer: int)
    requires shorter <= longer
    ensures BreakMinutes(shorter) <= BreakMinutes(longer)
  {
    BreakTiers(shorter);
    BreakTiers(longer);
  }

  /** A break the policy grants is shorter than the shift, so the shift's
      net time is never negative. */
  lemma BreakShorterThanShift(elapsed: int)
    requires elapsed >= 0
    ensures BreakMinutes(elapsed) > 0 ==> BreakMinutes(elapsed) < elapsed
    ensures BreakMinutes(elapsed) <= elapsed
  {
    BreakTiers(elapsed);
  }

  lemma OvernightShift(day: int)
    ensures ShiftEnd(day, 22 * 60, 6 * 60) == Stamp(day + 1, 6 * 60)
    ensures ShiftEnd(day, 22 * 60, 6 * 60) - Stamp(day, 22 * 60) == 8 * 60
    ensures BreakMinutes(ShiftEnd(day, 22 * 60, 6 * 60) - Stamp(day, 22 * 60)) == 30
  {
  }

  // ------------------------------------------------------------------
  // Net duration
  // ------------------------------------------------------------------

  /** `calculateNetDuration` before formatting: hours between start and
      end less the break, 0 when a timestamp is missing; not clamped. The
      second ensures only restates the arithmetic in minutes; what the value
      means is stated by `NetDurationOfPolicyShift` (its range for shifts
      entered through the form) and `TimeEntryForm.ReportHoursAgree` (the
      report total is the sum of these values). */
  function NetDuration(start: Option<int>, end: Option<int>, breakMinutes: int): (hours: real)
    ensures start.None? || end.None? ==> hours == 0.0
    ensures start.Some? && end.Some? ==> hours * 60.0 == (end.value - start.value - breakMinutes) as real
  {
    if start.None? || end.None? then 0.0
    else ((end.value - start.value) - breakMinutes) as real / 60.0
  }

  /** A shift entered through the form and given the policy's break has a
      net duration of at least zero and below 24 hours. */
  lemma NetDurationOfPolicyShift(day: int, start: ClockTime, end: ClockTime)
    ensures var e := ShiftEnd(day, start, end);
            var elapsed := e - Stamp(day, start);
            0.0 <= NetDuration(Some(Stamp(day, start)), Some(e), BreakMinutes(elapsed)) < 24.0
  {
    var e := ShiftEnd(day, start, end);
    BreakShorterThanShift(e - Stamp(day, start));
  }

  lemma NetDurationExamples()
    ensures NetDuration(Some(8 * 60), Some(17 * 60), 30) == 8.5
    ensures NetDuration(None, Some(17 * 60), 30) == 0.0
    ensures NetDuration(Some(8 * 60), Some(8 * 60 + 20), 30) < 0.0
  {
  }

  // ------------------------------------------------------------------
  // The time picker
  // ------------------------------------------------------------------

  function Digit(d: int): (c: char)
    requires 0 <= d < 10
    ensures '0' <= c <= '9'
  {
    ('0' as int + d) as char
  }

  /** `n.toString().padStart(2, '0')` for `n` below 100. */
  function Pad2(n: int): (s: string)
    requires 0 <= n < 100
    ensures |s| == 2
  {
    [Digit(n / 10), Digit(n % 10)]
  }

  /** `timeOptions`: the 96 quarter hours of a day as `HH:MM`. */
  function TimeOptions(): (options: seq<string>)
    ensures |options| == 96
  {
    seq(96, i requires 0 <= i < 96 => Pad2(i / 4) + ":" + Pad2((i % 4) * 15))
  }

  /** The `HH:MM` text of a minute of the day. */
  function ClockText(m: ClockTime): string
  {
    Pad2(m / 60) + ":" + Pad2(m % 60)
  }

  function DigitValue(c: char): int
  {
    c as int - '0' as int
  }

  predicate IsDigit(c: char)
  {
    '0' <= c <= '9'
  }

  /** How a picker value `HH:MM` is read as a minute of the day. */
  function ParseClock(s: string): (m: Option<int>)
    ensures m.Some? ==> 0 <= m.value < MinutesPerDay
  {
    if |s| == 5 && IsDigit(s[0]) && IsDigit(s[1]) && s[2] == ':' && IsDigit(s[3]) && IsDigit(s[4]) then
      var hours := DigitValue(s[0]) * 10 + DigitValue(s[1]);
      var minutes := DigitValue(s[3]) * 10 + DigitValue(s[4]);
      if hours < 24 && minutes < 60 then Some(hours * 60 + minutes) else None
    else None
  }

  lemma ParseClockText(m: ClockTime)
    ensures ParseClock(ClockText(m)) == Some(m)
  {
    var t := ClockText(m);
    assert t[0] == Digit(m / 60 / 10) && t[1] == Digit(m / 60 % 10);
    assert t[3] == Digit(m % 60 / 10) && t[4] == Digit(m % 60 % 10);
  }

  /** Option `i` is the text of minute `15 * i`, and reads back as that minute. */
  lemma TimeOptionAt(i: int)
    requires 0 <= i < 96
    ensures TimeOptions()[i] == ClockText(15 * i)
    ensures ParseClock(TimeOptions()[i]) == Some(15 * i)
  {
    assert (15 * i) / 60 == i / 4 && (15 * i) % 60 == (i % 4) * 15;
    ParseClockText(15 * i);
  }

  /** JavaScript's `<` on strings: lexicographic by character. */
  predicate LexLess(a: string, b: string)
  {
    if a == [] then b != []
    else if b == [] then false
    else if a[0] != b[0] then a[0] < b[0]
    else LexLess(a[1..], b[1..])
  }

  lemma {:induction false} LexLessConcat(a1: string, a2: string, b1: string, b2: string)
    requires |a1| == |b1|
    ensures LexLess(a1 + a2, b1 + b2) <==> LexLess(a1, b1) || (a1 == b1 && LexLess(a2, b2))
  {
    if a1 == [] {
      assert a1 + a2 == a2 && b1 + b2 == b2;
    } else {
      assert (a1 + a2)[0] == a1[0] && (b1 + b2)[0] == b1[0];
      assert (a1 + a2)[1..] == a1[1..] + a2 && (b1 + b2)[1..] == b1[1..] + b2;
      LexLessConcat(a1[1..], a2, b1[1..], b2);
      if a1[0] == b1[0] {
        assert a1 == b1 <==> a1[1..] == b1[1..] by {
          assert a1 == [a1[0]] + a1[1..] && b1 == [b1[0]] + b1[1..];
        }
      }
    }
  }

  lemma Pad2Less(a: int, b: int)
    requires 0 <= a < b < 100
    ensures LexLess(Pad2(a), Pad2(b))
  {
    var pa, pb := Pad2(a), Pad2(b);
    if a / 10 == b / 10 {
      assert pa[1..] == [Digit(a % 10)] && pb[1..] == [Digit(b % 10)];
    }
  }

  /** Texts of earlier minutes sort first. */
  lemma ClockTextOrdered(a: ClockTime, b: ClockTime)
    requires a < b
    ensures LexLess(ClockText(a), ClockText(b))
  {
    LexLessConcat(Pad2(a / 60), ":" + Pad2(a % 60), Pad2(b / 60), ":" + Pad2(b % 60));
    if a / 60 < b / 60 {
      Pad2Less(a / 60, b / 60);
    } else {
      LexLessConcat(":", Pad2(a % 60), ":", Pad2(b % 60));
      Pad2Less(a % 60, b % 60);
    }
    assert ClockText(a) == Pad2(a / 60) + (":" + Pad2(a % 60));
    assert ClockText(b) == Pad2(b / 60) + (":" + Pad2(b % 60));
  }

  /** The picker lists its options in strictly increasing order, hence
      without duplicates. */
  lemma TimeOptionsIncreasing()
    ensures forall i, j :: 0 <= i < j < 96 ==> LexLess(TimeOptions()[i], TimeOptions()[j])
    ensures forall i, j :: 0 <= i < j < 96 ==> TimeOptions()[i] != TimeOptions()[j]
  {
    forall i, j | 0 <= i < j < 96
      ensures LexLess(TimeOptions()[i], TimeOptions()[j]) && TimeOptions()[i] != TimeOptions()[j]
    {
      TimeOptionAt(i);
      TimeOptionAt(j);
      ClockTextOrdered(15 * i, 15 * j);
      ParseClockText(15 * i);
      ParseClockText(15 * j);
    }
  }

  // ------------------------------------------------------------------
  // Driver names and deletes
  // ------------------------------------------------------------------

  const Unknown: string := "Unbekannt"

  /** `getDriverName`: the joined driver's name, taken from the first row
      when the join is a list; a missing or empty name gives "Unbekannt". */
  function DriverName(rel: DriverRelation): (name: string)
    ensures name != ""
    ensures name != Unknown ==>
              (rel.RelationRow? && rel.name == Some(name))
              || (rel.RelationList? && |rel.names| > 0 && rel.names[0] == Some(name))
    ensures rel.NoRelation? ==> name == Unknown
    ensures rel.RelationRow? && rel.name.Some? && rel.name.value != "" ==> name == rel.name.value
    ensures rel.RelationRow? && (rel.name.None? || rel.name.value == "") ==> name == Unknown
    ensures rel.RelationList? && |rel.names| > 0 && rel.names[0].Some? && rel.names[0].value != "" ==> name == rel.names[0].value
    ensures rel.RelationList? && (|rel.names| == 0 || rel.names[0].None? || rel.names[0].value == "") ==> name == Unknown
  {
    match rel
    case NoRelation => Unknown
    case RelationList(names) =>
      if |names| > 0 && names[0].Some? && names[0].value != "" then names[0].value else Unknown
    case RelationRow(n) =>
      if n.Some? && n.value != "" then n.value else Unknown
  }

  /** `items.filter(x => x.id !== id)`. */
  function Without<T>(items: seq<T>, id: string, idOf: T -> string): (rest: seq<T>)
    ensures |rest| <= |items|
    ensures forall k :: 0 <= k < |rest| ==> idOf(rest[k]) != id
  {
    if items == [] then []
    else
      var rest := Without(items[..|items| - 1], id, idOf);
      if idOf(items[|items| - 1]) != id then rest + [items[|items| - 1]] else rest
  }

  /** The filter removes every item with that id, keeps every other item
      as often as it occurred, and keeps their relative order. */
  lemma {:induction false} WithoutSpec<T>(items: seq<T>, id: string, idOf: T -> string)
    ensures forall x :: multiset(Without(items, id, idOf))[x] == if idOf(x) == id then 0 else multiset(items)[x]
    ensures forall x :: x in Without(items, id, idOf) <==> x in items && idOf(x) != id
  {
    if items != [] {
      var init := items[..|items| - 1];
      var last := items[|items| - 1];
      WithoutSpec(init, id, idOf);
      assert items == init + [last];
      assert multiset(items) == multiset(init) + multiset{last};
    }
  }

  lemma {:induction false} WithoutAppend<T>(a: seq<T>, b: seq<T>, id: string, idOf: T -> string)
    ensures Without(a + b, id, idOf) == Without(a, id, idOf) + Without(b, id, idOf)
  {
    if b == [] {
      assert a + b == a;
    } else {
      var init := b[..|b| - 1];
      assert (a + b)[..|a + b| - 1] == a + init;
      assert (a + b)[|a + b| - 1] == b[|b| - 1];
      WithoutAppend(a, init, id, idOf);
    }
  }

  /** Deleting an id no item has changes nothing. */
  lemma {:induction false} WithoutAbsent<T>(items: seq<T>, id: string, idOf: T -> string)
    requires forall k :: 0 <= k < |items| ==> idOf(items[k]) != id
    ensures Without(items, id, idOf) == items
  {
    if items != [] {
      var init := items[..|items| - 1];
      assert forall k :: 0 <= k < |init| ==> init[k] == items[k];
      WithoutAbsent(init, id, idOf);
    }
  }
}

/**
 * The workout records of js/script.js: the `Workout` base with its two
 * variants `Running` and `Cycling`. A record is built once and never changed
 * afterwards, so it is a datatype value here, and the three constructors
 * become the functions NewRunning and NewCycling. The clock reads of the
 * class-field initialisers (`new Date()`, `Date.now()`) are parameters.
 */
module Workouts {
  import opened Options
  import opened Decimal

  /** The two values the form's type select can take. */
  datatype Kind = Running | Cycling

  /** `[lat, lng]` of the clicked map point. */
  datatype Coords = Coords(lat: real, lng: real)

  /** `Date#getMonth()` is 0..11 and `Date#getDate()` is 1..31. */
  type MonthIndex = m: int | 0 <= m < 12
  type DayOfMonth = d: int | 1 <= d <= 31 witness 1

  /** The calendar fields of the creation `Date` that the record reads. */
  datatype CalendarDate = CalendarDate(month: MonthIndex, day: DayOfMonth)

  datatype Workout =
    | RunningWorkout(id: string, date: CalendarDate, coords: Coords,
                     distance: real, duration: real, description: string,
                     cadence: real, pace: real)
    | CyclingWorkout(id: string, date: CalendarDate, coords: Coords,
                     distance: real, duration: real, description: string,
                     elevGain: real, speed: real)
  {
    /** The record's `type` field. */
    function TypeOf(): Kind {
      if RunningWorkout? then Running else Cycling
    }
  }

  const Months: seq<string> := ["January", "February", "March", "April", "May", "June",
                                "July", "August", "September", "October", "November", "December"]

  /** The string stored in the `type` field. */
  function TypeName(k: Kind): string {
    match k
    case Running => "running"
    case Cycling => "cycling"
  }

  /** `toUpperCase()` on one character, for the ASCII letters a type name uses. */
  function UpperCase(c: char): char {
    if 'a' <= c <= 'z' then (c as int - 32) as char else c
  }

  /** `s[0].toUpperCase() + s.slice(1)`. */
  function Capitalise(s: string): string
    requires |s| > 0
  {
    [UpperCase(s[0])] + s[1..]
  }

  /** The capitalised type name that opens a description. */
  function Title(k: Kind): (t: string)
    ensures t == if k == Running then "Running" else "Cycling"
  {
    Capitalise(TypeName(k))
  }

  /**
   * `_setDescription`: "<Type> on <Month> at <day>". The text determines the
   * workout type, the month index and the day: parsing it gives them back.
   */
  function Description(k: Kind, date: CalendarDate): (d: string)
    ensures ParseDescription(d) == Some((k, date))
  {
    ParseTitleRoundTrip(k);
    ParseDateRoundTrip(date);
    ParseJoined(Title(k), DateText(date));
    Title(k) + " on " + DateText(date)
  }

  /** The "<Month> at <day>" part of a description. */
  function DateText(date: CalendarDate): string {
    Months[date.month] + " at " + DecimalString(date.day)
  }

  /**
   * The `id` initialiser: the last ten characters of `Date.now() + ''`
   * (all of it when it is shorter), digits that read as the timestamp
   * modulo 10^10. Leading zeros of those ten characters are kept.
   */
  function WorkoutId(now: nat): (id: string)
    ensures AllDigits(id)
    ensures ParseDecimal(id) == now % Pow10(10)
  {
    LastDigitsValue(now, 10);
    SliceLast(DecimalString(now), 10)
  }

  /** `calcPace`: minutes per kilometre. */
  function CalcPace(distance: real, duration: real): (pace: real)
    requires distance != 0.0
    ensures pace * distance == duration
    ensures distance > 0.0 && duration > 0.0 ==> pace > 0.0
  {
    duration / distance
  }

  /** `calcSpeed`: distance per minute of duration, since the duration is entered in minutes. */
  function CalcSpeed(distance: real, duration: real): (speed: real)
    requires duration != 0.0
    ensures speed * duration == distance
    ensures distance > 0.0 && duration > 0.0 ==> speed > 0.0
  {
    distance / duration
  }

  /** `new Running(coords, distance, duration, cadence)` at time `now` on `date`. */
  function NewRunning(coords: Coords, distance: real, duration: real, cadence: real,
                      now: nat, date: CalendarDate): (w: Workout)
    requires distance != 0.0
    ensures w.TypeOf() == Running
    ensures w.id == WorkoutId(now) && w.date == date && w.coords == coords
    ensures w.distance == distance && w.duration == duration && w.cadence == cadence
    ensures w.pace == CalcPace(distance, duration)
    ensures w.description == Description(Running, date)
  {
    RunningWorkout(WorkoutId(now), date, coords, distance, duration,
                   Description(Running, date), cadence, CalcPace(distance, duration))
  }

  /** `new Cycling(coords, distance, duration, elevGain)` at time `now` on `date`. */
  function NewCycling(coords: Coords, distance: real, duration: real, elevGain: real,
                      now: nat, date: CalendarDate): (w: Workout)
    requires duration != 0.0
    ensures w.TypeOf() == Cycling
    ensures w.id == WorkoutId(now) && w.date == date && w.coords == coords
    ensures w.distance == distance && w.duration == duration && w.elevGain == elevGain
    ensures w.speed == CalcSpeed(distance, duration)
    ensures w.description == Description(Cycling, date)
  {
    CyclingWorkout(WorkoutId(now), date, coords, distance, duration,
                   Description(Cycling, date), elevGain, CalcSpeed(distance, duration))
  }

  /**
   * A running record built from positive inputs: its pace is duration over
   * distance and positive, its description names the type and the date, and
   * its id carries the timestamp's last ten digits.
   */
  lemma RunningRecord(coords: Coords, distance: real, duration: real, cadence: real,
                      now: nat, date: CalendarDate)
    requires distance > 0.0 && duration > 0.0
    ensures var w := NewRunning(coords, distance, duration, cadence, now, date);
      && w.pace == duration / distance && w.pace > 0.0
      && ParseDescription(w.description) == Some((Running, date))
      && ParseDecimal(w.id) == now % Pow10(10) && |w.id| <= 10
  {
  }

  /**
   * A cycling record built from positive inputs: its speed is distance over
   * duration and positive, its description names the type and the date, and
   * its id carries the timestamp's last ten digits.
   */
  lemma CyclingRecord(coords: Coords, distance: real, duration: real, elevGain: real,
                      now: nat, date: CalendarDate)
    requires distance > 0.0 && duration > 0.0
    ensures var w := NewCycling(coords, distance, duration, elevGain, now, date);
      && w.speed == distance / duration && w.speed > 0.0
      && ParseDescription(w.description) == Some((Cycling, date))
      && ParseDecimal(w.id) == now % Pow10(10) && |w.id| <= 10
  {
  }

  // ---------------------------------------------------------------------
  // Reading a description back: the partner of Description.

  /** The first month index at or after `i` whose name is `name`. */
  function FindMonth(name: string, i: nat): (m: Option<MonthIndex>)
    requires i <= 12
    ensures m.Some? ==> i <= m.value && Months[m.value] == name
    ensures m.None? ==> forall j :: i <= j < 12 ==> Months[j] != name
    decreases 12 - i
  {
    if i == 12 then None else if Months[i] == name then Some(i) else FindMonth(name, i + 1)
  }

  /** The number of decimal digits that end `s`. */
  function TrailingDigits(s: string): (n: nat)
    ensures n <= |s|
  {
    if s != [] && IsDigit(s[|s| - 1]) then TrailingDigits(s[..|s| - 1]) + 1 else 0
  }

  /** Recovers the type from the title that opens a description. */
  function ParseTitle(t: string): Option<Kind> {
    if t == "Running" then Some(Running) else if t == "Cycling" then Some(Cycling) else None
  }

  /** Recovers the calendar date from "<Month> at <day>". */
  function ParseDate(text: string): Option<CalendarDate> {
    var n := TrailingDigits(text);
    if n == 0 || |text| < n + 4 || text[|text| - n - 4..|text| - n] != " at " then None
    else
      var month := FindMonth(text[..|text| - n - 4], 0);
      var digits := text[|text| - n..];
      if month.None? || !Canonical(digits) then None
      else
        var day := ParseDecimal(digits);
        if !(1 <= day <= 31) then None else Some(CalendarDate(month.value, day))
  }

  /** Recovers the type and the calendar date from a description. */
  function ParseDescription(s: string): Option<(Kind, CalendarDate)> {
    if |s| < 11 || s[7..11] != " on " then None
    else
      var kind := ParseTitle(s[..7]);
      var date := ParseDate(s[11..]);
      if kind.None? || date.None? then None else Some((kind.value, date.value))
  }

  lemma MonthNamesDistinct(i: MonthIndex, j: MonthIndex)
    requires i != j
    ensures Months[i] != Months[j]
  {
    assert |Months[i]| != |Months[j]| || Months[i][0] != Months[j][0] || Months[i][1] != Months[j][1]
        || Months[i][2] != Months[j][2];
  }

  lemma {:induction false} FindMonthOfName(m: MonthIndex, i: nat)
    requires i <= m
    ensures FindMonth(Months[m], i) == Some(m)
    decreases m - i
  {
    if i < m {
      MonthNamesDistinct(i, m);
      FindMonthOfName(m, i + 1);
    }
  }

  lemma {:induction false} TrailingDigitsAfter(p: string, ds: string)
    requires AllDigits(ds)
    requires p != [] && !IsDigit(p[|p| - 1])
    ensures TrailingDigits(p + ds) == |ds|
    decreases |ds|
  {
    if ds == [] {
      assert p + ds == p;
    } else {
      var ds' := ds[..|ds| - 1];
      assert (p + ds)[..|p + ds| - 1] == p + ds';
      TrailingDigitsAfter(p, ds');
    }
  }

  lemma ParseDateRoundTrip(date: CalendarDate)
    ensures ParseDate(DateText(date)) == Some(date)
  {
    var ds := DecimalString(date.day);
    var name := Months[date.month];
    var text := name + " at " + ds;
    assert text == (name + " at ") + ds;
    TrailingDigitsAfter(name + " at ", ds);
    assert text[..|text| - |ds| - 4] == name;
    assert text[|text| - |ds| - 4..|text| - |ds|] == " at ";
    assert text[|text| - |ds|..] == ds;
    FindMonthOfName(date.month, 0);
    ParseDecimalString(date.day);
  }

  lemma ParseTitleRoundTrip(k: Kind)
    ensures |Title(k)| == 7 && ParseTitle(Title(k)) == Some(k)
  {
  }

  lemma ParseJoined(title: string, text: string)
    requires |title| == 7
    ensures var s := title + " on " + text;
      s[..7] == title && s[7..11] == " on " && s[11..] == text
  {
  }

  lemma ParseDateExact(text: string, date: CalendarDate)
    requires ParseDate(text) == Some(date)
    ensures text == DateText(date)
  {
    var n := TrailingDigits(text);
    var name := text[..|text| - n - 4];
    var digits := text[|text| - n..];
    assert Months[date.month] == name;
    CanonicalNumeral(digits);
    assert text == name + text[|text| - n - 4..|text| - n] + digits;
  }

  lemma ParseTitleExact(t: string, k: Kind)
    requires ParseTitle(t) == Some(k)
    ensures t == Title(k)
  {
  }

  /**
   * Only the exact description text parses: a string that reads as a type
   * and a date is the description of that type and date.
   */
  lemma ParseDescriptionExact(s: string, k: Kind, date: CalendarDate)
    requires ParseDescription(s) == Some((k, date))
    ensures s == Description(k, date)
  {
    ParseTitleExact(s[..7], k);
    ParseDateExact(s[11..], date);
    assert s == s[..7] + s[7..11] + s[11..];
  }

  /** A run on the 5th of January. */
  lemma DescriptionExample()
    ensures Description(Running, CalendarDate(0, 5)) == "Running on January at 5"
  {
  }

  // ---------------------------------------------------------------------
  // The id.

  /** The id is the last ten digits of the timestamp's numeral, zeros kept, or all of a shorter one. */
  lemma IdShape(now: nat)
    ensures |WorkoutId(now)| == if |DecimalString(now)| < 10 then |DecimalString(now)| else 10
    ensures WorkoutId(now) == DecimalString(now)[|DecimalString(now)| - |WorkoutId(now)|..]
    ensures now >= Pow10(9) ==> |WorkoutId(now)| == 10
    ensures now < Pow10(10) <==> WorkoutId(now) == DecimalString(now)
  {
    var s := DecimalString(now);
    DigitCount(now, 10);
    DigitCount(now, 9);
    assert WorkoutId(now) == DecimalString(now) <==> |s| <= 10;
  }

  /** A numeral has at most `k` (at least one) digits exactly when the number is below 10^k. */
  lemma DigitCount(n: nat, k: nat)
    requires k >= 1
    ensures |DecimalString(n)| <= k <==> n < Pow10(k)
  {
    var len := |DecimalString(n)|;
    DecimalStringLength(n);
    if len <= k {
      PowMonotone(len, k);
    } else {
      PowMonotone(k, len - 1);
    }
  }

  lemma {:induction false} PowMonotone(i: nat, j: nat)
    requires i <= j
    ensures Pow10(i) <= Pow10(j)
    decreases j
  {
    if i < j {
      PowMonotone(i, j - 1);
    }
  }

  /** The last `k` characters of a numeral read as the number modulo 10^k. */
  lemma LastDigitsValue(n: nat, k: nat)
    requires k >= 1
    ensures ParseDecimal(SliceLast(DecimalString(n), k)) == n % Pow10(k)
  {
    var s := DecimalString(n);
    ParseDecimalString(n);
    DigitCount(n, k);
    var p := Pow10(k);
    if |s| >= k {
      assert SliceLast(s, k) == s[|s| - k..];
      SuffixValue(s, k);
    } else {
      assert SliceLast(s, k) == s;
      ModUnique(n, p, 0, n);
    }
  }

  /** Two timestamps less than 10^10 ms apart (about 115 days) get different ids. */
  lemma IdsDistinct(t1: nat, t2: nat)
    requires t1 < t2 < t1 + Pow10(10)
    ensures WorkoutId(t1) != WorkoutId(t2)
  {
    if t1 % Pow10(10) == t2 % Pow10(10) {
      SameRemainderApart(t1, t2, Pow10(10));
    }
  }

  lemma SameRemainderApart(a: nat, b: nat, m: nat)
    requires m > 0 && a < b && a % m == b % m
    ensures b - a >= m
  {
    var d := b / m - a / m;
    assert a == (a / m) * m + a % m && b == (b / m) * m + b % m;
    assert b - a == d * m by {
      assert d * m == (b / m) * m - (a / m) * m;
    }
    if d <= 0 {
      MulNonPositive(d, m);
    }
    MulAtLeast(d, m);
  }

  lemma MulNonPositive(d: int, m: nat)
    requires d <= 0
    ensures d * m <= 0
  {
  }
}

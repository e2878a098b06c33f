/**
 * The app's value types (events, class types, categories, custom times, the
 * attributes of a live activity) and the small helpers defined on them:
 * the Monday of a week, "happening now", and the duration and time-left texts.
 */
module Models {
  import opened Wrappers
  import opened Text
  import opened Calendar

  // ---------------------------------------------------------------------------
  // Enumerations
  // ---------------------------------------------------------------------------

  /** The kind of a feed class. */
  datatype ClassType = Wyklad | Lab | Proj | Lek | LabK | Unknown {

    /** The raw value the enum is stored and compared under. */
    function Raw(): string {
      match this
      case Wyklad => "W"
      case Lab => "L"
      case Proj => "P"
      case Lek => "Lek"
      case LabK => "Lk"
      case Unknown => "Inne"
    }

    /** The name shown to the user. */
    function FullName(): string {
      match this
      case Wyklad => "Wykład"
      case Lab => "Laboratorium"
      case Proj => "Projekt"
      case Lek => "Lektorat"
      case LabK => "Lab. Komputerowe"
      case Unknown => "Inne"
    }

    /** The SF Symbol drawn for the type on an event card. */
    function Icon(): string {
      match this
      case Wyklad => "book.fill"
      case Lab => "flask.fill"
      case Proj => "hammer.fill"
      case Lek => "bubble.left.and.bubble.right.fill"
      case LabK => "desktopcomputer"
      case Unknown => "calendar"
    }
  }

  /** `ClassType(rawValue:)`, as used when events are decoded. */
  function ClassTypeFromRaw(s: string): (r: Option<ClassType>)
    ensures r.Some? ==> r.value.Raw() == s
  {
    if s == "W" then Some(Wyklad)
    else if s == "L" then Some(Lab)
    else if s == "P" then Some(Proj)
    else if s == "Lek" then Some(Lek)
    else if s == "Lk" then Some(LabK)
    else if s == "Inne" then Some(Unknown)
    else None
  }

  /**
   * The raw codes are pairwise distinct: decoding a code gives back its case.
   * The full names are non-empty and pairwise distinct too.
   */
  lemma ClassTypeRawRoundTrip(t: ClassType)
    ensures ClassTypeFromRaw(t.Raw()) == Some(t)
    ensures forall u: ClassType :: u.Raw() == t.Raw() ==> u == t
    ensures |t.FullName()| > 0 && forall u: ClassType :: u.FullName() == t.FullName() ==> u == t
  {
  }

  /** The category of a user-created event. */
  datatype EventCategory = Exam | Project | Homework | Other {
    function Raw(): string {
      match this
      case Exam => "Kolokwium"
      case Project => "Projekt"
      case Homework => "Zadanie"
      case Other => "Inne"
    }
  }

  // ---------------------------------------------------------------------------
  // Records
  // ---------------------------------------------------------------------------

  /**
   * One schedulable event. Feed events carry a class type and a group, user
   * events a category; `date` is the calendar day the event belongs to.
   */
  datatype AppEvent = AppEvent(
    id: string,
    title: string,
    lecturer: string,
    room: string,
    date: int,
    startTime: int,
    endTime: int,
    category: Option<EventCategory>,
    classType: Option<ClassType>,
    group: Option<string>,
    isUserCreated: bool,
    customCategory: Option<string>)

  /** A replacement time window for one event id. */
  datatype CustomTimeInfo = CustomTimeInfo(startTime: int, endTime: int)

  /** What a live activity records about the class it shows. */
  datatype LiveClassAttributes = LiveClassAttributes(
    className: string, room: string, startTime: int, endTime: int, typeName: string)

  /** The kind of a grade. */
  datatype GradeType = Kolokwium | Egzamin | Wejsciowka | Projekt | Inna {

    /** The raw value the enum is stored under. */
    function Raw(): string {
      match this
      case Kolokwium => "Kolokwium"
      case Egzamin => "Egzamin"
      case Wejsciowka => "Wejściówka"
      case Projekt => "Projekt"
      case Inna => "Inne"
    }
  }

  /**
   * A grade. The app stores grades and hands them back unchanged; the value
   * (a `Double` in the app) is kept as its text.
   */
  datatype GradeEntry = GradeEntry(value: string, kind: GradeType, date: int, customName: Option<string>)

  /** One recorded absence. */
  datatype AbsenceRecord = AbsenceRecord(date: int, note: string)

  /** A closed semester: a snapshot of grades, absences and syllabuses. */
  datatype SemesterArchive = SemesterArchive(
    name: string, date: int,
    grades: map<string, seq<GradeEntry>>,
    absences: map<string, map<string, seq<AbsenceRecord>>>,
    syllabuses: map<string, map<string, string>>,
    average: string)

  // ---------------------------------------------------------------------------
  // Date.getMonday
  // ---------------------------------------------------------------------------

  /** How many days back the Monday of `t`'s week is (Sunday counts as the week's last day). */
  function DaysToMonday(t: int): int {
    var weekday := Weekday(t);
    if weekday == 1 then 6 else weekday - 2
  }

  /** `t.getMonday()`: the same clock time on the Monday of `t`'s week. */
  function GetMonday(t: int): int {
    AddDays(t, -DaysToMonday(t))
  }

  /**
   * The shift is 0..6 days, lands on a Monday at the same time of day, and a
   * Monday is its own Monday.
   */
  lemma GetMondayIsMonday(t: int)
    ensures 0 <= DaysToMonday(t) <= 6
    ensures DayOf(GetMonday(t)) == DayOf(t) - DaysToMonday(t)
    ensures Weekday(GetMonday(t)) == 2
    ensures GetMonday(t) % SecondsPerDay == t % SecondsPerDay
    ensures GetMonday(GetMonday(t)) == GetMonday(t)
  {
    var m := GetMonday(t);
    AddDaysShiftsDay(t, -DaysToMonday(t));
    var d := DayOf(t);
    assert (d + 4) % 7 == Weekday(t) - 1;
    assert (d - DaysToMonday(t) + 4) % 7 == 1 by {
      if Weekday(t) == 1 {
        assert d - 6 + 4 == (d + 4) - 7 * 1 + 1;
      } else {
        assert d - (Weekday(t) - 2) + 4 == (d + 4) - (Weekday(t) - 1) + 1;
      }
    }
    assert DaysToMonday(m) == 0;
  }

  // ---------------------------------------------------------------------------
  // Integer division as Swift does it
  // ---------------------------------------------------------------------------

  /** Swift's `a / b` on `Int`: the quotient truncated toward zero. */
  function Quot(a: int, b: int): (q: int)
    requires b > 0
    ensures a >= 0 ==> 0 <= a - q * b < b
    ensures a < 0 ==> -b < a - q * b <= 0
  {
    if a >= 0 then a / b else -((-a) / b)
  }

  /** Swift's `a % b` on `Int`: the remainder takes the sign of `a`. */
  function Rem(a: int, b: int): (r: int)
    requires b > 0
    ensures r == a - Quot(a, b) * b
    ensures -b < r < b
    ensures a >= 0 ==> r >= 0
    ensures a <= 0 ==> r <= 0
  {
    a - Quot(a, b) * b
  }

  // ---------------------------------------------------------------------------
  // AppEvent helpers
  // ---------------------------------------------------------------------------

  /** `isHappeningNow(at:)`. */
  predicate IsHappeningNow(e: AppEvent, t: int) {
    e.startTime <= t <= e.endTime
  }

  /** Both ends of the window count as "now"; a second outside them does not. */
  lemma HappeningNowInclusive(e: AppEvent, t: int)
    requires e.startTime <= e.endTime
    ensures IsHappeningNow(e, e.startTime) && IsHappeningNow(e, e.endTime)
    ensures !IsHappeningNow(e, e.startTime - 1) && !IsHappeningNow(e, e.endTime + 1)
    ensures IsHappeningNow(e, t) <==> !(t < e.startTime || e.endTime < t)
  {
  }

  /** `durationMinutes`: whole minutes between start and end, truncated toward zero. */
  function DurationMinutes(e: AppEvent): (r: int)
    ensures e.endTime >= e.startTime ==>
      r >= 0 && r * 60 <= e.endTime - e.startTime < r * 60 + 60
    ensures e.endTime < e.startTime ==>
      r <= 0 && r * 60 - 60 < e.endTime - e.startTime <= r * 60
  {
    Quot(e.endTime - e.startTime, 60)
  }

  /** The text `durationString` builds from a minute count. */
  function DurationText(minutes: int): string {
    var h := Quot(minutes, 60);
    var m := Rem(minutes, 60);
    if h > 0 && m > 0 then IntString(h) + "h " + IntString(m) + "m"
    else if h > 0 then IntString(h) + "h"
    else IntString(m) + "m"
  }

  /** `durationString`. */
  function DurationString(e: AppEvent): string {
    DurationText(DurationMinutes(e))
  }

  /** Reads the "{m}m" that closes a "{h}h {m}m" text. */
  function ParseMinutesTail(t: string): Option<int> {
    var k := LeadingDigits(t);
    if k > 0 && t[k..] == "m" then Some(DigitsValue(t[..k])) else None
  }

  /** Reads "{h}h {m}m" once the hours `a` are read and `rest` follows them. */
  function ParseAfterHours(a: int, rest: string): Option<int> {
    if |rest| >= 2 && rest[..2] == "h " then
      match ParseMinutesTail(rest[2..])
      case Some(b) => Some(a * 60 + b)
      case None => None
    else None
  }

  /** Reads a duration text ("{h}h {m}m", "{h}h" or "{m}m") back as minutes. */
  function ParseDuration(s: string): Option<int> {
    var k := LeadingDigits(s);
    if k == 0 then None
    else
      var a := DigitsValue(s[..k]);
      var rest := s[k..];
      if rest == "m" then Some(a)
      else if rest == "h" then Some(a * 60)
      else ParseAfterHours(a, rest)
  }

  /** "{m}m" reads back as m. */
  lemma MinutesTailReadBack(m: nat)
    ensures ParseMinutesTail(NatString(m) + "m") == Some(m)
  {
    ReadBack(m, "m");
  }

  /** "h {m}m" after the hours `a` reads back as a hours and m minutes. */
  lemma AfterHoursReadBack(a: int, m: nat)
    ensures ParseAfterHours(a, "h " + (NatString(m) + "m")) == Some(a * 60 + m)
  {
    var tail := NatString(m) + "m";
    assert ("h " + tail)[..2] == "h " && ("h " + tail)[2..] == tail;
    MinutesTailReadBack(m);
  }

  /** A minute count rendered and read back, read with the `NatString` round trip. */
  lemma ReadBack(n: nat, t: string)
    requires t == [] || !IsDigit(t[0])
    ensures var s := NatString(n) + t;
      LeadingDigits(s) == |NatString(n)| > 0 &&
      DigitsValue(s[..LeadingDigits(s)]) == n && s[LeadingDigits(s)..] == t
  {
    LeadingDigitsOfNat(n, t);
    NatStringRoundTrip(n);
  }

  /**
   * For a non-negative duration the text determines the minute count: reading
   * it back gives the count again.
   */
  lemma DurationTextRoundTrip(minutes: int)
    requires minutes >= 0
    ensures ParseDuration(DurationText(minutes)) == Some(minutes)
  {
    var h := Quot(minutes, 60);
    var m := Rem(minutes, 60);
    assert minutes == h * 60 + m;
    var s := DurationText(minutes);
    if h > 0 && m > 0 {
      var tail := NatString(m) + "m";
      assert s == NatString(h) + ("h " + tail);
      ReadBack(h, "h " + tail);
      assert ("h " + tail) != "m" && ("h " + tail) != "h";
      AfterHoursReadBack(h, m);
    } else if h > 0 {
      assert s == NatString(h) + "h";
      ReadBack(h, "h");
    } else {
      assert s == NatString(m) + "m";
      ReadBack(m, "m");
    }
  }

  /** For negative durations the hours are lost: -65 and -5 minutes read the same. */
  lemma NegativeDurationLosesHours()
    ensures DurationText(-65) == DurationText(-5) == "-5m"
  {
    assert Quot(-65, 60) == -1 && Rem(-65, 60) == -5;
    assert Quot(-5, 60) == 0 && Rem(-5, 60) == -5;
    assert NatString(5) == "5";
  }

  /** The text `timeLeftString` builds from the whole minutes remaining. */
  function TimeLeftText(diff: int): string {
    if diff <= 0 then "Koniec"
    else
      var h := diff / 60;
      var m := diff % 60;
      if h > 0 then "Koniec za " + IntString(h) + "h " + IntString(m) + "m"
      else "Koniec za " + IntString(m) + " min"
  }

  /** `timeLeftString(at:)`. */
  function TimeLeftString(e: AppEvent, now: int): string {
    TimeLeftText(Quot(e.endTime - now, 60))
  }

  /** Reads what follows "Koniec za ": "{m} min" or "{h}h {m}m". */
  function ParseTimeLeftBody(body: string): Option<int> {
    var k := LeadingDigits(body);
    if k == 0 then None
    else
      var a := DigitsValue(body[..k]);
      var rest := body[k..];
      if rest == " min" then Some(a) else ParseAfterHours(a, rest)
  }

  /** Reads a time-left text back as whole minutes remaining ("Koniec" is 0). */
  function ParseTimeLeft(s: string): Option<int> {
    var prefix := "Koniec za ";
    if s == "Koniec" then Some(0)
    else if !StartsWith(s, prefix) then None
    else ParseTimeLeftBody(s[|prefix|..])
  }

  /** A text that starts with "Koniec za " is read by its body. */
  lemma TimeLeftPrefix(body: string)
    ensures ParseTimeLeft("Koniec za " + body) == ParseTimeLeftBody(body)
  {
    var s := "Koniec za " + body;
    assert s[..10] == "Koniec za ";
    assert s[10..] == body;
    assert s != "Koniec" by { assert |s| >= 10; }
  }

  /** "{h}h {m}m" reads back as h hours and m minutes. */
  lemma TimeLeftHoursReadBack(h: nat, m: nat)
    ensures ParseTimeLeftBody(NatString(h) + ("h " + (NatString(m) + "m"))) == Some(h * 60 + m)
  {
    var rest := "h " + (NatString(m) + "m");
    ReadBack(h, rest);
    assert rest != " min" by { assert rest[0] != " min"[0]; }
    AfterHoursReadBack(h, m);
  }

  /** "{m} min" reads back as m. */
  lemma TimeLeftMinutesReadBack(m: nat)
    ensures ParseTimeLeftBody(NatString(m) + " min") == Some(m)
  {
    ReadBack(m, " min");
  }

  /** An hour or more left reads back exactly, and is not "Koniec". */
  lemma TimeLeftWithHours(diff: int)
    requires diff >= 60
    ensures TimeLeftText(diff) != "Koniec" && ParseTimeLeft(TimeLeftText(diff)) == Some(diff)
  {
    var h, m := diff / 60, diff % 60;
    assert h * 60 + m == diff && h >= 1 && m >= 0;
    var body := NatString(h) + ("h " + (NatString(m) + "m"));
    assert TimeLeftText(diff) == "Koniec za " + body;
    TimeLeftPrefix(body);
    TimeLeftHoursReadBack(h, m);
  }

  /** Less than an hour left reads back exactly, and is not "Koniec". */
  lemma TimeLeftUnderHour(diff: int)
    requires 0 < diff < 60
    ensures TimeLeftText(diff) != "Koniec" && ParseTimeLeft(TimeLeftText(diff)) == Some(diff)
  {
    var body := NatString(diff) + " min";
    assert TimeLeftText(diff) == "Koniec za " + body;
    TimeLeftPrefix(body);
    TimeLeftMinutesReadBack(diff);
  }

  /** A positive minute count is encoded exactly; a non-positive one reads as "Koniec". */
  lemma TimeLeftTextRoundTrip(diff: int)
    ensures TimeLeftText(diff) == "Koniec" <==> diff <= 0
    ensures ParseTimeLeft(TimeLeftText(diff)) == Some(if diff <= 0 then 0 else diff)
  {
    if diff >= 60 {
      TimeLeftWithHours(diff);
    } else if diff > 0 {
      TimeLeftUnderHour(diff);
    }
  }

  /**
   * The text says "Koniec" exactly when less than a whole minute is left, and
   * otherwise encodes exactly the whole minutes remaining.
   */
  lemma TimeLeftRoundTrip(e: AppEvent, now: int)
    ensures TimeLeftString(e, now) == "Koniec" <==> e.endTime - now < 60
    ensures ParseTimeLeft(TimeLeftString(e, now)) ==
      Some(if e.endTime - now < 60 then 0 else (e.endTime - now) / 60)
  {
    var d := e.endTime - now;
    QuotMinutes(d);
    ClampedTimeLeft(TimeLeftString(e, now), Quot(d, 60), d);
  }

  /** The time-left text of a truncated minute count, read against the seconds it came from. */
  lemma ClampedTimeLeft(s: string, diff: int, d: int)
    requires s == TimeLeftText(diff)
    requires diff <= 0 <==> d < 60
    requires (if diff <= 0 then 0 else diff) == (if d < 60 then 0 else d / 60)
    ensures s == "Koniec" <==> d < 60
    ensures ParseTimeLeft(s) == Some(if d < 60 then 0 else d / 60)
  {
    TimeLeftTextRoundTrip(diff);
  }

  /** Swift's truncated minute count agrees with the clamped Euclidean one. */
  lemma QuotMinutes(d: int)
    ensures Quot(d, 60) <= 0 <==> d < 60
    ensures d >= 0 ==> Quot(d, 60) == d / 60
    ensures (if Quot(d, 60) <= 0 then 0 else Quot(d, 60)) == (if d < 60 then 0 else d / 60)
  {
  }
}

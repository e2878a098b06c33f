/**
 * The calendar-feed scanner: a line-by-line reading of the subset of iCalendar
 * (RFC 5545) the bundled feed uses. BEGIN:VEVENT / END:VEVENT (section 3.6.1)
 * delimit an event; SUMMARY (section 3.8.1.12), DTSTART (section 3.8.2.4) and
 * DTEND (section 3.8.2.2) are recognised only without parameters; content
 * lines are not unfolded (section 3.1). The summary holds comma-separated
 * fields written with the escaped comma `\,` (section 3.3.11): name, group,
 * lecturer and, among the rest, a room.
 *
 * The date parser (`yyyyMMdd'T'HHmmss` in the local zone) is a parameter: a
 * partial function from text to seconds.
 */
module Ics {
  import opened Wrappers
  import opened Text
  import opened Models

  /** The escaped comma that separates summary fields. */
  const FieldSeparator: string := "\\,"

  /** Room names the feed writes without the "s." prefix. */
  const BareRoomNames: seq<string> := ["A1", "A2", "A3", "A4", "201", "202", "06", "19", "10", "101B"]

  const NoRoom: string := "Brak sali"
  const NoLecturer: string := "Nieznany"

  // ---------------------------------------------------------------------------
  // Summary fields
  // ---------------------------------------------------------------------------

  /** A trimmed summary field names a room. */
  predicate IsRoomField(p: string) {
    StartsWith(p, "s.") || p in BareRoomNames
  }

  /** The room written in a room field: every "s." removed, then trimmed. */
  function CleanRoom(p: string): string {
    Trim(RemoveAll(p, "s."), Whitespaces)
  }

  /** Field `j` of `parts`, trimmed of blanks, names a room. */
  predicate RoomFieldAt(parts: seq<string>, j: int)
    requires 0 <= j < |parts|
  {
    IsRoomField(Trim(parts[j], Whitespaces))
  }

  /** The room of a summary: the last room field wins, "Brak sali" when there is none. */
  function RoomOf(parts: seq<string>): string {
    if |parts| == 0 then NoRoom
    else
      var p := Trim(parts[|parts| - 1], Whitespaces);
      if IsRoomField(p) then CleanRoom(p) else RoomOf(parts[..|parts| - 1])
  }

  /** The index of the last room field, if any. */
  function LastRoomField(parts: seq<string>): (r: Option<nat>)
    ensures r.Some? ==> r.value < |parts| && RoomFieldAt(parts, r.value)
  {
    if |parts| == 0 then None
    else if RoomFieldAt(parts, |parts| - 1) then Some(|parts| - 1)
    else LastRoomField(parts[..|parts| - 1])
  }

  /** Dropping the last field leaves the room-field test of the others unchanged. */
  lemma RoomFieldAtPrefix(parts: seq<string>, n: nat, j: int)
    requires 0 <= j < n <= |parts|
    ensures RoomFieldAt(parts[..n], j) == RoomFieldAt(parts, j)
  {
    assert parts[..n][j] == parts[j];
  }

  /** When `LastRoomField` finds nothing, no field is a room field. */
  lemma {:induction false} NoRoomFieldAtAll(parts: seq<string>)
    requires LastRoomField(parts).None?
    ensures forall j :: 0 <= j < |parts| ==> !RoomFieldAt(parts, j)
  {
    if |parts| > 0 {
      var n := |parts| - 1;
      NoRoomFieldAtAll(parts[..n]);
      forall j | 0 <= j < n ensures !RoomFieldAt(parts, j) {
        RoomFieldAtPrefix(parts, n, j);
      }
    }
  }

  /** No room field follows the one `LastRoomField` finds. */
  lemma {:induction false} NoRoomFieldAfterLast(parts: seq<string>)
    requires LastRoomField(parts).Some?
    ensures forall j :: LastRoomField(parts).value < j < |parts| ==> !RoomFieldAt(parts, j)
  {
    var n := |parts| - 1;
    if !RoomFieldAt(parts, n) {
      NoRoomFieldAfterLast(parts[..n]);
      forall j | LastRoomField(parts).value < j < n ensures !RoomFieldAt(parts, j) {
        RoomFieldAtPrefix(parts, n, j);
      }
    }
  }

  /** The room is the last room field cleaned, or "Brak sali" without one. */
  lemma {:induction false} RoomOfIsLastRoomField(parts: seq<string>)
    ensures RoomOf(parts) == match LastRoomField(parts)
      case None => NoRoom
      case Some(k) => CleanRoom(Trim(parts[k], Whitespaces))
  {
    if |parts| > 0 && !RoomFieldAt(parts, |parts| - 1) {
      var n := |parts| - 1;
      RoomOfIsLastRoomField(parts[..n]);
      match LastRoomField(parts[..n]) {
        case None =>
        case Some(k) => assert parts[..n][k] == parts[k];
      }
    }
  }

  /**
   * The class type read from the group field: exactly "W" is a lecture, then
   * the prefixes Lek, Lk, L and P are tried in that order.
   */
  function ClassifyGroup(g: string): ClassType {
    if g == "W" then Wyklad
    else if StartsWith(g, "Lek") then Lek
    else if StartsWith(g, "Lk") then LabK
    else if StartsWith(g, "L") then Lab
    else if StartsWith(g, "P") then Proj
    else Unknown
  }

  /**
   * Every class type's own raw code is classified as that type, only "W" is a
   * lecture, and any other recognised group starts with its type's raw code.
   */
  lemma ClassifyGroupSpec(g: string, t: ClassType)
    ensures ClassifyGroup(t.Raw()) == t
    ensures ClassifyGroup(g) == Wyklad <==> g == "W"
    ensures ClassifyGroup(g) != Unknown && ClassifyGroup(g) != Wyklad ==>
      StartsWith(g, ClassifyGroup(g).Raw())
    ensures ClassifyGroup(g) == Unknown ==>
      g != "W" && !StartsWith(g, "L") && !StartsWith(g, "P")
  {
    if StartsWith(g, "Lek") || StartsWith(g, "Lk") {
      assert g[..1] == g[..2][..1];
      assert StartsWith(g, "L");
    }
    match t
    case Wyklad =>
    case Lab =>
      assert !StartsWith("L", "Lek") && !StartsWith("L", "Lk");
    case Proj =>
      assert "P"[0] != "L"[0];
      assert !StartsWith("P", "Lek") && !StartsWith("P", "Lk") && !StartsWith("P", "L");
    case Lek =>
      assert StartsWith("Lek", "Lek");
    case LabK =>
      assert !StartsWith("Lk", "Lek") && StartsWith("Lk", "Lk");
    case Unknown =>
      assert "Inne"[0] == 'I';
      assert !StartsWith("Inne", "Lek") && !StartsWith("Inne", "Lk");
      assert !StartsWith("Inne", "L") && !StartsWith("Inne", "P");
  }

  /**
   * The id of a feed event: the name with its spaces removed, "_", and the
   * start instant as Swift prints a `Double` number of seconds ("<n>.0").
   */
  function EventId(name: string, start: int): string {
    RemoveAll(name, " ") + "_" + IntString(start) + ".0"
  }

  /** For one name, different start instants give different ids. */
  lemma EventIdInjectiveInStart(name: string, a: int, b: int)
    requires EventId(name, a) == EventId(name, b)
    ensures a == b
  {
    var p := RemoveAll(name, " ") + "_";
    var x := IntString(a);
    var y := IntString(b);
    assert p + x + ".0" == p + y + ".0";
    assert |x| == |y|;
    assert x == (p + x + ".0")[|p|..|p| + |x|];
    assert y == (p + y + ".0")[|p|..|p| + |y|];
    IntStringInjective(a, b);
  }

  /** Names that differ only in spaces share ids ("Bazy danych" and "Bazydanych"). */
  lemma SpacesDoNotReachTheId(a: string, b: string, start: int)
    ensures EventId(a + " " + b, start) == EventId(a + b, start)
  {
    RemoveCharAppend(a, " " + b, ' ');
    RemoveCharAppend(" ", b, ' ');
    RemoveCharAppend(a, b, ' ');
    assert " " + b == [' '] + b;
    assert a + " " + b == a + (" " + b);
    assert RemoveAll(" ", " ") == "";
  }

  // ---------------------------------------------------------------------------
  // One VEVENT
  // ---------------------------------------------------------------------------

  /** The shape every event read from the feed has. */
  predicate IsFeedEvent(e: AppEvent) {
    && e.group.Some?
    && e.classType == Some(ClassifyGroup(e.group.value))
    && e.id == EventId(e.title, e.startTime)
    && e.date == e.startTime
    && !e.isUserCreated
    && e.category.None?
    && e.customCategory.None?
  }

  /**
   * The event a completed block produces: nothing unless both dates parse and
   * the summary has at least two fields.
   */
  function BuildEvent(summary: string, dtStart: string, dtEnd: string,
                      parseDate: string -> Option<int>): (r: Option<AppEvent>)
    ensures r.Some? <==>
      parseDate(dtStart).Some? && parseDate(dtEnd).Some? && |Split(summary, FieldSeparator)| >= 2
    ensures r.Some? ==> IsFeedEvent(r.value)
    ensures r.Some? ==>
      var parts := Split(summary, FieldSeparator);
      && r.value.title == Trim(parts[0], Whitespaces)
      && r.value.group == Some(Trim(parts[1], Whitespaces))
      && r.value.lecturer == (if |parts| > 2 then Trim(parts[2], Whitespaces) else NoLecturer)
      && r.value.room == RoomOf(parts)
      && r.value.startTime == parseDate(dtStart).value
      && r.value.endTime == parseDate(dtEnd).value
  {
    var start := parseDate(dtStart);
    var end := parseDate(dtEnd);
    if start.None? || end.None? then None
    else
      var parts := Split(summary, FieldSeparator);
      if |parts| < 2 then None
      else
        var name := Trim(parts[0], Whitespaces);
        var groupRaw := Trim(parts[1], Whitespaces);
        var lecturer := if |parts| > 2 then Trim(parts[2], Whitespaces) else NoLecturer;
        Some(AppEvent(EventId(name, start.value), name, lecturer, RoomOf(parts),
                      start.value, start.value, end.value, None,
                      Some(ClassifyGroup(groupRaw)), Some(groupRaw), false, None))
  }

  /** Two groups of one subject starting together get the same id. */
  lemma GroupsShareIds(name: string, g1: string, g2: string, a: string, b: string,
                       parseDate: string -> Option<int>)
    requires parseDate(a).Some? && parseDate(b).Some?
    ensures var e1 := BuildEvent(name + FieldSeparator + g1, a, b, parseDate);
            var e2 := BuildEvent(name + FieldSeparator + g2, a, b, parseDate);
            e1.Some? && e2.Some? && e1.value.title == e2.value.title ==> e1.value.id == e2.value.id
  {
  }

  // ---------------------------------------------------------------------------
  // The scan
  // ---------------------------------------------------------------------------

  /** What the scanner remembers between lines. */
  datatype ScanState = ScanState(
    insideEvent: bool, summary: string, dtStart: string, dtEnd: string, events: seq<AppEvent>)

  const Start: ScanState := ScanState(false, "", "", "", [])

  function OptionToSeq(o: Option<AppEvent>): seq<AppEvent> {
    if o.Some? then [o.value] else []
  }

  /** One line of the feed. */
  function Step(st: ScanState, line: string, parseDate: string -> Option<int>): ScanState {
    var clean := Trim(line, WhitespacesAndNewlines);
    if clean == "BEGIN:VEVENT" then
      st.(insideEvent := true, summary := "", dtStart := "", dtEnd := "")
    else if clean == "END:VEVENT" then
      st.(insideEvent := false,
          events := st.events + OptionToSeq(BuildEvent(st.summary, st.dtStart, st.dtEnd, parseDate)))
    else if st.insideEvent then
      if StartsWith(clean, "SUMMARY:") then st.(summary := clean[8..])
      else if StartsWith(clean, "DTSTART:") then st.(dtStart := clean[8..])
      else if StartsWith(clean, "DTEND:") then st.(dtEnd := clean[6..])
      else st
    else st
  }

  /** The state after scanning all of `lines`. */
  function Scan(lines: seq<string>, parseDate: string -> Option<int>): ScanState {
    if |lines| == 0 then Start
    else Step(Scan(lines[..|lines| - 1], parseDate), lines[|lines| - 1], parseDate)
  }

  /**
   * The END:VEVENT branch of `parseICS`: parse both dates, split the summary,
   * and scan its fields for the room.
   */
  method EmitEvent(summary: string, dtStart: string, dtEnd: string,
                   parseDate: string -> Option<int>) returns (built: Option<AppEvent>)
    ensures built == BuildEvent(summary, dtStart, dtEnd, parseDate)
  {
    built := None;
    var start := parseDate(dtStart);
    var end := parseDate(dtEnd);
    if start.Some? && end.Some? {
      var parts := Split(summary, FieldSeparator);
      if |parts| >= 2 {
        var name := Trim(parts[0], Whitespaces);
        var groupRaw := Trim(parts[1], Whitespaces);
        var lecturer := NoLecturer;
        if |parts| > 2 {
          lecturer := Trim(parts[2], Whitespaces);
        }
        var room := NoRoom;
        for j := 0 to |parts|
          invariant room == RoomOf(parts[..j])
        {
          assert parts[..j + 1][..j] == parts[..j];
          var p := Trim(parts[j], Whitespaces);
          if IsRoomField(p) {
            room := CleanRoom(p);
          }
        }
        assert parts[..|parts|] == parts;
        var classType := Unknown;
        if groupRaw == "W" {
          classType := Wyklad;
        } else if StartsWith(groupRaw, "Lek") {
          classType := Lek;
        } else if StartsWith(groupRaw, "Lk") {
          classType := LabK;
        } else if StartsWith(groupRaw, "L") {
          classType := Lab;
        } else if StartsWith(groupRaw, "P") {
          classType := Proj;
        }
        var uniqueId := RemoveAll(name, " ") + "_" + IntString(start.value) + ".0";
        built := Some(AppEvent(uniqueId, name, lecturer, room, start.value, start.value,
                               end.value, None, Some(classType), Some(groupRaw), false, None));
      }
    }
  }

  /**
   * `parseICS`, from the point the file has been split into lines: the events
   * of every END:VEVENT whose block had parsable dates and a two-field summary.
   */
  method ParseIcs(lines: seq<string>, parseDate: string -> Option<int>) returns (events: seq<AppEvent>)
    ensures events == Scan(lines, parseDate).events
  {
    events := [];
    var currentSummary, currentDtStart, currentDtEnd := "", "", "";
    var insideEvent := false;
    for i := 0 to |lines|
      invariant ScanState(insideEvent, currentSummary, currentDtStart, currentDtEnd, events)
                == Scan(lines[..i], parseDate)
    {
      assert lines[..i + 1][..i] == lines[..i];
      var clean := Trim(lines[i], WhitespacesAndNewlines);
      if clean == "BEGIN:VEVENT" {
        insideEvent := true;
        currentSummary, currentDtStart, currentDtEnd := "", "", "";
      } else if clean == "END:VEVENT" {
        insideEvent := false;
        var built := EmitEvent(currentSummary, currentDtStart, currentDtEnd, parseDate);
        if built.Some? {
          events := events + [built.value];
        }
      } else if insideEvent {
        if StartsWith(clean, "SUMMARY:") {
          currentSummary := clean[8..];
        } else if StartsWith(clean, "DTSTART:") {
          currentDtStart := clean[8..];
        } else if StartsWith(clean, "DTEND:") {
          currentDtEnd := clean[6..];
        }
      }
    }
    assert lines[..|lines|] == lines;
  }

  // ---------------------------------------------------------------------------
  // Properties of the scan
  // ---------------------------------------------------------------------------

  /** The number of lines that read END:VEVENT once trimmed. */
  function EndLines(lines: seq<string>): nat {
    if |lines| == 0 then 0
    else EndLines(lines[..|lines| - 1]) +
         (if Trim(lines[|lines| - 1], WhitespacesAndNewlines) == "END:VEVENT" then 1 else 0)
  }

  /**
   * Events only appear at END:VEVENT lines, at most one each, and every event
   * has the feed-event shape (id formula, class type read from the group, not
   * user-created).
   */
  lemma {:induction false} ScanEmitsAtEnds(lines: seq<string>, parseDate: string -> Option<int>)
    ensures |Scan(lines, parseDate).events| <= EndLines(lines)
    ensures forall e :: e in Scan(lines, parseDate).events ==> IsFeedEvent(e)
  {
    if |lines| > 0 {
      ScanEmitsAtEnds(lines[..|lines| - 1], parseDate);
    }
  }

  /** Scanning is incremental: the events of a prefix are a prefix of the events. */
  lemma {:induction false} ScanEventsGrow(lines: seq<string>, more: seq<string>,
                                         parseDate: string -> Option<int>)
    ensures var a := Scan(lines, parseDate).events;
            var b := Scan(lines + more, parseDate).events;
            |a| <= |b| && b[..|a|] == a
    decreases |more|
  {
    if |more| > 0 {
      var n := |more| - 1;
      assert (lines + more)[..|lines + more| - 1] == lines + more[..n];
      ScanEventsGrow(lines, more[..n], parseDate);
    } else {
      assert lines + more == lines;
    }
  }

  /** A property value that survives trimming unchanged. */
  predicate Untrimmed(v: string) {
    v == [] || (!InClass(v[0], WhitespacesAndNewlines) && !InClass(v[|v| - 1], WhitespacesAndNewlines))
  }

  /** The five lines of one well-formed VEVENT. */
  function Block(summary: string, dtStart: string, dtEnd: string): seq<string> {
    ["BEGIN:VEVENT", "SUMMARY:" + summary, "DTSTART:" + dtStart, "DTEND:" + dtEnd, "END:VEVENT"]
  }

  lemma TrimKeeps(key: string, v: string)
    requires |key| > 0 && !InClass(key[0], WhitespacesAndNewlines)
    requires !InClass(key[|key| - 1], WhitespacesAndNewlines)
    requires Untrimmed(v)
    ensures Trim(key + v, WhitespacesAndNewlines) == key + v
  {
    var s := key + v;
    assert TrimStart(s, WhitespacesAndNewlines) == s;
    assert s[|s| - 1] == if v == [] then key[|key| - 1] else v[|v| - 1];
  }

  /**
   * Scanning one more well-formed block, whatever came before it, appends
   * exactly the event built from its summary and dates.
   */
  lemma ScanBlock(prefix: seq<string>, summary: string, dtStart: string, dtEnd: string,
                  parseDate: string -> Option<int>)
    requires Untrimmed(summary) && Untrimmed(dtStart) && Untrimmed(dtEnd)
    ensures Scan(prefix + Block(summary, dtStart, dtEnd), parseDate).events ==
            Scan(prefix, parseDate).events + OptionToSeq(BuildEvent(summary, dtStart, dtEnd, parseDate))
    ensures !Scan(prefix + Block(summary, dtStart, dtEnd), parseDate).insideEvent
  {
    var p1 := prefix + ["BEGIN:VEVENT"];
    var p2 := p1 + ["SUMMARY:" + summary];
    var p3 := p2 + ["DTSTART:" + dtStart];
    var p4 := p3 + ["DTEND:" + dtEnd];
    assert p4 + ["END:VEVENT"] == prefix + Block(summary, dtStart, dtEnd);
    ScanAppend(prefix, "BEGIN:VEVENT", parseDate);
    ScanAppend(p1, "SUMMARY:" + summary, parseDate);
    ScanAppend(p2, "DTSTART:" + dtStart, parseDate);
    ScanAppend(p3, "DTEND:" + dtEnd, parseDate);
    ScanAppend(p4, "END:VEVENT", parseDate);
    var s0 := Scan(prefix, parseDate);
    BlockSteps(s0, summary, dtStart, dtEnd, parseDate);
  }

  /** Scanning one more line is one more step. */
  lemma ScanAppend(lines: seq<string>, line: string, parseDate: string -> Option<int>)
    ensures Scan(lines + [line], parseDate) == Step(Scan(lines, parseDate), line, parseDate)
  {
    assert (lines + [line])[..|lines|] == lines;
  }

  /** The five steps of one block: open, capture the three fields, emit. */
  lemma BlockSteps(s0: ScanState, summary: string, dtStart: string, dtEnd: string,
                   parseDate: string -> Option<int>)
    requires Untrimmed(summary) && Untrimmed(dtStart) && Untrimmed(dtEnd)
    ensures var s4 := s0.(insideEvent := true, summary := summary, dtStart := dtStart, dtEnd := dtEnd);
      && Step(Step(Step(Step(s0, "BEGIN:VEVENT", parseDate), "SUMMARY:" + summary, parseDate),
                   "DTSTART:" + dtStart, parseDate), "DTEND:" + dtEnd, parseDate) == s4
      && Step(s4, "END:VEVENT", parseDate) ==
           s0.(insideEvent := false, summary := summary, dtStart := dtStart, dtEnd := dtEnd,
               events := s0.events + OptionToSeq(BuildEvent(summary, dtStart, dtEnd, parseDate)))
  {
    TrimKeeps("SUMMARY:", summary);
    TrimKeeps("DTSTART:", dtStart);
    TrimKeeps("DTEND:", dtEnd);
    assert Trim("BEGIN:VEVENT", WhitespacesAndNewlines) == "BEGIN:VEVENT";
    assert Trim("END:VEVENT", WhitespacesAndNewlines) == "END:VEVENT";
    var s1 := Step(s0, "BEGIN:VEVENT", parseDate);
    assert s1 == s0.(insideEvent := true, summary := "", dtStart := "", dtEnd := "");
    var s2 := Step(s1, "SUMMARY:" + summary, parseDate);
    assert s2 == s1.(summary := summary);
    assert !StartsWith("DTSTART:" + dtStart, "SUMMARY:");
    var s3 := Step(s2, "DTSTART:" + dtStart, parseDate);
    assert s3 == s2.(dtStart := dtStart);
    assert !StartsWith("DTEND:" + dtEnd, "SUMMARY:");
    assert ("DTEND:" + dtEnd)[2] != "DTSTART:"[2];
    assert !StartsWith("DTEND:" + dtEnd, "DTSTART:");
    var s4 := Step(s3, "DTEND:" + dtEnd, parseDate);
    assert s4 == s3.(dtEnd := dtEnd);
  }

  /**
   * The captured fields are not cleared at END:VEVENT, so a second END:VEVENT
   * without a new BEGIN emits the same event again.
   */
  lemma RepeatedEndRepeatsEvent(prefix: seq<string>, parseDate: string -> Option<int>)
    ensures var st := Scan(prefix, parseDate);
            var o := OptionToSeq(BuildEvent(st.summary, st.dtStart, st.dtEnd, parseDate));
            Scan(prefix + ["END:VEVENT", "END:VEVENT"], parseDate).events == st.events + o + o
  {
    var l := prefix + ["END:VEVENT", "END:VEVENT"];
    assert Trim("END:VEVENT", WhitespacesAndNewlines) == "END:VEVENT";
    assert l[..|l| - 1] == prefix + ["END:VEVENT"];
    assert (prefix + ["END:VEVENT"])[..|prefix|] == prefix;
  }
}

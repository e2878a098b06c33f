# PlanPK in Dafny

PlanPK is an iOS class-schedule app for university students. It reads the
timetable from an iCalendar feed. It then filters that catalog by day, by the
student's own groups and by a search text. Students can mark classes as
cancelled, as exams or as important, keep notes, grades and absences, and add
events of their own. The app schedules local notifications and a live activity
for the class in progress, and it shares the upcoming classes with a
home-screen widget.

This project models the core of that app and proves properties about it:

- `calendar.dfy` (`Calendar`): instants as integer seconds, the calendar day,
  the weekday, adding days, and reading and setting the clock time of a day.
- `text.dfy` (`Text`): the Foundation string operations the app relies on.
  These are lower- and upper-casing of ASCII and Polish letters, `contains`, trimming,
  `components(separatedBy:)`, `replacingOccurrences`, integer rendering and
  string ordering.
- `models.dfy` (`Models`): the value types (`AppEvent`, `ClassType`,
  `GradeType`, `EventCategory`, `CustomTimeInfo`, `LiveClassAttributes`, grades, absences,
  archives), `getMonday`, `isHappeningNow`, and the duration and time-left
  texts. Each text has a parser that reads it back.
- `ics.dfy` (`Ics`): `parseICS` as a line scanner. This covers the summary
  split, the room and lecturer rules, the class type read from the group and
  the event id formula.
- `resolver.dfy` (`Resolver`): `filteredEvents` with the group rule and the
  room and time overrides, `getWeekEvents`, the day markers, the subject,
  lecturer and attendance counts, the widget export selection, and the
  load-time sort.
- `notifications.dfy` (`Notifications`): the requests handed to the
  notification centre, as a log of add and cancel commands. `Pending`
  interprets that log as the set of pending requests. Covered: the "starting
  soon" reminders, the 07:00 morning briefings and the custom notifications.
- `tables.dfy` (`Tables`): the per-event and per-subject tables the toggle,
  save, add and remove operations update.
- `live_activity.dfy` (`LiveActivity`): one pass of `manageLiveActivity`.
  It decides which activities to end and whether to start one.
- `manager.dfy` (`Manager`): the `DataManager` class, whose methods update its
  fields in place. It owns the widget's shared store, the notification centre
  and ActivityKit as objects with their own logs. The loops of
  `scheduleNotifications`, `scheduleMorningBriefings` and `manageLiveActivity`
  are methods proved against the functions above.
- `widget.dfy` (`Widget`): the widget's `getTimeline` selection and its
  placeholder.
- `views.dfy` (`Views`): the event card's badge, `isNow` and `isExam` rules,
  the context-menu gating, the add-event form's save action and
  `combineDateAndTime`, the reminder text, and the edit-time form's save.

Instants are integer seconds in the device's time zone, with no daylight
saving shift. Day `d` covers `[d * 86400, (d + 1) * 86400)`. Day 0,
1970-01-01, is a Thursday.

## Model

| member | source | states |
|---|---|---|
| Calendar.StartOfDay | PlanPK/DataManager.swift:283 | the start of the day is no later than the instant, less than a day before it, on the same day, and a whole number of days |
| Calendar.Weekday | PlanPK/Models.swift:19-20 | the weekday is in 1..7, and it is 1 (Sunday) exactly on the days whose number is 3 modulo 7, as 1970-01-04 was a Sunday |
| Calendar.WeekdayNext | PlanPK/Models.swift:19-22 | the day after a given day has the next weekday, with Saturday (7) followed by Sunday (1); with the Sunday anchor this fixes the whole numbering |
| Calendar.AddDaysShiftsDay | PlanPK/Models.swift:22 | adding n days moves the calendar day by n and keeps the clock time |
| Calendar.HourOf | PlanPK/SecondaryViews.swift:483 | the hour component is in 0..23 |
| Calendar.MinuteOf | PlanPK/SecondaryViews.swift:483 | the minute component is in 0..59 |
| Calendar.SetHourMinuteReads | PlanPK/SecondaryViews.swift:484 | setting hour h and minute m with second 0 stays on the same day and reads back as h:m:00 |
| Text.LowerChar | PlanPK/DataManager.swift:255 | on ASCII and Polish letters: a lower-cased character is never a capital; characters that are not capitals are unchanged and capitals change |
| Text.Lower | PlanPK/DataManager.swift:255 | lower-casing of ASCII and Polish letters keeps the length and leaves no capital |
| Text.LowerIdempotent | PlanPK/DataManager.swift:255 | lower-casing twice equals lower-casing once |
| Text.ContainsIffOccurs | PlanPK/DataManager.swift:255 | `contains` holds exactly when the needle occurs at some position |
| Text.ContainsAt | PlanPK/DataManager.swift:255 | a needle occurring at a position is found |
| Text.ContainsInContext | PlanPK/DataManager.swift:258 | a needle found in a string is found in any string built around it |
| Text.TrimStartSpec | PlanPK/DataManager.swift:163 | the leading trim drops only class characters and keeps a suffix that does not start with one |
| Text.TrimEndSpec | PlanPK/DataManager.swift:163 | the trailing trim drops only class characters and keeps a prefix that does not end with one |
| Text.TrimIsSlice | PlanPK/DataManager.swift:168 | trimming keeps one contiguous slice, cut only at class characters, with no class character at either end |
| Text.Split | PlanPK/DataManager.swift:167 | `components(separatedBy:)` always yields at least one part |
| Text.SplitJoin | PlanPK/DataManager.swift:167 | joining the parts with the separator gives the input back |
| Text.SplitFirstIsPrefix | PlanPK/DataManager.swift:167 | the first part is a prefix of the input |
| Text.SplitPartsFree | PlanPK/DataManager.swift:167 | no part contains the separator |
| Text.RemoveAll | PlanPK/DataManager.swift:171 | removing a pattern never lengthens the string |
| Text.RemoveAllIsSplitConcat | PlanPK/DataManager.swift:171 | removing every occurrence equals splitting on the pattern and concatenating the parts |
| Text.RemoveCharGone | PlanPK/DataManager.swift:171 | after removing a character, none of it is left |
| Text.RemoveCharAppend | PlanPK/DataManager.swift:171 | removing a character distributes over concatenation |
| Text.RemoveCharKeeps | PlanPK/DataManager.swift:169 | every other character survives the removal |
| Text.NatString | PlanPK/Models.swift:61 | the rendering of a natural number is a non-empty run of digits without a leading zero |
| Text.IntString | PlanPK/DataManager.swift:171 | the rendering of an integer is non-empty and starts with a digit exactly when the number is not negative |
| Text.NatStringRoundTrip | PlanPK/Models.swift:61 | reading the rendered digits gives the number back |
| Text.IntStringInjective | PlanPK/DataManager.swift:171 | different integers render differently |
| Text.NatStringInjective | PlanPK/DataManager.swift:171 | different natural numbers render differently (the digits read back as the number) |
| Text.LeadingDigitsOfNat | PlanPK/Models.swift:63 | a rendered number followed by a non-digit is read back whole |
| Text.UpperChar | PlanPK/DataManager.swift:228 | on ASCII and Polish letters: an upper-cased character is never a small letter, and other characters are unchanged |
| Text.Upper | PlanPK/DataManager.swift:228 | upper-casing of ASCII and Polish letters keeps the length and leaves no small letter |
| Text.LessIrreflexive | PlanPK/DataManager.swift:206 | string order is irreflexive |
| Text.LessTransitive | PlanPK/DataManager.swift:206 | string order is transitive |
| Text.LessTotal | PlanPK/DataManager.swift:206 | any two different strings are ordered one way or the other |
| Models.ClassTypeFromRaw | PlanPK/Models.swift:44-45 | `ClassType(rawValue:)` finds only the case with that raw value |
| Models.ClassTypeRawRoundTrip | PlanPK/Models.swift:44-48 | decoding a type's raw value gives the type back; raw values and full names are pairwise distinct and the names are non-empty |
| Models.GetMondayIsMonday | PlanPK/Models.swift:16-23 | `getMonday` goes back 0..6 days (6 from a Sunday) to a Monday (weekday 2), keeps the clock time, and is idempotent |
| Models.Quot | PlanPK/Models.swift:61-62 | Swift's `/` truncates toward zero: the remainder has the sign of the dividend and is smaller than the divisor |
| Models.Rem | PlanPK/Models.swift:61 | Swift's `%` is the remainder of the truncating quotient: it has the sign of the dividend and is smaller than the divisor |
| Models.HappeningNowInclusive | PlanPK/Models.swift:59 | an event is happening exactly from its start to its end, both seconds included |
| Models.DurationMinutes | PlanPK/Models.swift:62 | the duration is the whole minutes between start and end, truncated toward zero for a negative span |
| Models.MinutesTailReadBack | PlanPK/Models.swift:63 | "{m}m" reads back as m |
| Models.AfterHoursReadBack | PlanPK/Models.swift:63 | "h {m}m" after h hours reads back as h * 60 + m |
| Models.ReadBack | PlanPK/Models.swift:63 | a rendered number followed by text that does not start with a digit reads back as that number and that text |
| Models.DurationTextRoundTrip | PlanPK/Models.swift:63 | the duration text of a non-negative number of minutes parses back to it ("{h}h {m}m", "{h}h" or "{m}m") |
| Models.NegativeDurationLosesHours | PlanPK/Models.swift:63 | a negative duration prints its hours nowhere: -65 and -5 minutes both read "-5m" |
| Models.TimeLeftPrefix | PlanPK/Models.swift:61 | the time-left parser reads whatever follows "Koniec za " |
| Models.TimeLeftHoursReadBack | PlanPK/Models.swift:61 | "{h}h {m}m" reads back as h * 60 + m |
| Models.TimeLeftMinutesReadBack | PlanPK/Models.swift:61 | "{m} min" reads back as m |
| Models.TimeLeftWithHours | PlanPK/Models.swift:61 | with an hour or more left the text is not "Koniec" and reads back exactly |
| Models.TimeLeftUnderHour | PlanPK/Models.swift:61 | with 1 to 59 minutes left the text is not "Koniec" and reads back exactly |
| Models.TimeLeftTextRoundTrip | PlanPK/Models.swift:61 | the text is "Koniec" exactly when no whole minute is left, and otherwise reads back as the minutes left |
| Models.TimeLeftRoundTrip | PlanPK/Models.swift:61 | for an event the text is "Koniec" exactly when less than a minute is left, and it reads back as the truncated minutes |
| Models.QuotMinutes | PlanPK/Models.swift:61 | truncated minutes are non-positive exactly below 60 seconds, equal Euclidean division for non-negative spans, and once clamped at zero agree with the clamped Euclidean quotient |
| Models.ClampedTimeLeft | PlanPK/Models.swift:61 | the time-left text of a truncated minute count is "Koniec" exactly below a minute and reads back as the clamped minutes |
| Ics.LastRoomField | PlanPK/DataManager.swift:169 | the index found, if any, is a summary field that names a room |
| Ics.NoRoomFieldAtAll | PlanPK/DataManager.swift:169 | when no index is found, no field names a room |
| Ics.NoRoomFieldAfterLast | PlanPK/DataManager.swift:169 | no room field follows the one found |
| Ics.RoomOfIsLastRoomField | PlanPK/DataManager.swift:169 | the room is the last room field with "s." removed and trimmed, or "Brak sali" when there is none |
| Ics.ClassifyGroupSpec | PlanPK/DataManager.swift:170 | each type's raw code classifies as that type; only "W" is a lecture; a recognised group starts with its type's code; an unknown one starts with neither L nor P |
| Ics.EventIdInjectiveInStart | PlanPK/DataManager.swift:171 | for one name, different start instants give different ids |
| Ics.SpacesDoNotReachTheId | PlanPK/DataManager.swift:171 | names that differ only in spaces get the same id |
| Ics.BuildEvent | PlanPK/DataManager.swift:165-172 | an event is built exactly when both dates parse and the summary has two fields. It has the feed shape, the trimmed name and group, the lecturer or "Nieznany", the room rule and the parsed times |
| Ics.GroupsShareIds | PlanPK/DataManager.swift:171 | two groups of one subject that start together get the same id |
| Ics.EmitEvent | PlanPK/DataManager.swift:165-174 | the END:VEVENT branch, with its loop over the summary fields, builds exactly `BuildEvent` |
| Ics.ParseIcs | PlanPK/DataManager.swift:161-176 | the line loop returns exactly the events of the scanner specification |
| Ics.ScanEmitsAtEnds | PlanPK/DataManager.swift:164-174 | there are no more events than END:VEVENT lines, and every event has the feed shape |
| Ics.ScanEventsGrow | PlanPK/DataManager.swift:162-175 | the events of a prefix of the lines are a prefix of the events |
| Ics.ScanBlock | PlanPK/DataManager.swift:164-175 | one well-formed VEVENT block appends exactly its built event and leaves the scanner outside an event |
| Ics.ScanAppend | PlanPK/DataManager.swift:162 | scanning one more line is one more step |
| Ics.BlockSteps | PlanPK/DataManager.swift:164-175 | BEGIN, SUMMARY, DTSTART and DTEND capture the fields, and END emits the built event |
| Ics.TrimKeeps | PlanPK/DataManager.swift:163 | a line with no blank at either end is unchanged by trimming |
| Ics.RepeatedEndRepeatsEvent | PlanPK/DataManager.swift:165-174 | the captured fields are not cleared, so a second END:VEVENT emits the same event again |
| LiveActivity.CurrentEvent | PlanPK/DataManager.swift:301 | the current event is the first of today's list that is running and not cancelled; there is none exactly when no event qualifies |
| LiveActivity.AttributesOf | PlanPK/DataManager.swift:318-319 | a started activity records the event's title, room, start and end; its type label reads back as the event's class type, and a missing type is labelled "Inne" (the label of the unknown type) |
| LiveActivity.Ending | PlanPK/DataManager.swift:306-314 | an activity is ended exactly when its class is over, or there is no current class, or the current class has another title |
| LiveActivity.Survivors | PlanPK/DataManager.swift:306-314 | the activities left running are exactly the ones not ended |
| LiveActivity.DisabledEndsEverything | PlanPK/DataManager.swift:292-296 | with live activities off, every running activity is ended and none is started |
| LiveActivity.TickDecision | PlanPK/DataManager.swift:301-321 | with the feature on, the ends are the stale activities; a start happens exactly when a current class exists and no running activity shows its title, and it carries that class's attributes |
| LiveActivity.AtMostOneAfterTick | PlanPK/DataManager.swift:291-322 | if running activities show distinct classes, at most one runs after a pass, and it shows the current class |
| LiveActivity.DistinctTitlesDiffer | PlanPK/DataManager.swift:306-312 | among two or more activities showing distinct classes, one shows a class other than any given one, so at most one can show the current class |
| LiveActivity.SurvivorsDistinct | PlanPK/DataManager.swift:306-314 | the survivors of distinct classes show distinct classes |
| LiveActivity.TickIsStable | PlanPK/DataManager.swift:291-322 | a second pass with the same inputs ends and starts nothing, unless the class is in its last second or a finished same-title activity was ended |
| LiveActivity.LastSecondFlaps | PlanPK/DataManager.swift:301-317 | at the second a class ends, one pass starts its activity and the next pass ends it again |
| LiveActivity.HandOver | PlanPK/DataManager.swift:306-321 | past class A's end and inside class B, one pass ends A's activity and starts B's, and only B's runs after it |
| LiveActivity.FinishedSameTitleDelaysStart | PlanPK/DataManager.swift:307-317 | a finished activity with the current class's title is ended and holds back the new start for that pass |
| LiveActivity.TickCommands | PlanPK/DataManager.swift:306-320 | the commands are every end, in list order, then the start |
| LiveActivity.EndCommands | PlanPK/DataManager.swift:293-295 | one end command for each activity, in order |
| LiveActivity.EndCommandsAppend | PlanPK/DataManager.swift:293-295 | ending one more activity adds one more command |
| Notifications.BriefingIds | PlanPK/DataManager.swift:245 | the seven briefing slots are named briefing_0 to briefing_6 |
| Notifications.PrefixedInjective | PlanPK/DataManager.swift:186 | a common prefix determines the suffix |
| Notifications.IdentifierNamespaces | PlanPK/DataManager.swift:186-187 | exam, important, custom-reminder and briefing identifiers never collide, and each determines its event id or slot |
| Notifications.TriggerMinute | PlanPK/DataManager.swift:185 | a calendar trigger fires at the start of the instant's minute |
| Notifications.PendingKeyedById | PlanPK/DataManager.swift:240 | every pending request is filed under its own identifier |
| Notifications.Adds | PlanPK/DataManager.swift:240 | one add command per request, in order |
| Notifications.PendingAfterAdds | PlanPK/DataManager.swift:224-241 | after the adds, an identifier is pending exactly when it was pending before or some request uses it |
| Notifications.AddsDependOnPendingOnly | PlanPK/DataManager.swift:224-241 | the effect of the adds depends only on what was pending before |
| Notifications.ReconcileIdempotent | PlanPK/DataManager.swift:219-243 | cancel-then-add, with every added id among the cancelled ones, leaves the same pending set when run twice as when run once |
| Notifications.CancelForgetsAdds | PlanPK/DataManager.swift:220 | cancelling the same ids again wipes what the adds put back |
| Notifications.PendingAfterAddsValue | PlanPK/DataManager.swift:240 | an identifier that no add uses keeps its pending request |
| Notifications.CustomNotif | PlanPK/DataManager.swift:185 | `scheduleCustomNotif` adds one request, firing at the minute of the date, exactly when the date is after now |
| Notifications.ReminderRequests | PlanPK/DataManager.swift:224-241 | a reminder is requested exactly for each batch event whose instant 30 minutes before its start is after now |
| Notifications.ReminderRequestsFireAhead | PlanPK/DataManager.swift:236-240 | every reminder uses its event's id, fires in the minute 30 minutes before the start, and that start is more than 30 minutes away |
| Notifications.TwoDigits | PlanPK/DataManager.swift:245 | "HH" and "mm" print two digits |
| Notifications.BriefingInstantIsSevenAm | PlanPK/DataManager.swift:245 | slot i is on day i counted from now, reads 07:00 and falls on a whole minute |
| Notifications.BriefingFiresAtSlot | PlanPK/DataManager.swift:245 | the briefing request of slot i fires exactly at that slot's 07:00 |
| Notifications.BriefingRequestsBounded | PlanPK/DataManager.swift:245 | at most one briefing per slot, each firing no earlier than now |
| Notifications.BriefingRequestsCount | PlanPK/DataManager.swift:245 | each of the seven slots adds at most one briefing |
| Notifications.BriefingRequestsFuture | PlanPK/DataManager.swift:245 | no briefing fires before now, since a slot whose 07:00 has passed is skipped |
| Notifications.BriefingRequestsFromSlots | PlanPK/DataManager.swift:245 | every briefing is that of a slot whose 07:00 is not before now |
| Notifications.BriefingRequestsCoverSlots | PlanPK/DataManager.swift:245 | every slot whose 07:00 is not before now gets its briefing |
| Notifications.BriefingsReplaceThemselves | PlanPK/DataManager.swift:245 | briefings use only the seven slot ids, and rebuilding them twice equals rebuilding them once |
| Notifications.UpcomingBatch | PlanPK/DataManager.swift:222-224 | at most 50 events, each a MyPlan event that starts after now and is not cancelled |
| Notifications.UpcomingBatchIsFirstQualifying | PlanPK/DataManager.swift:222-224 | the batch is the qualifying MyPlan events in list order, cut after the fiftieth |
| Notifications.UpcomingBatchComplete | PlanPK/DataManager.swift:222-224 | when at most 50 events qualify, every one of them is in the batch |
| Notifications.CatalogIds | PlanPK/DataManager.swift:220 | the cancelled identifiers are the catalog ids, in order |
| Notifications.ReminderIdsInCatalog | PlanPK/DataManager.swift:220-240 | every reminder uses the id of a catalog event |
| Notifications.ReminderPlanIdempotent | PlanPK/DataManager.swift:219-243 | running `scheduleNotifications` twice leaves the same pending set as running it once |
| Notifications.AddsAppend | PlanPK/DataManager.swift:240 | one more request adds one more command |
| Notifications.ReminderRequestsStep | PlanPK/DataManager.swift:224-241 | one more batch event adds its reminder exactly when that reminder is still ahead |
| Notifications.BriefingRequestsStep | PlanPK/DataManager.swift:245 | one more slot adds its briefing exactly when its 07:00 is not before now |
| Resolver.GroupRuleIsSelection | PlanPK/DataManager.swift:257-260 | the group rule passes exactly when the event has no type or group, is in lecture group "W", has a type with no selected group, or is in the selected group |
| Resolver.JavaComputerLabExample | PlanPK/DataManager.swift:258-259 | a Java computer-lab group "Lk3" shows for Java group "3" and not for "2" |
| Resolver.ApplyOverrides | PlanPK/DataManager.swift:263-271 | the custom room and the custom time window replace the base ones when set; nothing else changes |
| Resolver.FilterSound | PlanPK/DataManager.swift:249-271 | every result is on the day, is not a hidden lecture, and is the overridden form of a kept catalog event |
| Resolver.KeptIndicesSpec | PlanPK/DataManager.swift:251-262 | the kept positions are in range, increasing, and exactly those of the events that pass the filters |
| Resolver.FilterIsKeptInOrder | PlanPK/DataManager.swift:249-271 | the k-th result is the overridden event at the k-th kept position |
| Resolver.FilterComplete | PlanPK/DataManager.swift:249-271 | every kept catalog event is shown |
| Resolver.KeptEventShown | PlanPK/DataManager.swift:249-271 | a catalog event that passes the filters appears, overridden, in `filteredEvents` |
| Resolver.UserEventsBypassGroupRule | PlanPK/DataManager.swift:256 | a user event shows in either mode when day, lecture and search filters pass |
| Resolver.LectureGroupAlwaysShown | PlanPK/DataManager.swift:258 | a lecture-group event always passes the group rule in MyPlan |
| Resolver.MyPlanWithinFullPlan | PlanPK/DataManager.swift:256-260 | MyPlan shows a subset of FullPlan for the same day and search |
| Resolver.SearchNarrows | PlanPK/DataManager.swift:255 | a search only hides events |
| Resolver.FilteredSortedWithoutTimeOverrides | PlanPK/DataManager.swift:249-271 | without time overrides, a catalog sorted by start gives sorted results |
| Resolver.TimeOverrideCanReorder | PlanPK/DataManager.swift:263-271 | the results are not re-sorted: a custom time can put an event after a later one |
| Resolver.WeekDayStartsDistinct | PlanPK/DataManager.swift:279-284 | different days of one week start at different instants |
| Resolver.GetWeekEvents | PlanPK/DataManager.swift:274-289 | the week map has one key per non-empty day of the seven from Monday: the day's first second, mapped to that day's list. Empty days are absent and every listed event belongs to its key's day |
| Resolver.HasExamOnCatalog | PlanPK/DataManager.swift:198 | a day has an exam exactly when some kept catalog event of that day is marked as an exam or is a user exam |
| Resolver.HasImportantOnCatalog | PlanPK/DataManager.swift:199 | a day is important exactly when some kept catalog event of that day is marked important |
| Resolver.HasNoteOnCatalog | PlanPK/DataManager.swift:200 | a day has a note exactly when some kept catalog event of that day has a non-empty note |
| Resolver.Lecturers | PlanPK/DataManager.swift:202 | the lecturers are exactly the named lecturers of the subject's feed events |
| Resolver.LecturersOfType | PlanPK/DataManager.swift:203 | the same, restricted to one raw type, and a subset of all the subject's lecturers |
| Resolver.InsertSorted | PlanPK/DataManager.swift:206 | inserting into a strictly sorted list keeps it strictly sorted and adds just the element |
| Resolver.UniqueSubjects | PlanPK/DataManager.swift:206 | the subjects are the titles of feed events, each once, in string order |
| Resolver.TypeOrderSorted | PlanPK/DataManager.swift:205 | every class type appears once in the raw-code order |
| Resolver.ChainStep | PlanPK/DataManager.swift:205 | raw codes that increase step by step increase between any two positions |
| Resolver.TypesAmong | PlanPK/DataManager.swift:205 | the chosen types are those the subject has, kept in raw-code order |
| Resolver.TypesOf | PlanPK/DataManager.swift:205 | a subject's types are every type its feed events have, once each, sorted by raw code |
| Resolver.TotalClassesCount | PlanPK/DataManager.swift:207 | the class count never exceeds the catalog |
| Resolver.TotalClassesCountIsMyPlanCount | PlanPK/DataManager.swift:207 | on any catalog whose user events carry no class type (as the add-event form makes them), the count equals the number of that subject's classes of that type in the whole MyPlan view with lectures shown |
| Resolver.MyPlanCountStep | PlanPK/DataManager.swift:207 | one more feed event, or untyped user event, adds the same to the class count and to the MyPlan count |
| Resolver.TotalAttendanceStats | PlanPK/DataManager.swift:208 | the loop's totals are the class count and the absence count summed over every subject and each type it has |
| Resolver.StrayAbsencesIgnored | PlanPK/DataManager.swift:208 | absences under a type the subject does not have are not counted |
| Resolver.Where | PlanPK/DataManager.swift:146 | `filter` keeps exactly the elements that pass, and no more of them than the input has |
| Resolver.WhereAppend | PlanPK/DataManager.swift:146 | filtering a concatenation filters each part, so the kept elements keep their order and repetitions |
| Resolver.WhereSingle | PlanPK/DataManager.swift:146 | a single element is kept exactly when it passes |
| Resolver.Prefix | PlanPK/DataManager.swift:148 | `prefix(n)` is the first min(n, length) elements: exactly n of them when the input is longer |
| Resolver.WidgetExportSound | PlanPK/DataManager.swift:146-148 | the export holds at most 20 events, each a MyPlan event that has not ended and is not cancelled |
| Resolver.WidgetExportComplete | PlanPK/DataManager.swift:146-148 | when at most 20 events qualify, the export holds all of them |
| Resolver.WidgetExportIsFirstQualifying | PlanPK/DataManager.swift:146-148 | the export is the qualifying MyPlan events in list order, cut after the twentieth |
| Resolver.InsertByStartPermutes | PlanPK/DataManager.swift:71 | insertion adds exactly the one event |
| Resolver.InsertByStartBounded | PlanPK/DataManager.swift:71 | a lower bound on every start survives insertion |
| Resolver.InsertByStartSorted | PlanPK/DataManager.swift:71 | insertion keeps a list sorted by start |
| Resolver.SortByStartSpec | PlanPK/DataManager.swift:71 | the catalog is sorted by start and is a permutation of the feed and user events |
| Resolver.InsertByStartStable | PlanPK/DataManager.swift:71 | insertion places the event before the listed events that start when it does, and keeps their order |
| Resolver.SortByStartStable | PlanPK/DataManager.swift:71 | events with equal starts come out in their input order |
| Tables.ToggleExamMarks | PlanPK/DataManager.swift:186 | the exam mark flips; marking also clears the important mark; no other id changes; the two marks stay disjoint |
| Tables.ToggleImportantMarks | PlanPK/DataManager.swift:187 | the important mark flips; marking also clears the exam mark; no other id changes; the two marks stay disjoint |
| Tables.ExamToggleTwice | PlanPK/DataManager.swift:186 | toggling the exam mark twice restores the marks when the id was not important |
| Tables.Toggled | PlanPK/DataManager.swift:184 | `toggleCancel` flips exactly one id |
| Tables.PendingAdd | PlanPK/DataManager.swift:185 | one add files its request under its id |
| Tables.PendingCancel | PlanPK/DataManager.swift:186 | one cancel removes exactly its ids |
| Tables.CancelThenMaybeAdd | PlanPK/DataManager.swift:186-187 | cancelling one id and then scheduling another leaves the first gone and the second pending exactly when due or already pending; nothing else changes |
| Tables.ExamToggleEffect | PlanPK/DataManager.swift:186 | unmarking cancels the exam reminder; marking cancels the important one and requests the exam reminder five days ahead when that is after now; no other request changes |
| Tables.ImportantToggleEffect | PlanPK/DataManager.swift:187 | the mirror image, with the seven-day reminder |
| Tables.ExamThenImportant | PlanPK/DataManager.swift:186-187 | marking an event as exam, then as important, leaves it important only; the five-day reminder is gone and the seven-day one is pending exactly when due |
| Tables.SetOrDelete | PlanPK/DataManager.swift:189-190 | an empty text deletes the entry, any other replaces it; other ids are untouched; no entry is ever empty |
| Tables.KeptPositions | PlanPK/DataManager.swift:196 | the positions `remove(atOffsets:)` keeps: every position below the length that is not an offset, each once, in increasing order |
| Tables.KeptPositionsBelow | PlanPK/DataManager.swift:196 | an offset past the end does not change the kept positions |
| Tables.RemoveOffsets | PlanPK/DataManager.swift:196 | `remove(atOffsets:)`: every survivor comes from the list, every element at a position that is not an offset survives, and the length drops by the number of offsets |
| Tables.RemoveOffsetsKeepsPositions | PlanPK/DataManager.swift:196 | the k-th survivor of `remove(atOffsets:)` is the element at the k-th kept position, so the survivors and their order are pinned |
| Tables.WithGrade | PlanPK/DataManager.swift:192 | the grade is appended to its subject; other subjects are untouched; no list is empty |
| Tables.WithoutGrades | PlanPK/DataManager.swift:193 | the subject's list becomes `remove(atOffsets:)` of it (positions and order as `RemoveOffsetsKeepsPositions`); an emptied subject is dropped; other subjects are untouched |
| Tables.InsertNewestFirstPermutes | PlanPK/DataManager.swift:209 | the re-sort after appending adds exactly the one record |
| Tables.InsertNewestFirstBounded | PlanPK/DataManager.swift:209 | an upper bound on every date survives insertion |
| Tables.InsertNewestFirstKeepsOrder | PlanPK/DataManager.swift:209 | the list stays newest first |
| Tables.WithAbsenceValid | PlanPK/DataManager.swift:209 | adding an absence keeps the table valid: no empty container, every list newest first |
| Tables.WithAbsenceAddsOne | PlanPK/DataManager.swift:209 | adding an absence adds exactly that record, so the count grows by one, and no other list changes |
| Tables.DropRemovesOne | PlanPK/DataManager.swift:210 | `remove(at:)` removes exactly that record |
| Tables.DropKeepsOrder | PlanPK/DataManager.swift:210 | removing a record keeps the rest newest first |
| Tables.WithoutAbsenceValid | PlanPK/DataManager.swift:210 | removing an absence keeps the table valid |
| Tables.WithoutAbsenceRemovesOne | PlanPK/DataManager.swift:210 | removing an absence takes exactly that record out, so the count drops by one; without such a list nothing changes |
| Tables.WithoutAbsenceElsewhere | PlanPK/DataManager.swift:210 | every other subject and type is left as it was |
| Tables.SetNested | PlanPK/DataManager.swift:204 | setting or removing one nested entry changes only that entry and never leaves an empty subject |
| Tables.WithLimit | PlanPK/DataManager.swift:211 | a positive limit is stored, zero or less deletes it; nothing else changes; the table stays pruned and positive |
| Tables.WithSyllabus | PlanPK/DataManager.swift:204 | non-empty text is stored and empty text deletes it; nothing else changes; the table stays pruned and non-empty |
| Manager.ReminderPass | PlanPK/DataManager.swift:219-243 | the loop issues the cancel of every catalog id, then the reminders of the upcoming batch that are still ahead |
| Manager.BriefingPass | PlanPK/DataManager.swift:245 | the loop issues the cancel of the seven slots, then each day's 07:00 briefing unless that instant has passed |
| Manager.EndAll | PlanPK/DataManager.swift:292-296 | the loop ends every running activity |
| Manager.EndStale | PlanPK/DataManager.swift:306-314 | the loop ends exactly the stale activities, in order |
| Manager.TickOf | PlanPK/DataManager.swift:291-322 | one pass computes the tick decision and issues its commands |
| Manager.WidgetStore.constructor | PlanPK/DataManager.swift:147-152 | the shared store starts with the given events and marks |
| Manager.NotificationCenter.constructor | PlanPK/DataManager.swift:185 | the centre starts from the given log |
| Manager.ActivityCenter.constructor | PlanPK/DataManager.swift:316-321 | ActivityKit starts with the given activities and an empty log |
| Manager.DataManager.constructor | PlanPK/DataManager.swift:53-77 | `init` reads the feed, starts from empty tables and the default settings, sorts the catalog, schedules reminders and briefings, and exports to the widget |
| Manager.DataManager.LoadData | PlanPK/DataManager.swift:55-77 | the catalog is rebuilt sorted, reminders and briefings are rescheduled, and the widget is in sync |
| Manager.DataManager.ExportWidgetData | PlanPK/DataManager.swift:144-155 | the widget store holds the first 20 upcoming, non-cancelled MyPlan events and both mark sets |
| Manager.DataManager.ScheduleNotifications | PlanPK/DataManager.swift:219-243 | the centre receives exactly the reminder pass |
| Manager.DataManager.ScheduleMorningBriefings | PlanPK/DataManager.swift:245 | the centre receives exactly the briefing pass |
| Manager.DataManager.ScheduleCustomNotif | PlanPK/DataManager.swift:185 | the centre receives one request at the minute of the date, only if the date is after now |
| Manager.DataManager.ManageLiveActivity | PlanPK/DataManager.swift:291-322 | ActivityKit receives the tick's commands and then runs the survivors and the started activity |
| Manager.DataManager.ToggleCancel | PlanPK/DataManager.swift:184 | the cancelled mark flips and the widget is in sync |
| Manager.DataManager.ToggleExam | PlanPK/DataManager.swift:186 | the marks change as `ToggleExamMarks`, the centre receives the exam-toggle commands, and the widget is in sync |
| Manager.DataManager.ToggleImportant | PlanPK/DataManager.swift:187 | the marks change as `ToggleImportantMarks`, the centre receives the important-toggle commands, and the widget is in sync |
| Manager.DataManager.SaveNote | PlanPK/DataManager.swift:189 | the note table is set or cleared for the id |
| Manager.DataManager.SaveRoom | PlanPK/DataManager.swift:190 | the room table is set or cleared for the id, and the widget is in sync |
| Manager.DataManager.AddGrade | PlanPK/DataManager.swift:192 | the grade is appended to its subject |
| Manager.DataManager.DeleteGrades | PlanPK/DataManager.swift:193 | the grades become `WithoutGrades` of the old grades: the subject keeps exactly its unremoved entries in order, and is dropped once empty |
| Manager.DataManager.ArchiveSemester | PlanPK/DataManager.swift:195 | the archive holds the old grades, absences and syllabuses; eight tables are emptied; the widget is in sync |
| Manager.DataManager.StoreArchive | PlanPK/DataManager.swift:195 | the archive is appended and the eight tables are emptied |
| Manager.DataManager.DeleteArchive | PlanPK/DataManager.swift:196 | the archives become `RemoveOffsets` of the old ones: exactly the archives at the other positions, in order |
| Manager.DataManager.SaveSyllabus | PlanPK/DataManager.swift:204 | the syllabus table is set or cleared for subject and type |
| Manager.DataManager.AddAbsence | PlanPK/DataManager.swift:209 | the absence joins its list newest first |
| Manager.DataManager.RemoveAbsence | PlanPK/DataManager.swift:210 | the record at the index is removed and emptied containers are dropped |
| Manager.DataManager.UpdateAbsenceLimit | PlanPK/DataManager.swift:211 | the limit is set, or deleted when not positive |
| Manager.DataManager.AddUserEvent | PlanPK/DataManager.swift:214 | the event joins the user events, then the data is reloaded |
| Manager.DataManager.DeleteUserEvent | PlanPK/DataManager.swift:215 | every user event with the id is removed, then the data is reloaded |
| Manager.DataManager.UpdateEventTime | PlanPK/DataManager.swift:325-330 | the custom time window is stored and the live-activity pass runs |
| Manager.DataManager.ResetEventTime | PlanPK/DataManager.swift:332-337 | the custom time window is removed and the live-activity pass runs |
| Widget.WhereNone | PlanPK/DataManager.swift:146 | a filter that nothing passes keeps nothing |
| Widget.TimelineShape | PlanPKWidget/PlanPKWidget.swift:15-55 | the timeline has one entry, dated now, with at most two events and the mark lists as read, a missing list read as empty |
| Widget.TodayWins | PlanPKWidget/PlanPKWidget.swift:31-35 | with an event starting today that has not ended, the header is "DZISIAJ" and the first two such events are shown |
| Widget.TomorrowNext | PlanPKWidget/PlanPKWidget.swift:37-41 | with nothing left today and an event starting tomorrow, the header is "JUTRO" and the first two of tomorrow's events are shown |
| Widget.FreeIffEmpty | PlanPKWidget/PlanPKWidget.swift:42-50 | the header is "WOLNE" exactly when no event is shown, and it is always one of the three headers |
| Widget.NothingToShow | PlanPKWidget/PlanPKWidget.swift:27-44 | with no readable event list, or nothing today or tomorrow, the entry is empty under "WOLNE" |
| Widget.ShownEventsQualify | PlanPKWidget/PlanPKWidget.swift:31-50 | every shown event comes from the shared list and starts today and runs past now, or starts tomorrow, matching the header |
| Widget.ShownEventsWereExported | PlanPK/DataManager.swift:146-148 | every event the widget shows from what the app exported is a MyPlan event that was not cancelled and had not ended at export time |
| Widget.RefreshTime | PlanPKWidget/PlanPKWidget.swift:53 | the next refresh is when the first shown event ends, or an hour from now; it is in the future when events do not end before they start |
| Widget.PlaceholderNeverScheduled | PlanPKWidget/PlanPKWidget.swift:6-8 | the placeholder, empty under "DZISIAJ", is never a real entry |
| Views.BadgePrecedence | PlanPK/SecondaryViews.swift:76-118 | the badge is the first that applies: cancelled, exam, important, now, else the type icon |
| Views.IconOfUserEvents | PlanPK/SecondaryViews.swift:33-36 | the symbol is the star exactly for user events |
| Views.CancelledNeverNow | PlanPK/SecondaryViews.swift:38-40 | a cancelled class is never "now" |
| Views.MenuGating | PlanPK/SecondaryViews.swift:195-212 | the menu has exactly one item: a cancel or restore toggle for feed events, labelled by the cancelled state, or delete for user events |
| Views.ChooseMenuItem | PlanPK/SecondaryViews.swift:195-212 | the toggle flips the cancelled mark; delete removes the user event and reloads |
| Views.CombineKeepsDayAndClock | PlanPK/SecondaryViews.swift:481-485 | the combined instant is on the date's day with the time's hour and minute, second 0 |
| Views.NewUserEventDefaults | PlanPK/SecondaryViews.swift:450-464 | the new event keeps the filled-in fields, and empty lecturer and room become "Własne" and "-". It is a user event of the chosen category, with no type or group, and lasts 5400 seconds from the chosen day at the picked time. A custom name is kept only for "other" and only when non-empty |
| Views.ReminderTextReadsBack | PlanPK/SecondaryViews.swift:471 | the reminder text reads back as the lead: exactly up to a day and for a week; any lead over a day reads as a week |
| Views.TagMarksFreshId | PlanPK/SecondaryViews.swift:467-468 | for a fresh id, tag 1 marks it important only, tag 2 an exam only, and other tags mark nothing; while not cancelled, its card shows the matching badge |
| Views.ReminderGating | PlanPK/SecondaryViews.swift:470-473 | the reminder "remind_<id>" is requested exactly when the lead is positive, there is no tag and the reminder instant is ahead; it fires at the minute of the start less the lead |
| Views.AddEventSave | PlanPK/SecondaryViews.swift:448-475 | the event is added and the data reloaded; then the tag toggles run and the reminder is scheduled, in that order in the centre's log |
| Views.TagAndRemind | PlanPK/SecondaryViews.swift:467-473 | the tag toggle and then the reminder |
| Views.ApplyTag | PlanPK/SecondaryViews.swift:467-468 | tag 1 toggles important, tag 2 toggles exam, other tags do nothing |
| Views.EditTimeOverrideSpec | PlanPK/SecondaryViews.swift:1053-1058 | both new instants are on the event's day with the chosen clock times; the window is inverted exactly when the end time is earlier |
| Views.EditTimeSave | PlanPK/SecondaryViews.swift:1051-1060 | the override built on the event's day is stored and the live-activity pass runs |

## Left out

- Persistence is not modelled: iCloud key-value storage, `UserDefaults` and JSON coding. Each table is
  a field of the manager. Every save writes the in-memory value, so the tables `loadData` reloads are
  the ones in memory.
- `addUserEvent` and `deleteUserEvent` re-read the stored user events before changing them. The model
  uses the manager's own list, which every save keeps equal to the stored one.
- Reading the feed file from the bundle is not modelled. `parseICS` starts from the file's lines, and
  its `DateFormatter` is a function parameter that may fail.
- The clock (`Date()`) is a parameter, and so is the `UUID()` text of a new user event's id.
- GradeEntry, AbsenceRecord, SemesterArchive: the `id = UUID()` field is dropped, since grades,
  absences and archives are removed only by position, never by id.
- Instants are integer seconds with no daylight-saving shift. The `nil` branches of
  `date(byAdding:)` and `date(bySettingHour:)` cannot occur and are not modelled.
- Floating point is not modelled: the progress bar, the attendance percentage and the grade average.
  A grade's value and an archive's average are kept as text.
- The id of a feed event renders the start second as Swift prints a whole `Double`, "<n>.0". The
  model's instants fold the device's zone in, while `timeIntervalSince1970` counts UTC seconds, so
  a printed id differs from the app's by the zone offset. The id is still injective in the start,
  so no stated property depends on the offset.
- Resolver.SortByStartSpec: Swift's `sorted` does not document stability. The model keeps events
  with equal starts in their input order, as the standard library's sort does.
  `Resolver.SortByStartStable` proves that.
- Text.LowerChar, Text.Lower: only ASCII A-Z and the nine Polish capitals are lower-cased.
  `lowercased()` also maps the capitals of other scripts ("Ü", "É"), and those are kept as they are.
- Text.UpperChar, Text.Upper: only ASCII a-z and the nine Polish small letters are upper-cased.
  `uppercased()` maps every script, and some letters to two ("ß" to "SS"), so its length can change.
  The model's "keeps the length" holds only for the modelled letters.
- Text.InClass: Foundation's whitespace sets also hold U+1680, U+2000 to U+200A, U+202F and U+205F.
  The model leaves these out, so trimming keeps them.
- Text.Less and string equality compare code points. Swift compares strings by canonical
  equivalence, so a precomposed and a decomposed "ó" are equal there and different here.
- Resolver.Lecturers, Resolver.LecturersOfType: the model returns the set of lecturers. The source
  joins that set with ", " in the set's unspecified iteration order, and that text is not modelled.
- Resolver.TotalAttendanceStats: the percentage is floating point and is left out; only the two
  integer totals are stated.
- `filteredEvents` does not re-sort after applying custom times. The model follows the code, and
  `Resolver.TimeOverrideCanReorder` shows the effect.
- Notifications: the centre and ActivityKit are logs of commands. Request failures, permission
  prompts, sounds, and the asynchronous `end` of an activity are left out.
- The briefing text ("Plan na dziś", first start, last end) is
  built, but no property about its wording is stated.
- The widget does not decode JSON. The shared store holds the decoded value, or `None` when the list
  is missing or unreadable. `getSnapshot` is not part of this model.
- Views.AddEventSave: the "Wydarzenie" default title cannot be reached, because Save is disabled
  while the title is empty. The model requires a non-empty title.
- Views.ReminderTextReadsBack: a lead of 0 or less never reaches the text, because the reminder is
  gated on a positive lead.
- Colours, the theme, haptics, the card layout and `ContentView.swift` are not part of this model.
- EventKit export and calendar deletion are not part of this model.

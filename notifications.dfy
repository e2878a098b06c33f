/**
 * The local notifications the app asks the notification centre for, as
 * commands: add a request (an identifier, a text and a fire instant) or
 * cancel pending requests by identifier. `Pending` replays a command log into
 * the pending requests the centre then holds: an add replaces a pending
 * request with the same identifier, a cancel drops the named ones.
 *
 * Identifiers are namespaced by kind: the event id itself for the
 * "starting soon" reminder, `exam_5d_<id>`, `important_7d_<id>`,
 * `remind_<id>` and `briefing_<0..6>`.
 *
 * The planners read the schedule through the resolver's MyPlan list.
 */
module Notifications {
  import opened Wrappers
  import opened Text
  import opened Calendar
  import opened Models
  import opened Resolver

  // ---------------------------------------------------------------------------
  // Identifiers
  // ---------------------------------------------------------------------------

  function ExamId(id: string): string { "exam_5d_" + id }
  function ImportantId(id: string): string { "important_7d_" + id }
  function RemindId(id: string): string { "remind_" + id }
  function BriefingId(i: nat): string { "briefing_" + NatString(i) }

  /** The seven briefing slots `briefing_0` .. `briefing_6`. */
  function BriefingIds(): (ids: seq<string>)
    ensures |ids| == 7
    ensures forall i :: 0 <= i < 7 ==> ids[i] == BriefingId(i)
  {
    seq(7, i requires 0 <= i < 7 => BriefingId(i))
  }

  /** A prefix followed by a suffix determines the suffix. */
  lemma PrefixedInjective(p: string, a: string, b: string)
    requires p + a == p + b
    ensures a == b
  {
    assert a == (p + a)[|p|..];
    assert b == (p + b)[|p|..];
  }

  /**
   * The namespaces do not meet: exam, important, custom-reminder and
   * briefing identifiers differ from one another whatever the ids, and each
   * kind determines its event id (or its slot).
   */
  lemma IdentifierNamespaces(a: string, b: string, i: nat, j: nat)
    ensures ExamId(a) != ImportantId(b) && ExamId(a) != RemindId(b) && ExamId(a) != BriefingId(i)
    ensures ImportantId(a) != RemindId(b) && ImportantId(a) != BriefingId(i)
    ensures RemindId(a) != BriefingId(i)
    ensures ExamId(a) == ExamId(b) ==> a == b
    ensures ImportantId(a) == ImportantId(b) ==> a == b
    ensures RemindId(a) == RemindId(b) ==> a == b
    ensures BriefingId(i) == BriefingId(j) ==> i == j
  {
    assert ExamId(a)[0] == 'e' && ImportantId(b)[0] == 'i' && RemindId(b)[0] == 'r' && BriefingId(i)[0] == 'b';
    assert ImportantId(a)[0] == 'i' && RemindId(a)[0] == 'r';
    if ExamId(a) == ExamId(b) { PrefixedInjective("exam_5d_", a, b); }
    if ImportantId(a) == ImportantId(b) { PrefixedInjective("important_7d_", a, b); }
    if RemindId(a) == RemindId(b) { PrefixedInjective("remind_", a, b); }
    if BriefingId(i) == BriefingId(j) {
      PrefixedInjective("briefing_", NatString(i), NatString(j));
      NatStringRoundTrip(i);
      NatStringRoundTrip(j);
    }
  }

  // ---------------------------------------------------------------------------
  // Requests and the pending set
  // ---------------------------------------------------------------------------

  datatype Content = Content(title: string, body: string)

  /** One notification request; `fireAt` is the instant the calendar trigger matches. */
  datatype Request = Request(id: string, content: Content, fireAt: int)

  datatype Command = Add(request: Request) | Cancel(ids: seq<string>)

  /**
   * The instant a calendar trigger built from year, month, day, hour and
   * minute fires at: the seconds are dropped.
   */
  function TriggerMinute(t: int): (r: int)
    ensures r <= t < r + SecondsPerMinute
    ensures r % SecondsPerMinute == 0
  {
    t - t % SecondsPerMinute
  }

  /** The requests pending after a command log, by identifier. */
  function Pending(log: seq<Command>): map<string, Request> {
    if |log| == 0 then map[]
    else
      var before := Pending(log[..|log| - 1]);
      match log[|log| - 1]
      case Add(r) => before[r.id := r]
      case Cancel(ids) => map k | k in before && k !in ids :: before[k]
  }

  /** Every pending request is filed under its own identifier. */
  lemma {:induction false} PendingKeyedById(log: seq<Command>)
    ensures forall k :: k in Pending(log) ==> Pending(log)[k].id == k
  {
    if |log| > 0 {
      PendingKeyedById(log[..|log| - 1]);
    }
  }

  /** Add commands for each request, in order. */
  function Adds(reqs: seq<Request>): (cmds: seq<Command>)
    ensures |cmds| == |reqs|
    ensures forall k :: 0 <= k < |cmds| ==> cmds[k] == Add(reqs[k])
  {
    if |reqs| == 0 then [] else Adds(reqs[..|reqs| - 1]) + [Add(reqs[|reqs| - 1])]
  }

  /** The identifiers of `reqs`. */
  predicate IdsAmong(reqs: seq<Request>, ids: seq<string>) {
    forall r :: r in reqs ==> r.id in ids
  }

  /** Replaying adds on top of a log: the later request with an id wins. */
  lemma {:induction false} PendingAfterAdds(log: seq<Command>, reqs: seq<Request>)
    ensures forall k :: k in Pending(log + Adds(reqs)) <==> k in Pending(log) || exists r :: r in reqs && r.id == k
  {
    if |reqs| > 0 {
      var n := |reqs| - 1;
      PendingAfterAdds(log, reqs[..n]);
      assert log + Adds(reqs) == (log + Adds(reqs[..n])) + [Add(reqs[n])];
      assert (log + Adds(reqs))[..|log + Adds(reqs)| - 1] == log + Adds(reqs[..n]);
      assert forall r :: r in reqs <==> r in reqs[..n] || r == reqs[n];
    } else {
      assert log + Adds(reqs) == log;
    }
  }

  /** Adds replayed after a log depend only on the log's pending set. */
  lemma {:induction false} AddsDependOnPendingOnly(l1: seq<Command>, l2: seq<Command>, reqs: seq<Request>)
    requires Pending(l1) == Pending(l2)
    ensures Pending(l1 + Adds(reqs)) == Pending(l2 + Adds(reqs))
  {
    if |reqs| > 0 {
      var n := |reqs| - 1;
      AddsDependOnPendingOnly(l1, l2, reqs[..n]);
      assert l1 + Adds(reqs) == (l1 + Adds(reqs[..n])) + [Add(reqs[n])];
      assert l2 + Adds(reqs) == (l2 + Adds(reqs[..n])) + [Add(reqs[n])];
      assert (l1 + Adds(reqs))[..|l1 + Adds(reqs)| - 1] == l1 + Adds(reqs[..n]);
      assert (l2 + Adds(reqs))[..|l2 + Adds(reqs)| - 1] == l2 + Adds(reqs[..n]);
    } else {
      assert l1 + Adds(reqs) == l1;
      assert l2 + Adds(reqs) == l2;
    }
  }

  /**
   * Cancel-then-recreate is idempotent: when every recreated request's
   * identifier is among the cancelled ones, running the batch twice leaves
   * the same pending requests as running it once, so repeating it never
   * accumulates duplicates.
   */
  lemma ReconcileIdempotent(log: seq<Command>, ids: seq<string>, reqs: seq<Request>)
    requires IdsAmong(reqs, ids)
    ensures var batch := [Cancel(ids)] + Adds(reqs);
            Pending(log + batch + batch) == Pending(log + batch)
  {
    var batch := [Cancel(ids)] + Adds(reqs);
    var once := log + batch;
    var l1 := once + [Cancel(ids)];
    var l2 := log + [Cancel(ids)];
    assert once == l2 + Adds(reqs);
    CancelForgetsAdds(log, ids, reqs);
    AddsDependOnPendingOnly(l1, l2, reqs);
    assert log + batch + batch == l1 + Adds(reqs);
  }

  /** Cancelling `ids` again wipes whatever the adds under those ids put back. */
  lemma CancelForgetsAdds(log: seq<Command>, ids: seq<string>, reqs: seq<Request>)
    requires IdsAmong(reqs, ids)
    ensures Pending(log + [Cancel(ids)] + Adds(reqs) + [Cancel(ids)]) == Pending(log + [Cancel(ids)])
  {
    var once := log + [Cancel(ids)] + Adds(reqs);
    var l1 := once + [Cancel(ids)];
    var l2 := log + [Cancel(ids)];
    assert l1[..|l1| - 1] == once;
    assert l2[..|l2| - 1] == log;
    forall k | k in Pending(l1) ensures k in Pending(l2) && Pending(l1)[k] == Pending(l2)[k] {
      assert k !in ids;
      assert !(exists r :: r in reqs && r.id == k);
      PendingAfterAddsValue(l2, reqs, k);
    }
    forall k | k in Pending(l2) ensures k in Pending(l1) {
      assert k !in ids;
      assert !(exists r :: r in reqs && r.id == k);
      PendingAfterAddsValue(l2, reqs, k);
    }
  }

  /** An identifier none of the adds touches keeps its pending request. */
  lemma {:induction false} PendingAfterAddsValue(log: seq<Command>, reqs: seq<Request>, k: string)
    requires !(exists r :: r in reqs && r.id == k)
    ensures k in Pending(log + Adds(reqs)) <==> k in Pending(log)
    ensures k in Pending(log) ==> Pending(log + Adds(reqs))[k] == Pending(log)[k]
  {
    if |reqs| > 0 {
      var n := |reqs| - 1;
      assert forall r :: r in reqs[..n] ==> r in reqs;
      assert reqs[n] in reqs;
      PendingAfterAddsValue(log, reqs[..n], k);
      assert log + Adds(reqs) == (log + Adds(reqs[..n])) + [Add(reqs[n])];
      assert (log + Adds(reqs))[..|log + Adds(reqs)| - 1] == log + Adds(reqs[..n]);
    } else {
      assert log + Adds(reqs) == log;
    }
  }

  // ---------------------------------------------------------------------------
  // scheduleCustomNotif
  // ---------------------------------------------------------------------------

  /** `scheduleCustomNotif`: one request at the minute of `date`, only when `date` is after now. */
  function CustomNotif(id: string, title: string, body: string, date: int, now: int): (cmds: seq<Command>)
    ensures |cmds| <= 1
    ensures cmds != [] <==> date > now
    ensures cmds != [] ==> cmds[0] == Add(Request(id, Content(title, body), TriggerMinute(date)))
  {
    if date > now then [Add(Request(id, Content(title, body), TriggerMinute(date)))] else []
  }

  // ---------------------------------------------------------------------------
  // The "starting soon" reminders of scheduleNotifications
  // ---------------------------------------------------------------------------

  /** Half an hour, the lead of the "starting soon" reminder. */
  const ReminderLead: int := 30 * 60

  /** The title of an event's reminder: its kind, its category or type, and its title in capitals. */
  function ReminderTitle(e: AppEvent): string {
    if e.isUserCreated then
      var catName := if e.customCategory.Some? then Upper(e.customCategory.value)
                     else if e.category.Some? then Upper(e.category.value.Raw())
                     else "INNE";
      "W\U{0141}ASNE | " + catName + " | " + Upper(e.title)
    else
      var typeName := if e.classType.Some? then Upper(e.classType.value.Raw()) else "INNE";
      "ZAJ\U{0118}CIA | " + typeName + " | " + Upper(e.title)
  }

  /** The request for one event: its own id, at the minute half an hour before it starts. */
  function ReminderRequest(e: AppEvent): Request {
    Request(e.id, Content(ReminderTitle(e), "Zaczynaj\U{0105} si\U{0119} za 30 min w sali " + e.room),
            TriggerMinute(e.startTime - ReminderLead))
  }

  /** The adds for a batch of events: those whose reminder instant is still ahead. */
  function ReminderRequests(batch: seq<AppEvent>, now: int): (reqs: seq<Request>)
    ensures |reqs| <= |batch|
    ensures forall r :: r in reqs <==> exists e :: e in batch && e.startTime - ReminderLead > now && r == ReminderRequest(e)
  {
    if |batch| == 0 then []
    else
      var n := |batch| - 1;
      assert forall e :: e in batch <==> e in batch[..n] || e == batch[n];
      ReminderRequests(batch[..n], now)
      + (if batch[n].startTime - ReminderLead > now then [ReminderRequest(batch[n])] else [])
  }

  /** Every reminder fires after now, in the minute half an hour before its event starts. */
  lemma ReminderRequestsFireAhead(batch: seq<AppEvent>, now: int)
    ensures forall r :: r in ReminderRequests(batch, now) ==>
      exists e :: e in batch && r.id == e.id && r.fireAt == TriggerMinute(e.startTime - ReminderLead)
                && r.fireAt > now - SecondsPerMinute && e.startTime > now + ReminderLead
  {
  }

  // ---------------------------------------------------------------------------
  // scheduleMorningBriefings
  // ---------------------------------------------------------------------------

  /** A two-digit rendering of 0..99, as "HH" and "mm" print. */
  function TwoDigits(n: nat): (r: string)
    requires n < 100
    ensures |r| == 2 && AllDigits(r)
  {
    [DigitChar(n / 10), DigitChar(n % 10)]
  }

  /** "HH:mm" of an instant. */
  function ClockText(t: int): string {
    TwoDigits(HourOf(t)) + ":" + TwoDigits(MinuteOf(t))
  }

  /** The briefing text for one day's non-cancelled MyPlan events. */
  function BriefingContent(dayEvents: seq<AppEvent>): Content {
    if dayEvents == [] then
      Content("Dzie\U{0144} Dobry! \U{2600}\U{FE0F}",
              "\U{015A}pij spokojnie, dzisiaj masz ca\U{0142}kowicie wolne.")
    else
      Content("Plan na dzi\U{015B}: " + IntString(|dayEvents|) + " zaj\U{0119}\U{0107} \U{1F393}",
              "Zaczynasz o " + ClockText(dayEvents[0].startTime) + ", a ko\U{0144}czysz o "
              + ClockText(dayEvents[|dayEvents| - 1].endTime) + ". Powodzenia!")
  }

  /** 07:00 on day `i` counted from now. */
  function BriefingInstant(now: int, i: int): int {
    At0700(AddDays(now, i))
  }

  /** The 07:00 slot of day `i` is on that day and reads 07:00:00. */
  lemma BriefingInstantIsSevenAm(now: int, i: int)
    ensures DayOf(BriefingInstant(now, i)) == DayOf(now) + i
    ensures HourOf(BriefingInstant(now, i)) == 7 && MinuteOf(BriefingInstant(now, i)) == 0
    ensures BriefingInstant(now, i) % SecondsPerMinute == 0
  {
    SetHourMinuteReads(AddDays(now, i), 7, 0);
    AddDaysShiftsDay(now, i);
  }

  /** Day `i`'s MyPlan events (counted from now) that are not cancelled. */
  function BriefingDay(s: Schedule, cancelled: set<string>, now: int, i: int): seq<AppEvent> {
    Where(MyDay(s, AddDays(now, i)), (x: AppEvent) => x.id !in cancelled)
  }

  /** The briefing request of slot `i`. */
  function BriefingRequest(s: Schedule, cancelled: set<string>, now: int, i: nat): Request {
    Request(BriefingId(i), BriefingContent(BriefingDay(s, cancelled, now, i)), TriggerMinute(BriefingInstant(now, i)))
  }

  /** The briefing of slot `i` fires exactly at that slot's 07:00. */
  lemma BriefingFiresAtSlot(s: Schedule, cancelled: set<string>, now: int, i: nat)
    ensures BriefingRequest(s, cancelled, now, i).fireAt == BriefingInstant(now, i)
  {
    BriefingInstantIsSevenAm(now, i);
  }

  /**
   * The briefing requests of the first `n` slots: slot `i` is requested when
   * its 07:00 is not earlier than now, and fires exactly at that 07:00.
   */
  function BriefingRequests(s: Schedule, cancelled: set<string>, now: int, n: nat): seq<Request> {
    if n == 0 then []
    else
      BriefingRequests(s, cancelled, now, n - 1)
      + (if BriefingInstant(now, n - 1) >= now then [BriefingRequest(s, cancelled, now, n - 1)] else [])
  }

  /** At most one briefing per slot, each firing after now. */
  lemma {:induction false} BriefingRequestsBounded(s: Schedule, cancelled: set<string>, now: int, n: nat)
    ensures |BriefingRequests(s, cancelled, now, n)| <= n
    ensures forall r :: r in BriefingRequests(s, cancelled, now, n) ==> r.fireAt >= now
  {
    BriefingRequestsCount(s, cancelled, now, n);
    BriefingRequestsFuture(s, cancelled, now, n);
  }

  /** Each slot adds at most one briefing. */
  lemma {:induction false} BriefingRequestsCount(s: Schedule, cancelled: set<string>, now: int, n: nat)
    ensures |BriefingRequests(s, cancelled, now, n)| <= n
  {
    if n > 0 {
      BriefingRequestsCount(s, cancelled, now, n - 1);
    }
  }

  /** No briefing fires before now. */
  lemma {:induction false} BriefingRequestsFuture(s: Schedule, cancelled: set<string>, now: int, n: nat)
    ensures forall r :: r in BriefingRequests(s, cancelled, now, n) ==> r.fireAt >= now
  {
    if n > 0 {
      var m := n - 1;
      BriefingRequestsFuture(s, cancelled, now, m);
      BriefingFiresAtSlot(s, cancelled, now, m);
    }
  }

  /** Every briefing requested is that of a slot whose 07:00 is not earlier than now. */
  lemma {:induction false} BriefingRequestsFromSlots(s: Schedule, cancelled: set<string>, now: int, n: nat)
    ensures forall r :: r in BriefingRequests(s, cancelled, now, n) ==>
      exists i: nat :: i < n && BriefingInstant(now, i) >= now && r == BriefingRequest(s, cancelled, now, i)
  {
    if n > 0 {
      var m := n - 1;
      BriefingRequestsFromSlots(s, cancelled, now, m);
      var init := BriefingRequests(s, cancelled, now, m);
      var last := if BriefingInstant(now, m) >= now then [BriefingRequest(s, cancelled, now, m)] else [];
      assert BriefingRequests(s, cancelled, now, n) == init + last;
      forall r | r in last
        ensures exists i: nat :: i < n && BriefingInstant(now, i) >= now && r == BriefingRequest(s, cancelled, now, i)
      {
        assert m < n && BriefingInstant(now, m) >= now && r == BriefingRequest(s, cancelled, now, m);
      }
    }
  }

  /** Every slot whose 07:00 is not earlier than now has its briefing requested. */
  lemma {:induction false} BriefingRequestsCoverSlots(s: Schedule, cancelled: set<string>, now: int, n: nat)
    ensures forall i: nat :: i < n && BriefingInstant(now, i) >= now ==>
      BriefingRequest(s, cancelled, now, i) in BriefingRequests(s, cancelled, now, n)
  {
    if n > 0 {
      var m := n - 1;
      BriefingRequestsCoverSlots(s, cancelled, now, m);
      var init := BriefingRequests(s, cancelled, now, m);
      var last := if BriefingInstant(now, m) >= now then [BriefingRequest(s, cancelled, now, m)] else [];
      assert BriefingRequests(s, cancelled, now, n) == init + last;
      forall i: nat | i < n && BriefingInstant(now, i) >= now
        ensures BriefingRequest(s, cancelled, now, i) in init + last
      {
        if i == m {
          assert last == [BriefingRequest(s, cancelled, now, i)];
        }
      }
    }
  }

  /** Only the seven briefing slots are used, and rebuilding them twice equals rebuilding them once. */
  lemma BriefingsReplaceThemselves(s: Schedule, cancelled: set<string>, now: int, log: seq<Command>)
    ensures IdsAmong(BriefingRequests(s, cancelled, now, 7), BriefingIds())
    ensures var batch := [Cancel(BriefingIds())] + Adds(BriefingRequests(s, cancelled, now, 7));
            Pending(log + batch + batch) == Pending(log + batch)
  {
    var reqs := BriefingRequests(s, cancelled, now, 7);
    BriefingRequestsFromSlots(s, cancelled, now, 7);
    forall r | r in reqs ensures r.id in BriefingIds() {
      var i: nat :| i < 7 && BriefingInstant(now, i) >= now && r == BriefingRequest(s, cancelled, now, i);
      assert BriefingIds()[i] == r.id;
    }
    ReconcileIdempotent(log, BriefingIds(), reqs);
  }

  /** The events `scheduleNotifications` considers: the first 50 upcoming, non-cancelled MyPlan events. */
  function UpcomingBatch(s: Schedule, cancelled: set<string>, now: int): (batch: seq<AppEvent>)
    ensures |batch| <= 50
    ensures forall e :: e in batch ==> e in MyPlanList(s) && e.startTime > now && e.id !in cancelled
  {
    Prefix(Where(MyPlanList(s), (x: AppEvent) => x.startTime > now && x.id !in cancelled), 50)
  }

  /**
   * The batch is the qualifying MyPlan events in list order, cut after the
   * fiftieth: nothing is skipped, reordered or repeated.
   */
  lemma UpcomingBatchIsFirstQualifying(s: Schedule, cancelled: set<string>, now: int)
    ensures var q := Where(MyPlanList(s), (x: AppEvent) => x.startTime > now && x.id !in cancelled);
      UpcomingBatch(s, cancelled, now) == q[..if |q| <= 50 then |q| else 50]
  {
  }

  /** When at most 50 events qualify, the batch holds every one of them. */
  lemma UpcomingBatchComplete(s: Schedule, cancelled: set<string>, now: int)
    requires |Where(MyPlanList(s), (x: AppEvent) => x.startTime > now && x.id !in cancelled)| <= 50
    ensures forall x :: x in MyPlanList(s) && x.startTime > now && x.id !in cancelled ==> x in UpcomingBatch(s, cancelled, now)
  {
  }

  /** The ids of the whole catalog, which `scheduleNotifications` cancels first. */
  function CatalogIds(events: seq<AppEvent>): (ids: seq<string>)
    ensures |ids| == |events|
    ensures forall k :: 0 <= k < |ids| ==> ids[k] == events[k].id
  {
    seq(|events|, k requires 0 <= k < |events| => events[k].id)
  }

  /** Every reminder uses the id of a catalog event. */
  lemma ReminderIdsInCatalog(s: Schedule, cancelled: set<string>, now: int)
    ensures IdsAmong(ReminderRequests(UpcomingBatch(s, cancelled, now), now), CatalogIds(s.events))
  {
    var batch := UpcomingBatch(s, cancelled, now);
    var ids := CatalogIds(s.events);
    FilterSound(s, Query(None, MyPlan, ""), s.events);
    forall r | r in ReminderRequests(batch, now) ensures r.id in ids {
      var e :| e in batch && e.startTime - ReminderLead > now && r == ReminderRequest(e);
      assert e in MyPlanList(s);
      var c :| c in s.events && Keep(s, Query(None, MyPlan, ""), c) && e == ApplyOverrides(c, s.customRooms, s.customTimes);
      var k :| 0 <= k < |s.events| && s.events[k] == c;
      assert ids[k] == r.id;
    }
  }

  /**
   * `scheduleNotifications` cancels every catalog id and then adds at most 50
   * reminders under catalog ids, so running it twice equals running it once.
   */
  lemma ReminderPlanIdempotent(s: Schedule, cancelled: set<string>, now: int, log: seq<Command>)
    ensures var batch := [Cancel(CatalogIds(s.events))] + Adds(ReminderRequests(UpcomingBatch(s, cancelled, now), now));
      Pending(log + batch + batch) == Pending(log + batch)
  {
    ReminderIdsInCatalog(s, cancelled, now);
    ReconcileIdempotent(log, CatalogIds(s.events), ReminderRequests(UpcomingBatch(s, cancelled, now), now));
  }

  /** The commands `scheduleNotifications` issues: cancel every catalog id, then add the reminders. */
  function ReminderCommands(s: Schedule, cancelled: set<string>, now: int): seq<Command> {
    [Cancel(CatalogIds(s.events))] + Adds(ReminderRequests(UpcomingBatch(s, cancelled, now), now))
  }

  /** The commands `scheduleMorningBriefings` issues: cancel the seven slots, then add the briefings. */
  function BriefingCommands(s: Schedule, cancelled: set<string>, now: int): seq<Command> {
    [Cancel(BriefingIds())] + Adds(BriefingRequests(s, cancelled, now, 7))
  }

  /** Adding one more request adds one more command. */
  lemma AddsAppend(reqs: seq<Request>, r: Request)
    ensures Adds(reqs + [r]) == Adds(reqs) + [Add(r)]
  {
    assert (reqs + [r])[..|reqs|] == reqs;
  }

  /** One more event in the batch adds its request when its reminder instant is still ahead. */
  lemma ReminderRequestsStep(batch: seq<AppEvent>, i: nat, now: int)
    requires i < |batch|
    ensures ReminderRequests(batch[..i + 1], now)
            == ReminderRequests(batch[..i], now)
               + (if batch[i].startTime - ReminderLead > now then [ReminderRequest(batch[i])] else [])
  {
    assert batch[..i + 1][..i] == batch[..i];
  }

  /** One more slot adds its briefing when that slot's 07:00 is not earlier than now. */
  lemma BriefingRequestsStep(s: Schedule, cancelled: set<string>, now: int, i: nat)
    ensures BriefingRequests(s, cancelled, now, i + 1)
            == BriefingRequests(s, cancelled, now, i)
               + (if BriefingInstant(now, i) >= now then [BriefingRequest(s, cancelled, now, i)] else [])
  {
  }
}

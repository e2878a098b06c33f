/**
 * The live-activity decision of `manageLiveActivity`, lifted out as a pure
 * transition: from the feature flag, the clock, today's MyPlan list, the
 * cancelled ids and the activities the system lists as running, it decides
 * which activities to end and which one (if any) to start.
 *
 * Ends are requested asynchronously in the app, so the start test reads the
 * list as it was before the tick.
 */
module LiveActivity {
  import opened Wrappers
  import opened Models

  /** An event that can be the current one: running at `now` and not cancelled. */
  predicate Qualifies(e: AppEvent, cancelled: set<string>, now: int) {
    IsHappeningNow(e, now) && e.id !in cancelled
  }

  /** The current event: the first qualifying event of today's list. */
  function CurrentEvent(today: seq<AppEvent>, cancelled: set<string>, now: int): (r: Option<AppEvent>)
    ensures r.None? <==> forall e :: e in today ==> !Qualifies(e, cancelled, now)
    ensures r.Some? ==> exists k :: 0 <= k < |today| && today[k] == r.value && Qualifies(r.value, cancelled, now)
                                 && forall j :: 0 <= j < k ==> !Qualifies(today[j], cancelled, now)
  {
    if |today| == 0 then None
    else if Qualifies(today[0], cancelled, now) then
      assert today[0] == today[0];
      Some(today[0])
    else
      var r := CurrentEvent(today[1..], cancelled, now);
      assert forall e :: e in today <==> e == today[0] || e in today[1..];
      if r.Some? then
        var k :| 0 <= k < |today[1..]| && today[1..][k] == r.value && Qualifies(r.value, cancelled, now)
                 && forall j :: 0 <= j < k ==> !Qualifies(today[1..][j], cancelled, now);
        assert today[k + 1] == r.value;
        assert forall j :: 0 < j < k + 1 ==> today[j] == today[1..][j - 1];
        r
      else r
  }

  /** The attributes a started activity records: title, room, times and the raw type ("Inne" without one). */
  function AttributesOf(e: AppEvent): (a: LiveClassAttributes)
    ensures a.className == e.title && a.room == e.room && a.startTime == e.startTime && a.endTime == e.endTime
    ensures ClassTypeFromRaw(a.typeName) == Some(if e.classType.Some? then e.classType.value else Unknown)
    ensures e.classType.None? ==> a.typeName == "Inne"
  {
    LiveClassAttributes(e.title, e.room, e.startTime, e.endTime,
                        if e.classType.Some? then e.classType.value.Raw() else "Inne")
  }

  /** A running activity is ended when its class is over, or there is no current class, or the current class is another. */
  predicate ShouldEnd(a: LiveClassAttributes, now: int, current: Option<AppEvent>) {
    now >= a.endTime || current.None? || a.className != current.value.title
  }

  /** The activities of `active` to end, in list order. */
  function Ending(active: seq<LiveClassAttributes>, now: int, current: Option<AppEvent>): (r: seq<LiveClassAttributes>)
    ensures |r| <= |active|
    ensures forall a :: a in r <==> a in active && ShouldEnd(a, now, current)
    ensures (forall a :: a in active ==> !ShouldEnd(a, now, current)) ==> r == []
  {
    if |active| == 0 then []
    else
      var n := |active| - 1;
      assert forall a :: a in active <==> a in active[..n] || a == active[n];
      Ending(active[..n], now, current) + (if ShouldEnd(active[n], now, current) then [active[n]] else [])
  }

  /** What one tick does. */
  datatype Tick = Tick(toEnd: seq<LiveClassAttributes>, toStart: Option<LiveClassAttributes>)

  /** Some running activity already shows a class of this title. */
  predicate Showing(active: seq<LiveClassAttributes>, title: string) {
    exists a :: a in active && a.className == title
  }

  /** One tick of `manageLiveActivity`. */
  function LiveTick(enabled: bool, now: int, today: seq<AppEvent>, cancelled: set<string>,
                    active: seq<LiveClassAttributes>): Tick {
    if !enabled then Tick(active, None)
    else
      var current := CurrentEvent(today, cancelled, now);
      var ends := Ending(active, now, current);
      if current.Some? && !Showing(active, current.value.title) then Tick(ends, Some(AttributesOf(current.value)))
      else Tick(ends, None)
  }

  /** The activities running once the tick's commands have taken effect. */
  function AfterTick(active: seq<LiveClassAttributes>, t: Tick): seq<LiveClassAttributes> {
    Survivors(active, t.toEnd) + (if t.toStart.Some? then [t.toStart.value] else [])
  }

  /** The activities of `active` not in `ended`. */
  function Survivors(active: seq<LiveClassAttributes>, ended: seq<LiveClassAttributes>): (r: seq<LiveClassAttributes>)
    ensures forall a :: a in r <==> a in active && a !in ended
    ensures |r| <= |active|
    ensures (forall a :: a in active ==> a in ended) ==> r == []
  {
    if |active| == 0 then []
    else
      var n := |active| - 1;
      assert forall a :: a in active <==> a in active[..n] || a == active[n];
      Survivors(active[..n], ended) + (if active[n] in ended then [] else [active[n]])
  }

  /** With the feature off, every running activity is ended and none is started. */
  lemma DisabledEndsEverything(now: int, today: seq<AppEvent>, cancelled: set<string>, active: seq<LiveClassAttributes>)
    ensures LiveTick(false, now, today, cancelled, active) == Tick(active, None)
    ensures AfterTick(active, LiveTick(false, now, today, cancelled, active)) == []
  {
  }

  /**
   * With the feature on, a running activity is ended exactly when its class
   * is over or is not the current one; a start carries the current event's
   * attributes and happens exactly when no running activity has its title.
   */
  lemma TickDecision(now: int, today: seq<AppEvent>, cancelled: set<string>, active: seq<LiveClassAttributes>)
    ensures var t, current := LiveTick(true, now, today, cancelled, active), CurrentEvent(today, cancelled, now);
      && (forall a :: a in t.toEnd <==> a in active && ShouldEnd(a, now, current))
      && (t.toStart.Some? <==> current.Some? && !Showing(active, current.value.title))
      && (t.toStart.Some? ==> t.toStart.value == AttributesOf(current.value))
  {
  }

  /** No two running activities show the same class. */
  predicate DistinctTitles(active: seq<LiveClassAttributes>) {
    forall i, j :: 0 <= i < j < |active| ==> active[i].className != active[j].className
  }

  /**
   * If the running activities show distinct classes, at most one activity
   * runs after a tick, and it shows the current class.
   */
  lemma AtMostOneAfterTick(enabled: bool, now: int, today: seq<AppEvent>, cancelled: set<string>,
                           active: seq<LiveClassAttributes>)
    requires DistinctTitles(active)
    ensures var after := AfterTick(active, LiveTick(enabled, now, today, cancelled, active));
      && |after| <= 1
      && (after != [] ==> enabled && CurrentEvent(today, cancelled, now).Some?
                          && after[0].className == CurrentEvent(today, cancelled, now).value.title)
  {
    var t := LiveTick(enabled, now, today, cancelled, active);
    var current := CurrentEvent(today, cancelled, now);
    var rest := Survivors(active, t.toEnd);
    if !enabled {
      DisabledEndsEverything(now, today, cancelled, active);
    } else if rest != [] {
      SurvivorsDistinct(active, t.toEnd);
      assert rest[0] in rest;
      assert Showing(active, current.value.title);
      DistinctTitlesDiffer(rest, current.value.title);
    }
  }

  /** Among two or more activities with distinct classes, some activity shows a class other than `title`. */
  lemma DistinctTitlesDiffer(xs: seq<LiveClassAttributes>, title: string)
    requires DistinctTitles(xs)
    ensures |xs| >= 2 ==> exists a :: a in xs && a.className != title
  {
    if |xs| >= 2 {
      assert xs[0] in xs && xs[1] in xs;
    }
  }

  /** Survivors of a list of distinct classes show distinct classes. */
  lemma {:induction false} SurvivorsDistinct(active: seq<LiveClassAttributes>, ended: seq<LiveClassAttributes>)
    requires DistinctTitles(active)
    ensures DistinctTitles(Survivors(active, ended))
  {
    if |active| > 0 {
      var n := |active| - 1;
      var init := Survivors(active[..n], ended);
      assert DistinctTitles(active[..n]);
      SurvivorsDistinct(active[..n], ended);
      if active[n] !in ended {
        var r := init + [active[n]];
        forall i, j | 0 <= i < j < |r| ensures r[i].className != r[j].className {
          if j == |init| {
            assert r[i] in active[..n];
            var k :| 0 <= k < n && active[..n][k] == r[i];
            assert active[k] == r[i];
          } else {
            assert r[i] == init[i] && r[j] == init[j];
          }
        }
      }
    }
  }

  /**
   * Polling again with the same inputs changes nothing: no end and no start,
   * provided the current class has not reached its last second and no
   * finished activity of the same title held its start back.
   */
  lemma TickIsStable(now: int, today: seq<AppEvent>, cancelled: set<string>, active: seq<LiveClassAttributes>)
    requires var current := CurrentEvent(today, cancelled, now);
      current.Some? ==>
        && now < current.value.endTime
        && forall a :: a in active && a.className == current.value.title ==> now < a.endTime
    ensures var after := AfterTick(active, LiveTick(true, now, today, cancelled, active));
            LiveTick(true, now, today, cancelled, after) == Tick([], None)
  {
    var current := CurrentEvent(today, cancelled, now);
    var t := LiveTick(true, now, today, cancelled, active);
    var ends := Ending(active, now, current);
    var after := AfterTick(active, t);
    assert t.toEnd == ends;
    if current.None? {
      assert t.toStart.None?;
      assert Survivors(active, ends) == [];
      assert after == [];
    } else {
      var title := current.value.title;
      assert forall a :: a in after ==> a in Survivors(active, ends) || Some(a) == t.toStart;
      assert forall a :: a in after ==> !ShouldEnd(a, now, current);
      assert Ending(after, now, current) == [];
      if t.toStart.Some? {
        assert t.toStart.value in after;
        assert Showing(after, title);
      } else {
        var a :| a in active && a.className == title;
        assert !ShouldEnd(a, now, current);
        assert a in after;
        assert Showing(after, title);
      }
    }
  }

  /**
   * At the very second a class ends it still counts as happening, so a tick
   * then starts its activity, and the next tick at that second ends it again
   * without restarting it.
   */
  lemma LastSecondFlaps(e: AppEvent)
    requires e.startTime <= e.endTime
    ensures var first := LiveTick(true, e.endTime, [e], {}, []);
            && first == Tick([], Some(AttributesOf(e)))
            && LiveTick(true, e.endTime, [e], {}, [AttributesOf(e)]) == Tick([AttributesOf(e)], None)
  {
    assert Qualifies(e, {}, e.endTime);
    assert Showing([AttributesOf(e)], e.title) by {
      assert AttributesOf(e) in [AttributesOf(e)];
    }
    assert [AttributesOf(e)][..0] == [];
  }

  /**
   * The A-to-B hand-over: once the clock is past A's end and inside B's
   * window, one tick ends A's activity and starts B's, and after it only B's
   * runs.
   */
  lemma HandOver(a: AppEvent, b: AppEvent, now: int, cancelled: set<string>)
    requires a.title != b.title && now >= a.endTime
    requires Qualifies(b, cancelled, now) && !Qualifies(a, cancelled, now)
    ensures var t := LiveTick(true, now, [a, b], cancelled, [AttributesOf(a)]);
            && t == Tick([AttributesOf(a)], Some(AttributesOf(b)))
            && AfterTick([AttributesOf(a)], t) == [AttributesOf(b)]
  {
    var attrA := AttributesOf(a);
    assert [a, b][1..] == [b];
    assert CurrentEvent([a, b], cancelled, now) == CurrentEvent([b], cancelled, now);
    assert CurrentEvent([b], cancelled, now) == Some(b);
    assert !Showing([attrA], b.title) by {
      forall x | x in [attrA] ensures x.className != b.title {
        assert x == attrA;
      }
    }
    assert [attrA][..0] == [];
    assert ShouldEnd(attrA, now, Some(b));
    assert Ending([attrA], now, Some(b)) == [attrA];
    assert Survivors([attrA], [attrA]) == [];
  }

  /** A finished activity with the current class's title is ended, and holds the new start back for this tick. */
  lemma FinishedSameTitleDelaysStart(e: AppEvent, stale: LiveClassAttributes, now: int)
    requires Qualifies(e, {}, now) && stale.className == e.title && now >= stale.endTime
    ensures LiveTick(true, now, [e], {}, [stale]) == Tick([stale], None)
  {
    assert stale in [stale];
    assert [stale][..0] == [];
  }

  /** What the app asks ActivityKit for. */
  datatype ActivityCommand = End(attributes: LiveClassAttributes) | Start(attributes: LiveClassAttributes)

  /** The tick as commands: every end first, then the start. */
  function TickCommands(t: Tick): (cmds: seq<ActivityCommand>)
    ensures |cmds| == |t.toEnd| + (if t.toStart.Some? then 1 else 0)
    ensures forall k :: 0 <= k < |t.toEnd| ==> cmds[k] == End(t.toEnd[k])
  {
    EndCommands(t.toEnd) + (if t.toStart.Some? then [Start(t.toStart.value)] else [])
  }

  function EndCommands(xs: seq<LiveClassAttributes>): (cmds: seq<ActivityCommand>)
    ensures |cmds| == |xs|
    ensures forall k :: 0 <= k < |xs| ==> cmds[k] == End(xs[k])
  {
    seq(|xs|, k requires 0 <= k < |xs| => End(xs[k]))
  }

  /** Ending one more activity adds one more command. */
  lemma EndCommandsAppend(xs: seq<LiveClassAttributes>, a: LiveClassAttributes)
    ensures EndCommands(xs + [a]) == EndCommands(xs) + [End(a)]
  {
  }
}

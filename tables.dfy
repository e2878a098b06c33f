/**
 * The id-keyed tables of the data manager as values, and what each table
 * operation does to them. The `DataManager` class applies these and keeps
 * the invariants proved here.
 */
module Tables {
  import opened Wrappers
  import opened Calendar
  import opened Models
  import opened Resolver
  import opened Notifications

  // ---------------------------------------------------------------------------
  // Exam and important marks
  // ---------------------------------------------------------------------------

  /** The two mark sets. */
  datatype Marks = Marks(exams: set<string>, important: set<string>)

  /** Every id whose marks may differ between `m` and `r` is `id`. */
  ghost predicate OnlyTouches(m: Marks, r: Marks, id: string) {
    forall x :: x != id ==> (x in r.exams <==> x in m.exams) && (x in r.important <==> x in m.important)
  }

  /**
   * `toggleExam`: flips the exam mark of `id`; marking it also removes its
   * important mark, unmarking it leaves that alone.
   */
  function ToggleExamMarks(m: Marks, id: string): (r: Marks)
    ensures id in r.exams <==> id !in m.exams
    ensures id in r.exams ==> id !in r.important
    ensures id !in r.exams ==> (id in r.important <==> id in m.important)
    ensures OnlyTouches(m, r, id)
    ensures m.exams !! m.important ==> r.exams !! r.important
  {
    if id in m.exams then Marks(m.exams - {id}, m.important)
    else Marks(m.exams + {id}, m.important - {id})
  }

  /**
   * `toggleImportant`: flips the important mark of `id`; marking it also
   * removes its exam mark, unmarking it leaves that alone.
   */
  function ToggleImportantMarks(m: Marks, id: string): (r: Marks)
    ensures id in r.important <==> id !in m.important
    ensures id in r.important ==> id !in r.exams
    ensures id !in r.important ==> (id in r.exams <==> id in m.exams)
    ensures OnlyTouches(m, r, id)
    ensures m.exams !! m.important ==> r.exams !! r.important
  {
    if id in m.important then Marks(m.exams, m.important - {id})
    else Marks(m.exams - {id}, m.important + {id})
  }

  /** Toggling the exam mark twice restores the marks when `id` was not marked important. */
  lemma ExamToggleTwice(m: Marks, id: string)
    requires id !in m.important
    ensures ToggleExamMarks(ToggleExamMarks(m, id), id) == m
  {
    var once := ToggleExamMarks(m, id);
    var twice := ToggleExamMarks(once, id);
    assert twice.exams == m.exams;
    assert twice.important == m.important;
  }

  /** `toggleCancel`: flips the membership of `id` and of no other id. */
  function Toggled(s: set<string>, id: string): (r: set<string>)
    ensures id in r <==> id !in s
    ensures forall x :: x != id ==> (x in r <==> x in s)
  {
    if id in s then s - {id} else s + {id}
  }

  // ---------------------------------------------------------------------------
  // The reminders the two toggles schedule
  // ---------------------------------------------------------------------------

  /** The exam reminder fires five days before the event, the important one seven. */
  const ExamLead: int := 5 * 24 * 3600
  const ImportantLead: int := 7 * 24 * 3600

  const ExamTitle: string := "\U{1F6A8} Kolokwium za 5 dni!"
  const ImportantTitle: string := "\U{2B50} Wa\U{017C}ne zaj\U{0119}cia za tydzie\U{0144}!"

  function ExamBody(title: string): string { "Czas zacz\U{0105}\U{0107} nauk\U{0119} do: " + title }
  function ImportantBody(title: string): string { "Przypomnienie: " + title }

  /** The exam reminder request of an event. */
  function ExamReminder(id: string, e: AppEvent): Request {
    Request(ExamId(id), Content(ExamTitle, ExamBody(e.title)), TriggerMinute(e.startTime - ExamLead))
  }

  /** The important reminder request of an event. */
  function ImportantReminder(id: string, e: AppEvent): Request {
    Request(ImportantId(id), Content(ImportantTitle, ImportantBody(e.title)), TriggerMinute(e.startTime - ImportantLead))
  }

  /** The notification commands of `toggleExam`, given whether `id` was marked as an exam. */
  function ExamToggleCommands(wasMarked: bool, id: string, e: AppEvent, now: int): seq<Command> {
    if wasMarked then [Cancel([ExamId(id)])]
    else [Cancel([ImportantId(id)])]
         + CustomNotif(ExamId(id), ExamTitle, ExamBody(e.title), e.startTime - ExamLead, now)
  }

  /** The notification commands of `toggleImportant`, given whether `id` was marked important. */
  function ImportantToggleCommands(wasMarked: bool, id: string, e: AppEvent, now: int): seq<Command> {
    if wasMarked then [Cancel([ImportantId(id)])]
    else [Cancel([ExamId(id)])]
         + CustomNotif(ImportantId(id), ImportantTitle, ImportantBody(e.title), e.startTime - ImportantLead, now)
  }

  /** One add on top of a log. */
  lemma PendingAdd(log: seq<Command>, r: Request)
    ensures Pending(log + [Add(r)]) == Pending(log)[r.id := r]
  {
    assert (log + [Add(r)])[..|log|] == log;
  }

  /** One cancel on top of a log. */
  lemma PendingCancel(log: seq<Command>, ids: seq<string>)
    ensures forall k :: k in Pending(log + [Cancel(ids)]) <==> k in Pending(log) && k !in ids
    ensures forall k :: k in Pending(log + [Cancel(ids)]) ==> Pending(log + [Cancel(ids)])[k] == Pending(log)[k]
  {
    assert (log + [Cancel(ids)])[..|log|] == log;
  }

  /** The pending requests `p` and `q` agree on every identifier other than `a` and `b`. */
  ghost predicate SameElsewhere(p: map<string, Request>, q: map<string, Request>, a: string, b: string) {
    forall k :: k != a && k != b ==> (k in p <==> k in q) && (k in p ==> p[k] == q[k])
  }

  /** Cancelling one identifier and then perhaps adding one request under `a`. */
  lemma CancelThenMaybeAdd(log: seq<Command>, b: string, a: string, date: int, now: int, title: string, body: string)
    requires a != b
    ensures var p := Pending(log + [Cancel([b])] + CustomNotif(a, title, body, date, now));
      && b !in p
      && (a in p <==> date > now || a in Pending(log))
      && (date > now ==> p[a] == Request(a, Content(title, body), TriggerMinute(date)))
      && SameElsewhere(p, Pending(log), a, b)
  {
    var l := log + [Cancel([b])];
    PendingCancel(log, [b]);
    if date > now {
      var r := Request(a, Content(title, body), TriggerMinute(date));
      PendingAdd(l, r);
      assert l + CustomNotif(a, title, body, date, now) == l + [Add(r)];
    } else {
      assert l + CustomNotif(a, title, body, date, now) == l;
    }
  }

  /**
   * `toggleExam` on the notification centre: unmarking cancels the exam
   * reminder; marking cancels the important reminder and requests the exam
   * reminder at start − 5 days exactly when that is after now. No other
   * request changes.
   */
  lemma ExamToggleEffect(log: seq<Command>, wasMarked: bool, id: string, e: AppEvent, now: int)
    ensures var p := Pending(log + ExamToggleCommands(wasMarked, id, e, now));
      && (wasMarked ==> ExamId(id) !in p && (ImportantId(id) in p <==> ImportantId(id) in Pending(log)))
      && (!wasMarked ==> ImportantId(id) !in p)
      && (!wasMarked && e.startTime - ExamLead > now ==> ExamId(id) in p && p[ExamId(id)] == ExamReminder(id, e))
      && SameElsewhere(p, Pending(log), ExamId(id), ImportantId(id))
  {
    IdentifierNamespaces(id, id, 0, 0);
    if wasMarked {
      PendingCancel(log, [ExamId(id)]);
    } else {
      CancelThenMaybeAdd(log, ImportantId(id), ExamId(id), e.startTime - ExamLead, now, ExamTitle, ExamBody(e.title));
      assert log + ExamToggleCommands(wasMarked, id, e, now)
          == log + [Cancel([ImportantId(id)])] + CustomNotif(ExamId(id), ExamTitle, ExamBody(e.title), e.startTime - ExamLead, now);
    }
  }

  /** `toggleImportant` on the notification centre, the mirror image of `ExamToggleEffect`. */
  lemma ImportantToggleEffect(log: seq<Command>, wasMarked: bool, id: string, e: AppEvent, now: int)
    ensures var p := Pending(log + ImportantToggleCommands(wasMarked, id, e, now));
      && (wasMarked ==> ImportantId(id) !in p && (ExamId(id) in p <==> ExamId(id) in Pending(log)))
      && (!wasMarked ==> ExamId(id) !in p)
      && (!wasMarked && e.startTime - ImportantLead > now ==> ImportantId(id) in p && p[ImportantId(id)] == ImportantReminder(id, e))
      && SameElsewhere(p, Pending(log), ImportantId(id), ExamId(id))
  {
    IdentifierNamespaces(id, id, 0, 0);
    if wasMarked {
      PendingCancel(log, [ImportantId(id)]);
    } else {
      CancelThenMaybeAdd(log, ExamId(id), ImportantId(id), e.startTime - ImportantLead, now, ImportantTitle, ImportantBody(e.title));
      assert log + ImportantToggleCommands(wasMarked, id, e, now)
          == log + [Cancel([ExamId(id)])] + CustomNotif(ImportantId(id), ImportantTitle, ImportantBody(e.title), e.startTime - ImportantLead, now);
    }
  }

  /**
   * Marking an unmarked event as an exam and then as important leaves it
   * important only, with the seven-day reminder pending exactly when that
   * reminder is still ahead, and the five-day one gone.
   */
  lemma ExamThenImportant(m: Marks, log: seq<Command>, id: string, e: AppEvent, now: int)
    requires id !in m.exams && id !in m.important
    ensures var r := ToggleImportantMarks(ToggleExamMarks(m, id), id);
            id in r.important && id !in r.exams
    ensures var p := Pending(log + ExamToggleCommands(false, id, e, now) + ImportantToggleCommands(false, id, e, now));
      && ExamId(id) !in p
      && (ImportantId(id) in p <==> e.startTime - ImportantLead > now)
  {
    var mid := log + ExamToggleCommands(false, id, e, now);
    ExamToggleEffect(log, false, id, e, now);
    ImportantToggleEffect(mid, false, id, e, now);
    IdentifierNamespaces(id, id, 0, 0);
    var l := mid + [Cancel([ExamId(id)])];
    PendingCancel(mid, [ExamId(id)]);
    assert ImportantId(id) !in Pending(l);
    if e.startTime - ImportantLead <= now {
      assert mid + ImportantToggleCommands(false, id, e, now) == l;
    }
  }

  // ---------------------------------------------------------------------------
  // Notes and rooms
  // ---------------------------------------------------------------------------

  /** No entry holds the empty string. */
  predicate NoEmptyValues(m: map<string, string>) {
    forall k :: k in m ==> m[k] != ""
  }

  /** `saveNote` / `saveRoom`: the empty text deletes the entry, any other text replaces it. */
  function SetOrDelete(m: map<string, string>, id: string, text: string): (r: map<string, string>)
    ensures id in r <==> text != ""
    ensures id in r ==> r[id] == text
    ensures forall k :: k != id ==> (k in r <==> k in m) && (k in r ==> r[k] == m[k])
    ensures NoEmptyValues(m) ==> NoEmptyValues(r)
  {
    if text == "" then m - {id} else m[id := text]
  }

  // ---------------------------------------------------------------------------
  // Lists with removal by offsets (grades, archives)
  // ---------------------------------------------------------------------------

  /** Every offset is a position of `xs`, as `remove(atOffsets:)` requires. */
  predicate OffsetsIn<T>(offsets: set<int>, xs: seq<T>) {
    forall o :: o in offsets ==> 0 <= o < |xs|
  }

  /** The positions below `n` that are not in `offsets`, in increasing order. */
  function KeptPositions(n: nat, offsets: set<int>): (ks: seq<nat>)
    ensures forall k :: 0 <= k < |ks| ==> ks[k] < n && ks[k] !in offsets
    ensures forall k, l :: 0 <= k < l < |ks| ==> ks[k] < ks[l]
    ensures forall i :: 0 <= i < n && i !in offsets ==> i in ks
  {
    if n == 0 then [] else KeptPositions(n - 1, offsets) + (if n - 1 in offsets then [] else [n - 1])
  }

  /** An offset at or beyond `n` does not change which positions below `n` are kept. */
  lemma {:induction false} KeptPositionsBelow(n: nat, offsets: set<int>, m: int)
    requires n <= m
    ensures KeptPositions(n, offsets - {m}) == KeptPositions(n, offsets)
  {
    if n > 0 {
      KeptPositionsBelow(n - 1, offsets, m);
      assert (n - 1 in offsets - {m}) == (n - 1 in offsets);
    }
  }

  /** `remove(atOffsets:)`: drops the positions in `offsets` and keeps the others, in order. */
  function RemoveOffsets<T(==)>(xs: seq<T>, offsets: set<int>): (r: seq<T>)
    ensures forall x :: x in r ==> x in xs
    ensures forall i :: 0 <= i < |xs| && i !in offsets ==> xs[i] in r
    ensures OffsetsIn(offsets, xs) ==> |r| == |xs| - |offsets|
  {
    if |xs| == 0 then
      assert OffsetsIn(offsets, xs) ==> offsets == {} by {
        if OffsetsIn(offsets, xs) {
          assert forall o :: o !in offsets;
        }
      }
      []
    else
      var n := |xs| - 1;
      var init := RemoveOffsets(xs[..n], offsets - {n});
      assert forall i :: 0 <= i < n ==> xs[..n][i] == xs[i];
      assert OffsetsIn(offsets, xs) ==> OffsetsIn(offsets - {n}, xs[..n]);
      assert n in offsets ==> offsets == (offsets - {n}) + {n};
      assert n !in offsets ==> offsets - {n} == offsets;
      init + (if n in offsets then [] else [xs[n]])
  }

  /** The k-th survivor of `remove(atOffsets:)` is the element at the k-th kept position. */
  lemma {:induction false} RemoveOffsetsKeepsPositions<T>(xs: seq<T>, offsets: set<int>)
    ensures var r, ks := RemoveOffsets(xs, offsets), KeptPositions(|xs|, offsets);
      |r| == |ks| && forall k :: 0 <= k < |r| ==> r[k] == xs[ks[k]]
  {
    if |xs| > 0 {
      var n := |xs| - 1;
      var init, ks0 := RemoveOffsets(xs[..n], offsets - {n}), KeptPositions(n, offsets - {n});
      RemoveOffsetsKeepsPositions(xs[..n], offsets - {n});
      KeptPositionsBelow(n, offsets, n);
      var last := if n in offsets then [] else [xs[n]];
      var lastK: seq<nat> := if n in offsets then [] else [n];
      assert RemoveOffsets(xs, offsets) == init + last;
      assert KeptPositions(|xs|, offsets) == ks0 + lastK;
      forall k | 0 <= k < |init|
        ensures (init + last)[k] == xs[(ks0 + lastK)[k]]
      {
        assert ks0[k] < n;
      }
    }
  }

  /** Every subject holds at least one grade. */
  predicate NoEmptyGradeLists(g: map<string, seq<GradeEntry>>) {
    forall s :: s in g ==> g[s] != []
  }

  /** The grades of a subject, none when the subject has no entry. */
  function GradesOf(g: map<string, seq<GradeEntry>>, subject: string): seq<GradeEntry> {
    if subject in g then g[subject] else []
  }

  /** `addGrade`: appends the entry to the subject's list, creating the list when needed. */
  function WithGrade(g: map<string, seq<GradeEntry>>, subject: string, entry: GradeEntry): (r: map<string, seq<GradeEntry>>)
    ensures GradesOf(r, subject) == GradesOf(g, subject) + [entry]
    ensures forall s :: s != subject ==> (s in r <==> s in g) && GradesOf(r, s) == GradesOf(g, s)
    ensures NoEmptyGradeLists(g) ==> NoEmptyGradeLists(r)
  {
    g[subject := GradesOf(g, subject) + [entry]]
  }

  /**
   * `deleteGrades`: removes the given positions from the subject's list and
   * drops the subject once its list is empty.
   */
  function WithoutGrades(g: map<string, seq<GradeEntry>>, subject: string, offsets: set<int>): (r: map<string, seq<GradeEntry>>)
    requires OffsetsIn(offsets, GradesOf(g, subject))
    ensures |GradesOf(r, subject)| == |GradesOf(g, subject)| - (if subject in g then |offsets| else 0)
    ensures subject in g ==> GradesOf(r, subject) == RemoveOffsets(g[subject], offsets)
    ensures forall x :: x in GradesOf(r, subject) ==> x in GradesOf(g, subject)
    ensures forall s :: s != subject ==> (s in r <==> s in g) && GradesOf(r, s) == GradesOf(g, s)
    ensures NoEmptyGradeLists(g) ==> NoEmptyGradeLists(r)
  {
    if subject in g then
      var rest := RemoveOffsets(g[subject], offsets);
      if rest == [] then g - {subject} else g[subject := rest]
    else g
  }

  // ---------------------------------------------------------------------------
  // Absences
  // ---------------------------------------------------------------------------

  /** Newest first. */
  predicate NewestFirst(xs: seq<AbsenceRecord>) {
    forall i, j :: 0 <= i < j < |xs| ==> xs[i].date >= xs[j].date
  }

  /**
   * Appending a record and re-sorting newest first: the record goes after
   * every record that is not older than it.
   */
  function InsertNewestFirst(x: AbsenceRecord, xs: seq<AbsenceRecord>): seq<AbsenceRecord> {
    if |xs| == 0 || xs[0].date < x.date then [x] + xs
    else [xs[0]] + InsertNewestFirst(x, xs[1..])
  }

  /** The insertion adds exactly the one record. */
  lemma {:induction false} InsertNewestFirstPermutes(x: AbsenceRecord, xs: seq<AbsenceRecord>)
    ensures multiset(InsertNewestFirst(x, xs)) == multiset(xs) + multiset{x}
    ensures |InsertNewestFirst(x, xs)| == |xs| + 1
  {
    if |xs| > 0 && xs[0].date >= x.date {
      InsertNewestFirstPermutes(x, xs[1..]);
      assert xs == [xs[0]] + xs[1..];
    }
  }

  /** A date no older than the record and every listed record stays no older than every inserted one. */
  lemma {:induction false} InsertNewestFirstBounded(x: AbsenceRecord, xs: seq<AbsenceRecord>, date: int)
    requires date >= x.date
    requires forall i :: 0 <= i < |xs| ==> date >= xs[i].date
    ensures forall i :: 0 <= i < |InsertNewestFirst(x, xs)| ==> date >= InsertNewestFirst(x, xs)[i].date
  {
    if |xs| > 0 && xs[0].date >= x.date {
      InsertNewestFirstBounded(x, xs[1..], date);
      var r := InsertNewestFirst(x, xs);
      forall i | 0 <= i < |r| ensures date >= r[i].date {
        if i > 0 {
          assert r[i] == InsertNewestFirst(x, xs[1..])[i - 1];
        }
      }
    }
  }

  /** The insertion keeps the list newest first. */
  lemma {:induction false} InsertNewestFirstKeepsOrder(x: AbsenceRecord, xs: seq<AbsenceRecord>)
    requires NewestFirst(xs)
    ensures NewestFirst(InsertNewestFirst(x, xs))
  {
    var r := InsertNewestFirst(x, xs);
    if |xs| == 0 || xs[0].date < x.date {
      forall i, j | 0 <= i < j < |r| ensures r[i].date >= r[j].date {
        assert r[j] == xs[j - 1];
        if i > 0 {
          assert r[i] == xs[i - 1];
        }
      }
    } else {
      var rest := InsertNewestFirst(x, xs[1..]);
      InsertNewestFirstKeepsOrder(x, xs[1..]);
      InsertNewestFirstBounded(x, xs[1..], xs[0].date);
      forall i, j | 0 <= i < j < |r| ensures r[i].date >= r[j].date {
        assert r[j] == rest[j - 1];
        if i > 0 {
          assert r[i] == rest[i - 1];
        }
      }
    }
  }

  /** The absence table: subject, then raw class type, then the records. */
  type AbsenceTable = map<string, map<string, seq<AbsenceRecord>>>

  /** No empty container, and every list newest first. */
  predicate ValidAbsences(t: AbsenceTable) {
    forall s :: s in t ==> t[s] != map[] && forall k :: k in t[s] ==> t[s][k] != [] && NewestFirst(t[s][k])
  }

  /** The records of one subject and type, none when absent. */
  function AbsencesOf(t: AbsenceTable, subject: string, rawType: string): seq<AbsenceRecord> {
    if subject in t && rawType in t[subject] then t[subject][rawType] else []
  }

  /** `addAbsence`: the record joins its list, re-sorted newest first. */
  function WithAbsence(t: AbsenceTable, subject: string, rawType: string, x: AbsenceRecord): AbsenceTable {
    var inner := if subject in t then t[subject] else map[];
    t[subject := inner[rawType := InsertNewestFirst(x, AbsencesOf(t, subject, rawType))]]
  }

  /** Adding a record keeps the table valid: no empty container, every list newest first. */
  lemma WithAbsenceValid(t: AbsenceTable, subject: string, rawType: string, x: AbsenceRecord)
    requires ValidAbsences(t)
    ensures ValidAbsences(WithAbsence(t, subject, rawType, x))
  {
    var list := InsertNewestFirst(x, AbsencesOf(t, subject, rawType));
    InsertNewestFirstPermutes(x, AbsencesOf(t, subject, rawType));
    InsertNewestFirstKeepsOrder(x, AbsencesOf(t, subject, rawType));
    var r := WithAbsence(t, subject, rawType, x);
    assert r[subject][rawType] == list && list != [];
  }

  /**
   * Adding a record puts exactly that record into its list, so the absence
   * count of that subject and type grows by one, and no other list changes.
   */
  lemma WithAbsenceAddsOne(t: AbsenceTable, subject: string, rawType: string, x: AbsenceRecord)
    ensures var r := WithAbsence(t, subject, rawType, x);
      && multiset(AbsencesOf(r, subject, rawType)) == multiset(AbsencesOf(t, subject, rawType)) + multiset{x}
      && AbsenceCount(r, subject, rawType) == AbsenceCount(t, subject, rawType) + 1
      && forall s, k :: s != subject || k != rawType ==> AbsencesOf(r, s, k) == AbsencesOf(t, s, k)
  {
    InsertNewestFirstPermutes(x, AbsencesOf(t, subject, rawType));
  }

  /** Dropping one record removes exactly that record. */
  lemma DropRemovesOne(list: seq<AbsenceRecord>, index: int)
    requires 0 <= index < |list|
    ensures multiset(list[..index] + list[index + 1..]) == multiset(list) - multiset{list[index]}
    ensures |list[..index] + list[index + 1..]| == |list| - 1
  {
    assert list == list[..index] + [list[index]] + list[index + 1..];
  }

  /** Dropping one record keeps the rest newest first. */
  lemma DropKeepsOrder(list: seq<AbsenceRecord>, index: int)
    requires NewestFirst(list) && 0 <= index < |list|
    ensures NewestFirst(list[..index] + list[index + 1..])
  {
    var rest := list[..index] + list[index + 1..];
    forall i, j | 0 <= i < j < |rest| ensures rest[i].date >= rest[j].date {
      var i' := if i < index then i else i + 1;
      var j' := if j < index then j else j + 1;
      assert rest[i] == list[i'] && rest[j] == list[j'];
    }
  }

  /**
   * `removeAbsence`: drops the record at `index` and prunes a list or a
   * subject left empty; a subject or type without records is left alone.
   */
  function WithoutAbsence(t: AbsenceTable, subject: string, rawType: string, index: int): AbsenceTable
    requires subject in t && rawType in t[subject] ==> 0 <= index < |t[subject][rawType]|
  {
    if subject in t && rawType in t[subject] then
      var list := t[subject][rawType];
      var rest := list[..index] + list[index + 1..];
      var inner := if rest == [] then t[subject] - {rawType} else t[subject][rawType := rest];
      if inner == map[] then t - {subject} else t[subject := inner]
    else t
  }

  /** Removing a record keeps the table valid. */
  lemma WithoutAbsenceValid(t: AbsenceTable, subject: string, rawType: string, index: int)
    requires ValidAbsences(t)
    requires subject in t && rawType in t[subject] ==> 0 <= index < |t[subject][rawType]|
    ensures ValidAbsences(WithoutAbsence(t, subject, rawType, index))
  {
    if subject in t && rawType in t[subject] {
      DropKeepsOrder(t[subject][rawType], index);
    }
  }

  /**
   * Removing a record takes exactly that record out of its list, so the
   * absence count of that subject and type drops by one; without such a
   * list nothing changes.
   */
  lemma WithoutAbsenceRemovesOne(t: AbsenceTable, subject: string, rawType: string, index: int)
    requires subject in t && rawType in t[subject] ==> 0 <= index < |t[subject][rawType]|
    ensures var r := WithoutAbsence(t, subject, rawType, index);
      && (subject in t && rawType in t[subject] ==>
            && multiset(AbsencesOf(r, subject, rawType)) == multiset(t[subject][rawType]) - multiset{t[subject][rawType][index]}
            && AbsenceCount(r, subject, rawType) == AbsenceCount(t, subject, rawType) - 1)
      && (!(subject in t && rawType in t[subject]) ==> r == t)
  {
    if subject in t && rawType in t[subject] {
      var list := t[subject][rawType];
      DropRemovesOne(list, index);
      var rest := list[..index] + list[index + 1..];
      var r := WithoutAbsence(t, subject, rawType, index);
      if rest == [] {
        assert rawType !in t[subject] - {rawType};
        assert AbsencesOf(r, subject, rawType) == [];
      } else {
        var inner := t[subject][rawType := rest];
        assert rawType in inner;
        assert r == t[subject := inner];
      }
    }
  }

  /** Removing a record leaves every other subject and type as it was. */
  lemma WithoutAbsenceElsewhere(t: AbsenceTable, subject: string, rawType: string, index: int)
    requires subject in t && rawType in t[subject] ==> 0 <= index < |t[subject][rawType]|
    ensures var r := WithoutAbsence(t, subject, rawType, index);
      forall s, k :: s != subject || k != rawType ==> AbsencesOf(r, s, k) == AbsencesOf(t, s, k)
  {
    var r := WithoutAbsence(t, subject, rawType, index);
    if subject in t && rawType in t[subject] {
      var list := t[subject][rawType];
      var rest := list[..index] + list[index + 1..];
      var inner := if rest == [] then t[subject] - {rawType} else t[subject][rawType := rest];
      forall s, k | s != subject || k != rawType ensures AbsencesOf(r, s, k) == AbsencesOf(t, s, k) {
        if s == subject {
          assert k in inner <==> k in t[subject];
        }
      }
    }
  }

  // ---------------------------------------------------------------------------
  // Nested tables with pruning (limits, syllabuses)
  // ---------------------------------------------------------------------------

  /** No subject maps to an empty table. */
  predicate Pruned<V>(t: map<string, map<string, V>>) {
    forall s :: s in t ==> t[s] != map[]
  }

  /** The entry for one subject and type. */
  function Lookup<V>(t: map<string, map<string, V>>, subject: string, key: string): Option<V> {
    if subject in t && key in t[subject] then Some(t[subject][key]) else None
  }

  /**
   * Sets (`Some`) or removes (`None`) one entry, creating the subject's table
   * when needed and dropping it once it is empty.
   */
  function SetNested<V(==)>(t: map<string, map<string, V>>, subject: string, key: string, v: Option<V>): (r: map<string, map<string, V>>)
    ensures Lookup(r, subject, key) == v
    ensures forall s, k :: s != subject || k != key ==> Lookup(r, s, k) == Lookup(t, s, k)
    ensures Pruned(t) ==> Pruned(r)
  {
    var inner := if subject in t then t[subject] else map[];
    if v.Some? then t[subject := inner[key := v.value]]
    else
      var rest := inner - {key};
      var r := if rest == map[] then t - {subject} else t[subject := rest];
      assert forall s, k :: s != subject || k != key ==> Lookup(r, s, k) == Lookup(t, s, k) by {
        forall s, k | s != subject || k != key ensures Lookup(r, s, k) == Lookup(t, s, k) {
          if s == subject {
            assert k in rest <==> k in inner;
          }
        }
      }
      r
  }

  /** Every entry is kept because it is non-empty or positive. */
  ghost predicate ValidLimits(t: map<string, map<string, int>>) {
    Pruned(t) && forall s, k :: Lookup(t, s, k).Some? ==> Lookup(t, s, k).value > 0
  }

  /** `updateAbsenceLimit`: a limit of zero or less deletes the entry. */
  function WithLimit(t: map<string, map<string, int>>, subject: string, rawType: string, limit: int): (r: map<string, map<string, int>>)
    ensures ValidLimits(t) ==> ValidLimits(r)
    ensures Lookup(r, subject, rawType) == if limit > 0 then Some(limit) else None
    ensures forall s, k :: s != subject || k != rawType ==> Lookup(r, s, k) == Lookup(t, s, k)
  {
    SetNested(t, subject, rawType, if limit > 0 then Some(limit) else None)
  }

  ghost predicate ValidSyllabuses(t: map<string, map<string, string>>) {
    Pruned(t) && forall s, k :: Lookup(t, s, k).Some? ==> Lookup(t, s, k).value != ""
  }

  /** `saveSyllabus`: the empty text deletes the entry. */
  function WithSyllabus(t: map<string, map<string, string>>, subject: string, rawType: string, text: string): (r: map<string, map<string, string>>)
    ensures ValidSyllabuses(t) ==> ValidSyllabuses(r)
    ensures Lookup(r, subject, rawType) == if text != "" then Some(text) else None
    ensures forall s, k :: s != subject || k != rawType ==> Lookup(r, s, k) == Lookup(t, s, k)
  {
    SetNested(t, subject, rawType, if text != "" then Some(text) else None)
  }
}

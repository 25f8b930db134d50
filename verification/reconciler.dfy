/** The work agent's `sync_to_csv` tool: the calendar's lessons in a date range are
    compared with the ledger, and the past lessons whose `(date, time)` slot is not yet
    recorded are added. The lesson list is the value `list_lessons` returns (its JSON text
    is decoded back to the same list), and `today` is the ISO date of the call. */
module Reconciler {
  import opened Strings
  import opened WorkLedger
  import opened ScheduleTools

  /** `[l for l in lessons if l["date"] < today]`: string order, as Python compares `str`. */
  function PastLessons(lessons: seq<Lesson>, today: string): (past: seq<Lesson>)
    ensures |past| <= |lessons|
    ensures forall l :: l in past <==> l in lessons && LexLess(l.date, today)
  {
    if lessons == [] then []
    else
      var rest := PastLessons(lessons[1..], today);
      assert forall l :: l in lessons <==> l == lessons[0] || l in lessons[1..];
      if LexLess(lessons[0].date, today) then [lessons[0]] + rest else rest
  }

  /** The filter keeps calendar order: it distributes over concatenation. */
  lemma {:induction false} PastLessonsAppend(a: seq<Lesson>, b: seq<Lesson>, today: string)
    ensures PastLessons(a + b, today) == PastLessons(a, today) + PastLessons(b, today)
    decreases |a|
  {
    if a != [] {
      assert (a + b)[1..] == a[1..] + b;
      PastLessonsAppend(a[1..], b, today);
    } else {
      assert a + b == b;
    }
  }

  /** One lesson is kept exactly when its date is before today. */
  lemma PastLessonsOne(l: Lesson, today: string)
    ensures PastLessons([l], today) == if LexLess(l.date, today) then [l] else []
  {
    assert [l][1..] == [];
  }

  /** The `(date, time)` slots the ledger already holds. */
  function ExistingSlots(ledger: Ledger): (slots: set<(string, string)>)
    ensures forall d, t :: (d, t) in slots <==> exists i :: 0 <= i < |ledger| && InSlot(ledger[i], d, t)
  {
    set i | 0 <= i < |ledger| :: (ledger[i].date, ledger[i].time)
  }

  /** The row a missing lesson becomes: paid, with no payment date. */
  function MissingRow(l: Lesson): Row {
    Row(l.studentName, l.date, l.time, NatToString(l.price), "yes", "")
  }

  /** The past lessons whose slot is not in `slots`, as rows, in calendar order. Lessons
      sharing a slot within the batch are all kept. */
  function Missing(past: seq<Lesson>, slots: set<(string, string)>): (rows: seq<Row>)
    ensures |rows| <= |past|
    ensures forall r :: r in rows <==> exists l :: l in past && (l.date, l.time) !in slots && r == MissingRow(l)
  {
    if past == [] then []
    else
      var rest := Missing(past[1..], slots);
      assert forall l :: l in past <==> l == past[0] || l in past[1..];
      if (past[0].date, past[0].time) !in slots then [MissingRow(past[0])] + rest else rest
  }

  /** The missing rows keep calendar order: they distribute over concatenation. */
  lemma {:induction false} MissingAppend(a: seq<Lesson>, b: seq<Lesson>, slots: set<(string, string)>)
    ensures Missing(a + b, slots) == Missing(a, slots) + Missing(b, slots)
    decreases |a|
  {
    if a != [] {
      assert (a + b)[1..] == a[1..] + b;
      MissingAppend(a[1..], b, slots);
    } else {
      assert a + b == b;
    }
  }

  /** One lesson gives its row exactly when its slot is not recorded. */
  lemma MissingOne(l: Lesson, slots: set<(string, string)>)
    ensures Missing([l], slots) == if (l.date, l.time) !in slots then [MissingRow(l)] else []
  {
    assert [l][1..] == [];
  }

  /** Nothing is missing once every lesson's slot is recorded. */
  lemma {:induction false} MissingNoneWhenRecorded(past: seq<Lesson>, slots: set<(string, string)>)
    requires forall l :: l in past ==> (l.date, l.time) in slots
    ensures Missing(past, slots) == []
    decreases |past|
  {
    if past != [] {
      assert past[0] in past;
      MissingNoneWhenRecorded(past[1..], slots);
    }
  }

  /** Two lessons in the same unrecorded slot both become rows, in order: the batch is
      compared with the ledger only, never with itself. */
  lemma MissingKeepsSameSlot(a: Lesson, b: Lesson, slots: set<(string, string)>)
    requires a.date == b.date && a.time == b.time && (a.date, a.time) !in slots
    ensures Missing([a, b], slots) == [MissingRow(a), MissingRow(b)]
  {
    MissingAppend([a], [b], slots);
    MissingOne(a, slots);
    MissingOne(b, slots);
    assert [a, b] == [a] + [b];
  }

  function NoPastText(startDate: string, endDate: string): string {
    "No past lessons found between " + startDate + " and " + endDate + "."
  }

  function UpToDateText(startDate: string, endDate: string, recorded: nat): string {
    "CSV is already up to date for " + startDate + " to " + endDate + ". ("
      + NatToString(recorded) + " lessons already recorded)"
  }

  /** The first line of the reply when rows were added. */
  function Announcement(count: nat): string {
    "Added " + NatToString(count) + " missing lessons to CSV."
  }

  function AddedText(count: nat, addedText: string): string {
    Announcement(count) + "\n" + addedText
  }

  /** `_sync_to_csv` as written: the missing rows are sent in ONE `add_lesson` call under a
      `lessons` argument the tool does not declare. Argument validation rejects the call, so
      the ledger is left as it was, while the reply still announces the additions;
      `addReply` is the text of the rejected call's result. */
  function SyncAsWritten(startDate: string, endDate: string, today: string, lessons: seq<Lesson>,
                         ledger: Ledger, addReply: string): (r: Reply)
    ensures r.ledger == ledger
    ensures PastLessons(lessons, today) == [] <==> r.text == NoPastText(startDate, endDate)
    ensures var past := PastLessons(lessons, today);
            var rows := Missing(past, ExistingSlots(ledger));
            past != [] && rows != [] ==> r.text == AddedText(|rows|, addReply)
    ensures var past := PastLessons(lessons, today);
            past != [] && Missing(past, ExistingSlots(ledger)) == [] ==> r.text == UpToDateText(startDate, endDate, |past|)
  {
    var past := PastLessons(lessons, today);
    if past == [] then Reply(ledger, NoPastText(startDate, endDate))
    else
      var rows := Missing(past, ExistingSlots(ledger));
      if rows == [] then Reply(ledger, UpToDateText(startDate, endDate, |past|))
      else
        assert AddedText(|rows|, addReply)[0] != NoPastText(startDate, endDate)[0];
        Reply(ledger, AddedText(|rows|, addReply))
  }

  /** The corrected batch: `add_lesson` once per missing row, in order; the replies are
      joined line by line. */
  function AddRows(l: Ledger, rows: seq<Row>): (r: Reply)
    ensures |l| <= |r.ledger| <= |l| + |rows|
    ensures r.ledger[..|l|] == l
    ensures forall j :: |l| <= j < |r.ledger| ==> r.ledger[j] in rows
    ensures forall k :: 0 <= k < |rows| ==> exists j :: 0 <= j < |r.ledger| && InSlot(r.ledger[j], rows[k].date, rows[k].time)
    decreases |rows|
  {
    if rows == [] then Reply(l, "")
    else
      var x := rows[0];
      var first := AddLesson(l, x.studentName, x.date, x.time, x.price, x.paid, x.paymentDate);
      var rest := AddRows(first.ledger, rows[1..]);
      AddRowsStep(l, rows, first.ledger, rest.ledger);
      Reply(rest.ledger, if rest.text == "" then first.text else first.text + "\n" + rest.text)
  }

  /** The inductive step of `AddRows`, kept apart so the solver sees only what it needs. */
  lemma AddRowsStep(l: Ledger, rows: seq<Row>, mid: Ledger, final: Ledger)
    requires rows != []
    requires mid == AddLesson(l, rows[0].studentName, rows[0].date, rows[0].time, rows[0].price, rows[0].paid, rows[0].paymentDate).ledger
    requires |mid| <= |final| <= |mid| + |rows| - 1 && final[..|mid|] == mid
    requires forall j :: |mid| <= j < |final| ==> final[j] in rows[1..]
    requires forall k :: 0 <= k < |rows| - 1 ==> exists j :: 0 <= j < |final| && InSlot(final[j], rows[1..][k].date, rows[1..][k].time)
    ensures |l| <= |final| <= |l| + |rows|
    ensures final[..|l|] == l
    ensures forall j :: |l| <= j < |final| ==> final[j] in rows
    ensures forall k :: 0 <= k < |rows| ==> exists j :: 0 <= j < |final| && InSlot(final[j], rows[k].date, rows[k].time)
  {
    var x := rows[0];
    if exists i :: 0 <= i < |l| && InSlot(l[i], x.date, x.time) {
      var i :| 0 <= i < |l| && InSlot(l[i], x.date, x.time);
      assert final[i] == mid[i];
    } else {
      assert mid == l + [x];
      assert final[|l|] == mid[|l|] == x;
      assert mid[..|l|] == l;
      assert final[..|l|] == final[..|mid|][..|l|];
    }
    forall k | 1 <= k < |rows|
      ensures exists j :: 0 <= j < |final| && InSlot(final[j], rows[k].date, rows[k].time)
    {
      assert rows[1..][k - 1] == rows[k];
    }
  }

  /** `_sync_to_csv` as evidently intended: every missing row is added. */
  function Sync(startDate: string, endDate: string, today: string, lessons: seq<Lesson>, ledger: Ledger): (r: Reply)
    ensures |r.ledger| >= |ledger| && r.ledger[..|ledger|] == ledger
    ensures PastLessons(lessons, today) == [] <==> r.text == NoPastText(startDate, endDate)
    ensures forall j :: |ledger| <= j < |r.ledger| ==>
              exists l :: l in lessons && LexLess(l.date, today) && r.ledger[j] == MissingRow(l)
    ensures var past := PastLessons(lessons, today);
            past != [] && Missing(past, ExistingSlots(ledger)) == [] ==> r == Reply(ledger, UpToDateText(startDate, endDate, |past|))
    ensures var rows := Missing(PastLessons(lessons, today), ExistingSlots(ledger));
            rows != [] ==> r == Reply(AddRows(ledger, rows).ledger, AddedText(|rows|, AddRows(ledger, rows).text))
  {
    var past := PastLessons(lessons, today);
    if past == [] then Reply(ledger, NoPastText(startDate, endDate))
    else
      var rows := Missing(past, ExistingSlots(ledger));
      if rows == [] then
        assert UpToDateText(startDate, endDate, |past|)[0] != NoPastText(startDate, endDate)[0];
        Reply(ledger, UpToDateText(startDate, endDate, |past|))
      else
        var added := AddRows(ledger, rows);
        assert AddedText(|rows|, added.text)[0] != NoPastText(startDate, endDate)[0];
        Reply(added.ledger, AddedText(|rows|, added.text))
  }

  /** After a sync every past lesson's slot is recorded. */
  lemma SyncRecordsEveryPastLesson(startDate: string, endDate: string, today: string,
                                   lessons: seq<Lesson>, ledger: Ledger, l: Lesson)
    requires l in lessons && LexLess(l.date, today)
    ensures var after := Sync(startDate, endDate, today, lessons, ledger).ledger;
            exists j :: 0 <= j < |after| && InSlot(after[j], l.date, l.time)
  {
    var past := PastLessons(lessons, today);
    var slots := ExistingSlots(ledger);
    var after := Sync(startDate, endDate, today, lessons, ledger).ledger;
    assert l in past;
    if (l.date, l.time) in slots {
      var i :| 0 <= i < |ledger| && InSlot(ledger[i], l.date, l.time);
      assert after[i] == ledger[i];
    } else {
      var rows := Missing(past, slots);
      assert MissingRow(l) in rows;
      var k :| 0 <= k < |rows| && rows[k] == MissingRow(l);
      assert after == AddRows(ledger, rows).ledger;
    }
  }

  /** A lesson dated today or later is never written, whatever the calendar holds. */
  lemma SyncNeverAddsFutureLessons(startDate: string, endDate: string, today: string,
                                   lessons: seq<Lesson>, ledger: Ledger)
    ensures var after := Sync(startDate, endDate, today, lessons, ledger).ledger;
            forall j :: |ledger| <= j < |after| ==> LexLess(after[j].date, today)
  {
  }

  /** A second sync over the same lessons adds nothing: the ledger already holds every
      past slot, and the reply says so. */
  lemma SyncIdempotent(startDate: string, endDate: string, today: string, lessons: seq<Lesson>, ledger: Ledger)
    requires PastLessons(lessons, today) != []
    ensures var once := Sync(startDate, endDate, today, lessons, ledger).ledger;
            var twice := Sync(startDate, endDate, today, lessons, once);
            twice.ledger == once
            && twice.text == UpToDateText(startDate, endDate, |PastLessons(lessons, today)|)
  {
    var past := PastLessons(lessons, today);
    var once := Sync(startDate, endDate, today, lessons, ledger).ledger;
    var slots := ExistingSlots(once);
    forall l | l in past ensures (l.date, l.time) in slots {
      SyncRecordsEveryPastLesson(startDate, endDate, today, lessons, ledger, l);
    }
    MissingNoneWhenRecorded(past, slots);
  }

  /** The as-written sync announces an addition yet records nothing: one past lesson and an
      empty ledger leave the ledger empty, while the corrected sync records the lesson. */
  lemma SyncAsWrittenLosesLessons(addReply: string)
    ensures var lesson := Lesson("Dana", "2025-01-05", "10:00", 150);
            var asWritten := SyncAsWritten("2025-01-01", "2025-01-31", "2025-02-01", [lesson], [], addReply);
            && asWritten.ledger == []
            && asWritten.text == AddedText(1, addReply)
    ensures var lesson := Lesson("Dana", "2025-01-05", "10:00", 150);
            Sync("2025-01-01", "2025-01-31", "2025-02-01", [lesson], []).ledger == [MissingRow(lesson)]
  {
    var lesson := Lesson("Dana", "2025-01-05", "10:00", 150);
    OnePastLessonMissing(lesson, "2025-02-01");
    var x := MissingRow(lesson);
    assert AddLesson([], x.studentName, x.date, x.time, x.price, x.paid, x.paymentDate).ledger == [x];
    assert AddRows([x], []).ledger == [x];
  }

  lemma OnePastLessonMissing(lesson: Lesson, today: string)
    requires lesson == Lesson("Dana", "2025-01-05", "10:00", 150) && today == "2025-02-01"
    ensures PastLessons([lesson], today) == [lesson]
    ensures Missing([lesson], ExistingSlots([])) == [MissingRow(lesson)]
  {
    assert LexLess("2025-01-05", "2025-02-01") by {
      LexLessAfterPrefix("2025-0", "1-05", "2-01");
      assert "2025-0" + "1-05" == "2025-01-05" && "2025-0" + "2-01" == "2025-02-01";
    }
    assert ExistingSlots([]) == {};
  }
}

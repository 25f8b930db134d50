/** The lesson ledger behind the work tools: a CSV file of rows, modelled as the sequence
    of its data records. A lesson slot is identified by `(date, time)`, whatever the name. */
module WorkLedger {
  import opened Outcomes
  import opened Strings

  /** `_HEADERS`: the CSV header line, in column order. */
  const Headers: seq<string> := ["student_name", "date", "time", "price", "paid", "payment_date"]

  datatype Row = Row(studentName: string, date: string, time: string, price: string, paid: string, paymentDate: string)

  type Ledger = seq<Row>

  /** The record `csv.writer.writerow` writes for a row (positional, `add_lesson`). */
  function Record(r: Row): seq<string> {
    [r.studentName, r.date, r.time, r.price, r.paid, r.paymentDate]
  }

  /** The value `csv.DictReader` gives a column: the field under the first header with that name. */
  function Column(header: seq<string>, rec: seq<string>, name: string): Option<string> {
    if header == [] || rec == [] then None
    else if header[0] == name then Some(rec[0])
    else Column(header[1..], rec[1..], name)
  }

  /** A record read back under a header line, when every column is present. */
  function ReadRecord(header: seq<string>, rec: seq<string>): Option<Row> {
    match (Column(header, rec, "student_name"), Column(header, rec, "date"), Column(header, rec, "time"),
           Column(header, rec, "price"), Column(header, rec, "paid"), Column(header, rec, "payment_date"))
    case (Some(n), Some(d), Some(t), Some(p), Some(y), Some(pd)) => Some(Row(n, d, t, p, y, pd))
    case _ => None
  }

  /** The positional record `add_lesson` appends reads back, under `_HEADERS`, as the same row:
      the column order of the writer agrees with the header line. */
  lemma RecordMatchesHeaders(r: Row)
    ensures ReadRecord(Headers, Record(r)) == Some(r)
  {
    var rec := Record(r);
    ColumnAt(Headers, rec, 0);
    ColumnAt(Headers, rec, 1);
    ColumnAt(Headers, rec, 2);
    ColumnAt(Headers, rec, 3);
    ColumnAt(Headers, rec, 4);
    ColumnAt(Headers, rec, 5);
  }

  lemma {:induction false} ColumnAt(header: seq<string>, rec: seq<string>, k: nat)
    requires k < |header| && k < |rec|
    requires forall j :: 0 <= j < k ==> header[j] != header[k]
    ensures Column(header, rec, header[k]) == Some(rec[k])
  {
    if k > 0 {
      ColumnAt(header[1..], rec[1..], k - 1);
    }
  }

  predicate InSlot(r: Row, date: string, time: string) {
    r.date == date && r.time == time
  }

  /** No two rows occupy the same `(date, time)` slot. */
  ghost predicate UniqueSlots(l: Ledger) {
    forall i, j :: 0 <= i < j < |l| ==> !InSlot(l[i], l[j].date, l[j].time)
  }

  /** The first row in the slot, as the scan of `add_lesson` finds it. */
  function FirstInSlot(l: Ledger, date: string, time: string): (k: Option<nat>)
    ensures k.Some? ==> k.value < |l| && InSlot(l[k.value], date, time)
    ensures k.Some? ==> forall j :: 0 <= j < k.value ==> !InSlot(l[j], date, time)
    ensures k.None? <==> forall j :: 0 <= j < |l| ==> !InSlot(l[j], date, time)
  {
    if l == [] then None
    else if InSlot(l[0], date, time) then Some(0)
    else match FirstInSlot(l[1..], date, time)
      case None => None
      case Some(j) => Some(j + 1)
  }

  /** A tool's reply: the ledger after the call and the text returned to the model. */
  datatype Reply = Reply(ledger: Ledger, text: string)

  /** `add_lesson`: refuses an occupied slot, otherwise appends one row. */
  function AddLesson(l: Ledger, studentName: string, date: string, time: string, price: string,
                     paid: string := "yes", paymentDate: string := ""): (r: Reply)
    ensures (exists i :: 0 <= i < |l| && InSlot(l[i], date, time)) ==>
              r.ledger == l && StartsWith(r.text, "Lesson already exists on ")
    ensures (forall i :: 0 <= i < |l| ==> !InSlot(l[i], date, time)) ==>
              r.ledger == l + [Row(studentName, date, time, price, paid, paymentDate)]
              && StartsWith(r.text, "Lesson added: ")
  {
    match FirstInSlot(l, date, time)
    case Some(k) =>
      Reply(l, "Lesson already exists on " + date + " at " + time + " (" + l[k].studentName + ").")
    case None =>
      Reply(l + [Row(studentName, date, time, price, paid, paymentDate)],
            "Lesson added: " + studentName + " on " + date + " at " + time + ", " + price + " NIS, paid=" + paid + ".")
  }

  /** Omitted `paid` and `payment_date` default to "yes" and "". */
  lemma AddLessonDefaults(l: Ledger, studentName: string, date: string, time: string, price: string)
    requires forall i :: 0 <= i < |l| ==> !InSlot(l[i], date, time)
    ensures AddLesson(l, studentName, date, time, price).ledger == l + [Row(studentName, date, time, price, "yes", "")]
  {
  }

  /** Whatever name is given, an occupied slot is refused and the ledger is unchanged. */
  lemma AddLessonRefusesTakenSlot(l: Ledger, k: nat, studentName: string, price: string, paid: string, paymentDate: string)
    requires k < |l|
    ensures AddLesson(l, studentName, l[k].date, l[k].time, price, paid, paymentDate).ledger == l
  {
    assert InSlot(l[k], l[k].date, l[k].time);
  }

  lemma AddLessonKeepsSlotsUnique(l: Ledger, studentName: string, date: string, time: string, price: string,
                                  paid: string, paymentDate: string)
    requires UniqueSlots(l)
    ensures UniqueSlots(AddLesson(l, studentName, date, time, price, paid, paymentDate).ledger)
  {
  }

  /** The read-modify scan of `update_payment`: the rewritten rows and whether any matched. */
  function ScanPayment(l: Ledger, date: string, time: string, paid: string, paymentDate: string): (r: (Ledger, bool))
    ensures Scanned(l, date, time, paid, paymentDate, r)
  {
    if l == [] then ([], false)
    else
      var rest := ScanPayment(l[1..], date, time, paid, paymentDate);
      ScanCons(l, date, time, paid, paymentDate, rest);
      var row := if InSlot(l[0], date, time) then l[0].(paid := paid, paymentDate := paymentDate) else l[0];
      ([row] + rest.0, InSlot(l[0], date, time) || rest.1)
  }

  /** What the scan promises: rows in the slot get the new payment fields, the others are
      untouched, and the flag says whether the slot was found. */
  predicate Scanned(l: Ledger, date: string, time: string, paid: string, paymentDate: string, r: (Ledger, bool)) {
    && |r.0| == |l|
    && (forall i :: 0 <= i < |l| && InSlot(l[i], date, time) ==>
          r.0[i] == l[i].(paid := paid, paymentDate := paymentDate))
    && (forall i :: 0 <= i < |l| && !InSlot(l[i], date, time) ==> r.0[i] == l[i])
    && (r.1 <==> exists i :: 0 <= i < |l| && InSlot(l[i], date, time))
  }

  /** The recursive step of the scan: one more row in front. */
  lemma ScanCons(l: Ledger, date: string, time: string, paid: string, paymentDate: string, rest: (Ledger, bool))
    requires l != [] && Scanned(l[1..], date, time, paid, paymentDate, rest)
    ensures var row := if InSlot(l[0], date, time) then l[0].(paid := paid, paymentDate := paymentDate) else l[0];
            Scanned(l, date, time, paid, paymentDate, ([row] + rest.0, InSlot(l[0], date, time) || rest.1))
  {
    var row := if InSlot(l[0], date, time) then l[0].(paid := paid, paymentDate := paymentDate) else l[0];
    var rows := [row] + rest.0;
    forall i | 1 <= i < |l|
      ensures (InSlot(l[i], date, time) ==> rows[i] == l[i].(paid := paid, paymentDate := paymentDate))
           && (!InSlot(l[i], date, time) ==> rows[i] == l[i])
    {
      assert rows[i] == rest.0[i - 1] && l[i] == l[1..][i - 1];
    }
    if rest.1 {
      var i :| 0 <= i < |l[1..]| && InSlot(l[1..][i], date, time);
      assert InSlot(l[i + 1], date, time);
    } else {
      forall i | 1 <= i < |l| ensures !InSlot(l[i], date, time) {
        assert l[i] == l[1..][i - 1];
      }
    }
  }

  /** `update_payment`: rewrites `paid` and `payment_date` of every row in the slot. */
  function UpdatePayment(l: Ledger, studentName: string, date: string, time: string, paid: string,
                         paymentDate: string := ""): (r: Reply)
    ensures |r.ledger| == |l|
    ensures forall i :: 0 <= i < |l| ==>
              && r.ledger[i].studentName == l[i].studentName
              && r.ledger[i].date == l[i].date
              && r.ledger[i].time == l[i].time
              && r.ledger[i].price == l[i].price
    ensures forall i :: 0 <= i < |l| && InSlot(l[i], date, time) ==>
              r.ledger[i].paid == paid && r.ledger[i].paymentDate == paymentDate
    ensures forall i :: 0 <= i < |l| && !InSlot(l[i], date, time) ==> r.ledger[i] == l[i]
    ensures (forall i :: 0 <= i < |l| ==> !InSlot(l[i], date, time)) <==>
              r.text == "No lesson found on " + date + " at " + time + "."
  {
    var (rows, updated) := ScanPayment(l, date, time, paid, paymentDate);
    if !updated then Reply(l, "No lesson found on " + date + " at " + time + ".")
    else
      var text := "Payment updated: " + studentName + " on " + date + " \U{2192} paid=" + paid + ".";
      assert text[0] == 'P';
      Reply(rows, text)
  }

  /** The student name plays no part in which rows are updated. */
  lemma UpdatePaymentIgnoresName(l: Ledger, name1: string, name2: string, date: string, time: string,
                                 paid: string, paymentDate: string)
    ensures UpdatePayment(l, name1, date, time, paid, paymentDate).ledger
         == UpdatePayment(l, name2, date, time, paid, paymentDate).ledger
  {
  }

  /** Repeating a payment update changes nothing more. */
  lemma UpdatePaymentIdempotent(l: Ledger, name: string, date: string, time: string, paid: string, paymentDate: string)
    ensures var once := UpdatePayment(l, name, date, time, paid, paymentDate).ledger;
            UpdatePayment(once, name, date, time, paid, paymentDate).ledger == once
  {
  }

  lemma UpdatePaymentKeepsSlotsUnique(l: Ledger, name: string, date: string, time: string, paid: string, paymentDate: string)
    requires UniqueSlots(l)
    ensures UniqueSlots(UpdatePayment(l, name, date, time, paid, paymentDate).ledger)
  {
  }

  /** A mutating call of the work tools. */
  datatype LedgerCall =
    | Add(studentName: string, date: string, time: string, price: string, paid: string, paymentDate: string)
    | Pay(studentName: string, date: string, time: string, paid: string, paymentDate: string)

  function Apply(l: Ledger, c: LedgerCall): Ledger {
    match c
    case Add(n, d, t, p, y, pd) => AddLesson(l, n, d, t, p, y, pd).ledger
    case Pay(n, d, t, y, pd) => UpdatePayment(l, n, d, t, y, pd).ledger
  }

  function ApplyAll(l: Ledger, calls: seq<LedgerCall>): Ledger
    decreases |calls|
  {
    if calls == [] then l else ApplyAll(Apply(l, calls[0]), calls[1..])
  }

  /** No sequence of adds and payment updates removes a row or changes a row's identity
      (name, slot, price), and none breaks the one-row-per-slot invariant. */
  lemma {:induction false} CallsNeverRemoveRows(l: Ledger, calls: seq<LedgerCall>)
    requires UniqueSlots(l)
    ensures var r := ApplyAll(l, calls);
            && |r| >= |l|
            && UniqueSlots(r)
            && forall i :: 0 <= i < |l| ==>
                 r[i].studentName == l[i].studentName && r[i].date == l[i].date
                 && r[i].time == l[i].time && r[i].price == l[i].price
    decreases |calls|
  {
    if calls != [] {
      var next := Apply(l, calls[0]);
      match calls[0] {
        case Add(n, d, t, p, y, pd) =>
          AddLessonKeepsSlotsUnique(l, n, d, t, p, y, pd);
        case Pay(n, d, t, y, pd) =>
          UpdatePaymentKeepsSlotsUnique(l, n, d, t, y, pd);
      }
      CallsNeverRemoveRows(next, calls[1..]);
    }
  }

  /** The rows of `read_lessons`: those whose date starts with the month text, in ledger order. */
  function RowsInMonth(l: Ledger, month: string): (r: Ledger)
    ensures |r| <= |l|
    ensures forall x :: x in r <==> x in l && StartsWith(x.date, month)
  {
    if l == [] then []
    else (if StartsWith(l[0].date, month) then [l[0]] else []) + RowsInMonth(l[1..], month)
  }

  /** Filtering distributes over concatenation, so ledger order is kept. */
  lemma {:induction false} RowsInMonthAppend(a: Ledger, b: Ledger, month: string)
    ensures RowsInMonth(a + b, month) == RowsInMonth(a, month) + RowsInMonth(b, month)
  {
    if a == [] {
      assert a + b == b;
    } else {
      assert (a + b)[1..] == a[1..] + b;
      RowsInMonthAppend(a[1..], b, month);
    }
  }

  /** One line of `read_lessons` / `get_all_lessons`. */
  function RenderRow(r: Row): (line: string)
    ensures StartsWith(line, "Student: ")
  {
    "Student: " + r.studentName + ", Date: " + r.date + ", Time: " + r.time + ", Price: " + r.price
    + " NIS, Paid: " + r.paid + ", Payment Date: " + (if r.paymentDate == "" then "N/A" else r.paymentDate)
  }

  function RenderRows(rows: Ledger): string
    requires rows != []
  {
    Join(seq(|rows|, i requires 0 <= i < |rows| => RenderRow(rows[i])), "\n")
  }

  lemma RenderedRowsStartWithStudent(rows: Ledger)
    requires rows != []
    ensures StartsWith(RenderRows(rows), "Student: ")
  {
    var lines := seq(|rows|, i requires 0 <= i < |rows| => RenderRow(rows[i]));
    JoinStartsWithFirst(lines, "\n");
  }

  /** `read_lessons`. */
  function ReadLessons(l: Ledger, month: string): (text: string)
    ensures RowsInMonth(l, month) == [] <==> text == "No lessons found for " + month + "."
  {
    var rows := RowsInMonth(l, month);
    if rows == [] then "No lessons found for " + month + "."
    else
      RenderedRowsStartWithStudent(rows);
      RenderRows(rows)
  }

  /** `get_all_lessons`. */
  function GetAllLessons(l: Ledger): (text: string)
    ensures l == [] <==> text == "No lessons recorded yet."
  {
    if l == [] then "No lessons recorded yet."
    else
      RenderedRowsStartWithStudent(l);
      RenderRows(l)
  }

  /** Every date starts with the empty month, so reading month "" lists the whole ledger. */
  lemma {:induction false} EmptyMonthSelectsAll(l: Ledger)
    ensures RowsInMonth(l, "") == l
  {
    if l != [] {
      EmptyMonthSelectsAll(l[1..]);
      assert StartsWith(l[0].date, "");
    }
  }

  lemma ReadAllMonthsIsGetAll(l: Ledger)
    requires l != []
    ensures ReadLessons(l, "") == GetAllLessons(l)
  {
    EmptyMonthSelectsAll(l);
  }
}

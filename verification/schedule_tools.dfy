/** The calendar tools of `mcp_servers/schedule_mcp.py`, over an event list the calendar
    has already returned: the lesson colour filter, the price rule, the earnings report,
    `list_lessons`, the field-wise merge of `update_event` and the per-id lines of
    `delete_event`. */
module ScheduleTools {
  import opened Outcomes
  import opened Seqs
  import opened Strings
  import LocalTime

  const TimeZone: string := "Asia/Jerusalem"

  /** The prefix of every failure line a tool reports, and what the tool loop looks for. */
  const ErrorMarker: string := "\U{274C} ERROR"

  /** The `start` / `end` object of an event. */
  datatype EventTime = EventTime(dateTime: Option<string>, date: Option<string>, timeZone: Option<string>)

  /** A calendar event, with the keys the tools read or write. */
  datatype Event = Event(id: string, summary: Option<string>, start: EventTime, end: EventTime,
                         description: Option<string>, colorId: Option<string>)

  // ---------------------------------------------------------------- lessons and prices

  /** Default (no colour), Lavender and Flamingo. */
  const LessonColors: set<string> := {"", "1", "4"}

  /** Colours that are never lessons. */
  const NonLessonColors: set<string> := {"2", "3", "5", "6", "7", "8", "9", "10", "11"}

  /** `event.get("colorId", "")`. */
  function ColorOf(e: Event): string {
    e.colorId.GetOr("")
  }

  /** An event is a lesson unless its colour is one of the non-lesson colours; a colour
      outside both sets therefore counts as a lesson. */
  predicate IsLesson(e: Event) {
    ColorOf(e) !in NonLessonColors
  }

  lemma LessonColorSets(e: Event)
    ensures LessonColors !! NonLessonColors
    ensures ColorOf(e) in LessonColors ==> IsLesson(e)
  {
  }

  /** The pricing table, in the dict's insertion order. */
  const Pricing: seq<(string, nat)> := [
    ("default", 150),
    ("noam", 130),
    ("\U{05E0}\U{05D5}\U{05E2}\U{05DD}", 130),
    ("shoham", 200),
    ("\U{05E9}\U{05D5}\U{05D4}\U{05DD}", 200)
  ]

  /** Rule `i` is the first, in table order, whose key is a substring of `name`. */
  predicate FirstMatch(rules: seq<(string, nat)>, name: string, i: int) {
    0 <= i < |rules| && Contains(name, rules[i].0) && forall j :: 0 <= j < i ==> !Contains(name, rules[j].0)
  }

  /** Past a rule that does not match, the first match moves one place down. */
  lemma FirstMatchShift(rules: seq<(string, nat)>, name: string, i: int)
    requires rules != [] && !Contains(name, rules[0].0)
    ensures FirstMatch(rules, name, i) <==> i >= 1 && FirstMatch(rules[1..], name, i - 1)
  {
    if i >= 1 && FirstMatch(rules[1..], name, i - 1) {
      forall j | 0 <= j < i ensures !Contains(name, rules[j].0) {
        if j > 0 {
          assert rules[j] == rules[1..][j - 1];
        }
      }
    }
  }

  /** The first rule whose key is a substring of `name`, if any. */
  function FirstRule(rules: seq<(string, nat)>, name: string): (k: Option<nat>)
    ensures k.Some? ==> FirstMatch(rules, name, k.value)
    ensures k.None? <==> forall j :: 0 <= j < |rules| ==> !Contains(name, rules[j].0)
    ensures forall i :: FirstMatch(rules, name, i) ==> k == Some(i)
  {
    if rules == [] then None
    else if Contains(name, rules[0].0) then Some(0)
    else
      var rest := FirstRule(rules[1..], name);
      assert forall i :: FirstMatch(rules, name, i) <==> i >= 1 && FirstMatch(rules[1..], name, i - 1) by {
        forall i ensures FirstMatch(rules, name, i) <==> i >= 1 && FirstMatch(rules[1..], name, i - 1) {
          FirstMatchShift(rules, name, i);
        }
      }
      assert rest.None? ==> forall j :: 0 <= j < |rules| ==> !Contains(name, rules[j].0) by {
        if rest.None? {
          forall j | 0 <= j < |rules| ensures !Contains(name, rules[j].0) {
            if j > 0 {
              assert rules[j] == rules[1..][j - 1];
            }
          }
        }
      }
      match rest
      case None => None
      case Some(j) => Some(j + 1)
  }

  /** `student_name.lower().strip()`. */
  function NormalName(name: string): string {
    Strip(LowerAscii(name))
  }

  /** `_get_lesson_price`: the first table key found in the normalised name decides;
      failing that, Flamingo means 200 and anything else 150. */
  function LessonPrice(studentName: string, colorId: string): (p: nat)
    ensures p == 130 || p == 150 || p == 200
    ensures forall k :: FirstMatch(Pricing, NormalName(studentName), k) ==> p == Pricing[k].1
    ensures (forall j :: 0 <= j < |Pricing| ==> !Contains(NormalName(studentName), Pricing[j].0))
            ==> p == (if colorId == "4" then 200 else 150)
  {
    match FirstRule(Pricing, NormalName(studentName))
    case Some(k) =>
      PricingValues(k);
      Pricing[k].1
    case None => if colorId == "4" then 200 else 150
  }

  lemma PricingValues(k: nat)
    requires k < |Pricing|
    ensures Pricing[k].1 == 130 || Pricing[k].1 == 150 || Pricing[k].1 == 200
  {
  }

  /** A text no longer than a needle contains it only by being it. */
  lemma {:induction false} ContainsShort(hay: string, needle: string)
    requires |hay| <= |needle|
    ensures Contains(hay, needle) <==> hay == needle
    decreases |hay|
  {
    if |hay| > 0 {
      ContainsShort(hay[1..], needle);
    }
  }

  lemma NormalNameOfPlain(name: string)
    requires forall i :: 0 <= i < |name| ==> 'a' <= name[i] <= 'z'
    requires |name| > 0
    ensures NormalName(name) == name
  {
    assert LowerAscii(name) == name;
    assert !IsSpace(name[0]) && !IsSpace(name[|name| - 1]);
    assert StripLeft(name) == name;
    assert StripRight(name) == name;
  }

  /** The name outranks the colour: a Noam lesson costs 130 even when coloured Flamingo,
      and the Flamingo colour alone makes an unnamed student 200. */
  lemma NameOutranksColour()
    ensures LessonPrice("noam", "4") == 130
    ensures LessonPrice("tal", "4") == 200
    ensures LessonPrice("tal", "") == 150
  {
    NormalNameOfPlain("noam");
    ContainsShort("noam", "default");
    assert StartsWith("noam", "noam");
    assert FirstRule(Pricing, "noam") == Some(1);
    NormalNameOfPlain("tal");
    forall j | 0 <= j < |Pricing|
      ensures !Contains("tal", Pricing[j].0)
    {
      ContainsShort("tal", Pricing[j].0);
    }
  }

  // ---------------------------------------------------------------- earnings

  /** `event.get("summary", "(No title)")`. */
  function Title(e: Event): string {
    e.summary.GetOr("(No title)")
  }

  /** `event["start"].get("dateTime", event["start"].get("date", ""))`. */
  function StartText(e: Event): string {
    match e.start.dateTime
    case Some(t) => t
    case None => e.start.date.GetOr("")
  }

  /** `start[:10]`, the day an event is booked under. */
  function DayOf(e: Event): string {
    Slice(StartText(e), 0, 10)
  }

  function PriceOf(e: Event): nat {
    LessonPrice(Title(e), ColorOf(e))
  }

  /** `d.get(key, 0)` on an association list. */
  function Lookup(m: seq<(string, int)>, key: string): (v: int)
    ensures key !in Keys(m) ==> v == 0
  {
    if m == [] then 0 else if m[0].0 == key then m[0].1 else Lookup(m[1..], key)
  }

  lemma KeysCons(m: seq<(string, int)>)
    requires m != []
    ensures Keys(m) == [m[0].0] + Keys(m[1..])
  {
  }

  /** `d[key] = d.get(key, 0) + v`: an existing key keeps its place, a new one goes last. */
  function Bump(m: seq<(string, int)>, key: string, v: int): (r: seq<(string, int)>)
    ensures BumpedFrom(m, key, v, r)
  {
    if m == [] then [(key, v)]
    else if m[0].0 == key then
      var r := [(key, m[0].1 + v)] + m[1..];
      assert r[1..] == m[1..];
      KeysCons(m);
      KeysCons(r);
      r
    else
      var rest := Bump(m[1..], key, v);
      BumpCons(m, key, v, rest);
      [m[0]] + rest
  }

  /** What `Bump` promises: the sum and the entry for `key` grow by `v`, every other entry is
      unchanged, `key` is added to the keys if it was missing, and a new key goes last. */
  ghost predicate BumpedFrom(m: seq<(string, int)>, key: string, v: int, r: seq<(string, int)>) {
    && SumValues(r) == SumValues(m) + v
    && Lookup(r, key) == Lookup(m, key) + v
    && (forall other :: other != key ==> Lookup(r, other) == Lookup(m, other))
    && (forall k :: k in Keys(r) <==> k in Keys(m) || k == key)
    && (key !in Keys(m) ==> r == m + [(key, v)])
  }

  /** The recursive step of `Bump`, past a first entry with another key. */
  lemma BumpCons(m: seq<(string, int)>, key: string, v: int, rest: seq<(string, int)>)
    requires m != [] && m[0].0 != key
    requires BumpedFrom(m[1..], key, v, rest)
    ensures BumpedFrom(m, key, v, [m[0]] + rest)
  {
    var r := [m[0]] + rest;
    assert r[0] == m[0] && r[1..] == rest;
    assert SumValues(r) == m[0].1 + SumValues(rest);
    BumpConsLookups(m, key, v, rest);
    BumpConsKeys(m, key, rest);
    BumpConsNew(m, key, v, rest);
  }

  lemma BumpConsLookups(m: seq<(string, int)>, key: string, v: int, rest: seq<(string, int)>)
    requires m != [] && m[0].0 != key
    requires Lookup(rest, key) == Lookup(m[1..], key) + v
    requires forall other :: other != key ==> Lookup(rest, other) == Lookup(m[1..], other)
    ensures Lookup([m[0]] + rest, key) == Lookup(m, key) + v
    ensures forall other :: other != key ==> Lookup([m[0]] + rest, other) == Lookup(m, other)
  {
    var r := [m[0]] + rest;
    assert r[0] == m[0] && r[1..] == rest;
    forall other | other != key ensures Lookup(r, other) == Lookup(m, other) {
      if m[0].0 != other {
        assert Lookup(r, other) == Lookup(rest, other);
      }
    }
  }

  lemma BumpConsKeys(m: seq<(string, int)>, key: string, rest: seq<(string, int)>)
    requires m != []
    requires forall k :: k in Keys(rest) <==> k in Keys(m[1..]) || k == key
    ensures forall k :: k in Keys([m[0]] + rest) <==> k in Keys(m) || k == key
  {
    var r := [m[0]] + rest;
    assert r[0] == m[0] && r[1..] == rest;
    KeysCons(m);
    KeysCons(r);
  }

  lemma BumpConsNew(m: seq<(string, int)>, key: string, v: int, rest: seq<(string, int)>)
    requires m != [] && m[0].0 != key
    requires key !in Keys(m[1..]) ==> rest == m[1..] + [(key, v)]
    ensures key !in Keys(m) ==> [m[0]] + rest == m + [(key, v)]
  {
    if key !in Keys(m) {
      KeysCons(m);
      assert m + [(key, v)] == [m[0]] + (m[1..] + [(key, v)]);
    }
  }

  lemma DistinctTail(m: seq<(string, int)>)
    requires m != [] && DistinctKeys(m)
    ensures m[0].0 !in Keys(m[1..]) && DistinctKeys(m[1..])
  {
  }

  lemma DistinctCons(x: (string, int), rest: seq<(string, int)>)
    requires DistinctKeys(rest) && x.0 !in Keys(rest)
    ensures DistinctKeys([x] + rest)
  {
    forall i, j | 0 <= i < j < |[x] + rest|
      ensures ([x] + rest)[i].0 != ([x] + rest)[j].0
    {
      if i == 0 {
        assert Keys(rest)[j - 1] == rest[j - 1].0;
      }
    }
  }

  lemma {:induction false} BumpKeepsDistinct(m: seq<(string, int)>, key: string, v: int)
    requires DistinctKeys(m)
    ensures DistinctKeys(Bump(m, key, v))
  {
    if m == [] {
    } else if m[0].0 == key {
      DistinctTail(m);
      DistinctCons((key, m[0].1 + v), m[1..]);
    } else {
      DistinctTail(m);
      BumpKeepsDistinct(m[1..], key, v);
      DistinctCons(m[0], Bump(m[1..], key, v));
    }
  }

  /** The running state of `calculate_earnings`. */
  datatype Tally = Tally(total: int, count: nat, byDay: seq<(string, int)>, byStudent: seq<(string, int)>)

  /** The loop of `calculate_earnings`, one event at a time in calendar order: non-lesson
      colours are skipped, every lesson adds its price to the total, to its day and to its
      student. */
  function TallyEvents(events: seq<Event>): (t: Tally)
    ensures t.total == SumValues(t.byDay) == SumValues(t.byStudent)
    ensures t.count <= |events|
    ensures t.count == 0 <==> forall i :: 0 <= i < |events| ==> !IsLesson(events[i])
    decreases |events|
  {
    if events == [] then Tally(0, 0, [], [])
    else
      var t := TallyEvents(events[..|events| - 1]);
      var e := events[|events| - 1];
      assert forall i :: 0 <= i < |events| - 1 ==> events[..|events| - 1][i] == events[i];
      if !IsLesson(e) then t
      else
        var p := PriceOf(e);
        Tally(t.total + p, t.count + 1, Bump(t.byDay, DayOf(e), p), Bump(t.byStudent, Title(e), p))
  }

  /** An independent account of the same sums: the weight of each event, added up front to back. */
  function Weigh(events: seq<Event>, w: Event -> int): int {
    if events == [] then 0 else w(events[0]) + Weigh(events[1..], w)
  }

  lemma {:induction false} WeighSnoc(events: seq<Event>, e: Event, w: Event -> int)
    ensures Weigh(events + [e], w) == Weigh(events, w) + w(e)
  {
    if events == [] {
      assert events + [e] == [e];
    } else {
      assert (events + [e])[1..] == events[1..] + [e];
      WeighSnoc(events[1..], e, w);
    }
  }

  function LessonOne(): Event -> int {
    e => if IsLesson(e) then 1 else 0
  }

  function LessonAmount(): Event -> int {
    e => if IsLesson(e) then PriceOf(e) as int else 0
  }

  function DayAmount(day: string): Event -> int {
    e => if IsLesson(e) && DayOf(e) == day then PriceOf(e) as int else 0
  }

  function StudentAmount(name: string): Event -> int {
    e => if IsLesson(e) && Title(e) == name then PriceOf(e) as int else 0
  }

  /** The tally agrees with the direct sums: the count is the number of lessons, the total
      their prices, and each day and student holds exactly the prices of its own lessons.
      Every day and student appears once. */
  lemma {:induction false} TallyEventsMeaning(events: seq<Event>)
    ensures var t := TallyEvents(events);
            && t.count == Weigh(events, LessonOne())
            && t.total == Weigh(events, LessonAmount())
            && (forall day :: Lookup(t.byDay, day) == Weigh(events, DayAmount(day)))
            && (forall name :: Lookup(t.byStudent, name) == Weigh(events, StudentAmount(name)))
            && DistinctKeys(t.byDay) && DistinctKeys(t.byStudent)
  {
    TallyTotals(events);
    TallyDistinct(events);
    forall day
      ensures Lookup(TallyEvents(events).byDay, day) == Weigh(events, DayAmount(day))
    {
      TallyDay(events, day);
    }
    forall name
      ensures Lookup(TallyEvents(events).byStudent, name) == Weigh(events, StudentAmount(name))
    {
      TallyStudent(events, name);
    }
  }

  lemma {:induction false} TallyTotals(events: seq<Event>)
    ensures TallyEvents(events).count == Weigh(events, LessonOne())
    ensures TallyEvents(events).total == Weigh(events, LessonAmount())
    decreases |events|
  {
    if events != [] {
      var prefix := events[..|events| - 1];
      var e := events[|events| - 1];
      assert events == prefix + [e];
      TallyTotals(prefix);
      WeighSnoc(prefix, e, LessonOne());
      WeighSnoc(prefix, e, LessonAmount());
    }
  }

  lemma {:induction false} TallyDay(events: seq<Event>, day: string)
    ensures Lookup(TallyEvents(events).byDay, day) == Weigh(events, DayAmount(day))
    decreases |events|
  {
    if events != [] {
      var prefix := events[..|events| - 1];
      var e := events[|events| - 1];
      assert events == prefix + [e];
      TallyDay(prefix, day);
      WeighSnoc(prefix, e, DayAmount(day));
      TallyDayStep(prefix, e, day);
    }
  }

  /** One more event adds its day weight to the day's entry. */
  lemma TallyDayStep(prefix: seq<Event>, e: Event, day: string)
    ensures Lookup(TallyEvents(prefix + [e]).byDay, day)
            == Lookup(TallyEvents(prefix).byDay, day) + DayAmount(day)(e)
  {
    assert (prefix + [e])[..|prefix|] == prefix;
  }

  lemma {:induction false} TallyStudent(events: seq<Event>, name: string)
    ensures Lookup(TallyEvents(events).byStudent, name) == Weigh(events, StudentAmount(name))
    decreases |events|
  {
    if events != [] {
      var prefix := events[..|events| - 1];
      var e := events[|events| - 1];
      assert events == prefix + [e];
      TallyStudent(prefix, name);
      WeighSnoc(prefix, e, StudentAmount(name));
      TallyStudentStep(prefix, e, name);
    }
  }

  /** One more event adds its student weight to the student's entry. */
  lemma TallyStudentStep(prefix: seq<Event>, e: Event, name: string)
    ensures Lookup(TallyEvents(prefix + [e]).byStudent, name)
            == Lookup(TallyEvents(prefix).byStudent, name) + StudentAmount(name)(e)
  {
    assert (prefix + [e])[..|prefix|] == prefix;
  }

  lemma {:induction false} TallyDistinct(events: seq<Event>)
    ensures DistinctKeys(TallyEvents(events).byDay) && DistinctKeys(TallyEvents(events).byStudent)
    decreases |events|
  {
    if events != [] {
      var prefix := events[..|events| - 1];
      var e := events[|events| - 1];
      TallyDistinct(prefix);
      var t := TallyEvents(prefix);
      if IsLesson(e) {
        BumpKeepsDistinct(t.byDay, DayOf(e), PriceOf(e));
        BumpKeepsDistinct(t.byStudent, Title(e), PriceOf(e));
      }
    }
  }

  /** Per-student lesson count as `calculate_earnings` writes it: events whose summary equals
      the name. A lesson without a summary is tallied under "(No title)" but is never counted. */
  function StudentCountAsWritten(name: string): Event -> int {
    e => if IsLesson(e) && e.summary == Some(name) then 1 else 0
  }

  /** Per-student lesson count over the same key the amounts use. */
  function StudentCount(name: string): Event -> int {
    e => if IsLesson(e) && Title(e) == name then 1 else 0
  }

  function StudentLessonCount(events: seq<Event>, name: string): int {
    Weigh(events, StudentCount(name))
  }

  const Untitled: Event := Event("e1", None, EventTime(Some("2025-03-02T10:00:00+02:00"), None, None),
                                 EventTime(Some("2025-03-02T11:00:00+02:00"), None, None), None, None)

  /** One untitled default-colour lesson: the report bills "(No title)" for its price yet
      the count as written says 0 lessons. */
  lemma UntitledLessonCountedZero()
    ensures Lookup(TallyEvents([Untitled]).byStudent, "(No title)") == PriceOf(Untitled) > 0
    ensures Weigh([Untitled], StudentCountAsWritten("(No title)")) == 0
    ensures StudentLessonCount([Untitled], "(No title)") == 1
  {
    var u := [Untitled];
    assert u[..0] == [] && u[1..] == [];
    assert IsLesson(Untitled) && Title(Untitled) == "(No title)";
    assert TallyEvents(u).byStudent == Bump([], "(No title)", PriceOf(Untitled));
    assert Weigh(u, StudentCountAsWritten("(No title)")) == StudentCountAsWritten("(No title)")(Untitled);
    assert Weigh(u, StudentCount("(No title)")) == StudentCount("(No title)")(Untitled);
  }

  lemma {:induction false} WeighNonNegative(events: seq<Event>, w: Event -> int)
    requires forall e :: w(e) >= 0
    ensures Weigh(events, w) >= 0
  {
    if events != [] {
      WeighNonNegative(events[1..], w);
    }
  }

  lemma {:induction false} WeighPositiveIff(events: seq<Event>, count: Event -> int, amount: Event -> int)
    requires forall e :: 0 <= count(e) <= 1
    requires forall e :: (count(e) == 1 ==> amount(e) > 0) && (count(e) == 0 ==> amount(e) == 0)
    ensures Weigh(events, count) > 0 <==> Weigh(events, amount) > 0
  {
    if events != [] {
      WeighPositiveIff(events[1..], count, amount);
      WeighNonNegative(events[1..], count);
      WeighNonNegative(events[1..], amount);
    }
  }

  /** With the corrected count, a student has lessons exactly when the report bills them. */
  lemma StudentCountMatchesAmount(events: seq<Event>, name: string)
    ensures StudentLessonCount(events, name) > 0 <==> Lookup(TallyEvents(events).byStudent, name) > 0
  {
    TallyEventsMeaning(events);
    WeighPositiveIff(events, StudentCount(name), StudentAmount(name));
  }

  /** Keys in non-decreasing order by Python's string comparison. */
  predicate KeysAscending(m: seq<(string, int)>) {
    forall i :: 0 < i < |m| ==> !LexLess(m[i].0, m[i - 1].0)
  }

  function InsertByKey(x: (string, int), s: seq<(string, int)>): (r: seq<(string, int)>)
    requires KeysAscending(s)
    ensures KeysAscending(r)
    ensures multiset(r) == multiset(s) + multiset{x}
    ensures |r| == |s| + 1
    ensures r[0] == x || (s != [] && r[0] == s[0])
  {
    if s == [] || !LexLess(s[0].0, x.0) then
      assert s != [] ==> !LexLess(s[0].0, x.0);
      [x] + s
    else
      var rest := InsertByKey(x, s[1..]);
      assert !LexLess(rest[0].0, s[0].0) by {
        if rest[0] == x {
          if LexLess(x.0, s[0].0) {
            LexLessTransitive(s[0].0, x.0, s[0].0);
            LexLessIrreflexive(s[0].0);
          }
        }
      }
      assert s == [s[0]] + s[1..];
      [s[0]] + rest
  }

  /** `sorted(by_day)`: the days in ascending order, each with its amount. */
  function SortDays(m: seq<(string, int)>): (r: seq<(string, int)>)
    ensures KeysAscending(r)
    ensures multiset(r) == multiset(m)
  {
    if m == [] then []
    else
      assert m == [m[0]] + m[1..];
      InsertByKey(m[0], SortDays(m[1..]))
  }

  predicate AmountsDescending(m: seq<(string, int)>) {
    forall i :: 0 < i < |m| ==> m[i - 1].1 >= m[i].1
  }

  /** The entries with a given amount, in order. */
  function WithAmount(m: seq<(string, int)>, a: int): seq<(string, int)> {
    if m == [] then [] else (if m[0].1 == a then [m[0]] else []) + WithAmount(m[1..], a)
  }

  /** Places `x` before the first entry whose amount is not larger. */
  function InsertDesc(x: (string, int), s: seq<(string, int)>): (r: seq<(string, int)>)
    requires AmountsDescending(s)
    ensures AmountsDescending(r)
    ensures multiset(r) == multiset(s) + multiset{x}
    ensures |r| == |s| + 1
    ensures r[0] == x || (s != [] && r[0] == s[0])
  {
    if s == [] || x.1 >= s[0].1 then [x] + s
    else
      var rest := InsertDesc(x, s[1..]);
      assert s == [s[0]] + s[1..];
      [s[0]] + rest
  }

  /** Entries with the amount of `x` keep their order, `x` going first among them. */
  lemma {:induction false} InsertDescStable(x: (string, int), s: seq<(string, int)>, a: int)
    requires AmountsDescending(s)
    ensures WithAmount(InsertDesc(x, s), a) == (if x.1 == a then [x] else []) + WithAmount(s, a)
  {
    if s == [] || x.1 >= s[0].1 {
      WithAmountCons(x, s, a);
    } else {
      var rest := InsertDesc(x, s[1..]);
      InsertDescStable(x, s[1..], a);
      WithAmountCons(s[0], rest, a);
      WithAmountCons(s[0], s[1..], a);
      assert [s[0]] + s[1..] == s;
    }
  }

  lemma WithAmountCons(y: (string, int), t: seq<(string, int)>, a: int)
    ensures WithAmount([y] + t, a) == (if y.1 == a then [y] else []) + WithAmount(t, a)
  {
    assert ([y] + t)[1..] == t;
  }

  /** `sorted(by_student.items(), key=lambda x: -x[1])`: descending amounts. */
  function SortByAmountDesc(m: seq<(string, int)>): (r: seq<(string, int)>)
    ensures AmountsDescending(r)
    ensures multiset(r) == multiset(m)
    ensures |r| == |m|
  {
    if m == [] then []
    else
      assert m == [m[0]] + m[1..];
      InsertDesc(m[0], SortByAmountDesc(m[1..]))
  }

  /** The sort is stable: students with equal amounts keep their first-seen order. */
  lemma {:induction false} SortByAmountDescStable(m: seq<(string, int)>, a: int)
    ensures WithAmount(SortByAmountDesc(m), a) == WithAmount(m, a)
  {
    if m != [] {
      SortByAmountDescStable(m[1..], a);
      InsertDescStable(m[0], SortByAmountDesc(m[1..]), a);
    }
  }

  function NoEventsText(startDate: string, endDate: string): string {
    "No events found between " + startDate + " and " + endDate + "."
  }

  function NoLessonsText(startDate: string, endDate: string): string {
    "No lessons found between " + startDate + " and " + endDate + "."
  }

  function TotalLine(total: int, count: int): string {
    "Total: " + IntToString(total) + " NIS (" + IntToString(count) + " lessons)"
  }

  function DayLines(days: seq<(string, int)>): seq<string> {
    seq(|days|, i requires 0 <= i < |days| => "  " + days[i].0 + ": " + IntToString(days[i].1) + " NIS")
  }

  /** One per-student line: the amount billed and the number of lessons counted. */
  function StudentLine(name: string, amount: int, count: int): string {
    "  " + name + ": " + IntToString(amount) + " NIS (" + IntToString(count) + " lessons)"
  }

  /** How a report counts a student's lessons: `StudentCountAsWritten` or `StudentCount`. */
  type Counter = string -> (Event -> int)

  function StudentLines(students: seq<(string, int)>, events: seq<Event>, count: Counter): seq<string> {
    seq(|students|, i requires 0 <= i < |students| =>
      StudentLine(students[i].0, students[i].1, Weigh(events, count(students[i].0))))
  }

  function Heading(t: Tally, startDate: string, endDate: string): seq<string> {
    ["=== Earnings for " + startDate + " to " + endDate + " ===", TotalLine(t.total, t.count), "\n--- Per work day ---"]
  }

  function Breakdown(t: Tally, events: seq<Event>, count: Counter): seq<string> {
    DayLines(SortDays(t.byDay)) + ["\n--- Per student ---"] + StudentLines(SortByAmountDesc(t.byStudent), events, count)
  }

  function EarningsLines(events: seq<Event>, startDate: string, endDate: string, count: Counter): (lines: seq<string>)
    ensures |lines| >= 4
  {
    var t := TallyEvents(events);
    Heading(t, startDate, endDate) + Breakdown(t, events, count)
  }

  /** The report text, whichever way the lessons are counted. */
  function EarningsText(events: seq<Event>, startDate: string, endDate: string, count: Counter): (text: string)
    ensures events == [] <==> text == NoEventsText(startDate, endDate)
    ensures (events != [] && forall i :: 0 <= i < |events| ==> !IsLesson(events[i]))
            <==> text == NoLessonsText(startDate, endDate)
  {
    if events == [] then NoEventsText(startDate, endDate)
    else if TallyEvents(events).count == 0 then
      assert NoLessonsText(startDate, endDate)[3] != NoEventsText(startDate, endDate)[3];
      NoLessonsText(startDate, endDate)
    else
      var lines := EarningsLines(events, startDate, endDate, count);
      JoinStartsWithFirst(lines, "\n");
      var text := Join(lines, "\n");
      assert text[0] == '=';
      assert NoLessonsText(startDate, endDate)[0] == 'N';
      assert NoEventsText(startDate, endDate)[0] == 'N';
      text
  }

  /** `calculate_earnings` on the events the calendar returned for the range, counting each
      student's lessons as line 289 does. */
  function EarningsReport(events: seq<Event>, startDate: string, endDate: string): (text: string)
    ensures events == [] <==> text == NoEventsText(startDate, endDate)
    ensures (events != [] && forall i :: 0 <= i < |events| ==> !IsLesson(events[i]))
            <==> text == NoLessonsText(startDate, endDate)
  {
    EarningsText(events, startDate, endDate, StudentCountAsWritten)
  }

  /** The report with each student's lessons counted under the key their amount uses. */
  function EarningsReportCorrected(events: seq<Event>, startDate: string, endDate: string): (text: string)
    ensures events == [] <==> text == NoEventsText(startDate, endDate)
    ensures (events != [] && forall i :: 0 <= i < |events| ==> !IsLesson(events[i]))
            <==> text == NoLessonsText(startDate, endDate)
  {
    EarningsText(events, startDate, endDate, StudentCount)
  }

  lemma ReportLines(events: seq<Event>, startDate: string, endDate: string)
    requires TallyEvents(events).count != 0
    ensures EarningsReport(events, startDate, endDate)
         == Join(EarningsLines(events, startDate, endDate, StudentCountAsWritten), "\n")
    ensures EarningsLines(events, startDate, endDate, StudentCountAsWritten)[1]
         == TotalLine(TallyEvents(events).total, TallyEvents(events).count)
  {
    var t := TallyEvents(events);
    assert EarningsLines(events, startDate, endDate, StudentCountAsWritten)[1] == Heading(t, startDate, endDate)[1];
  }

  /** The total line of a report states the number of lessons and the sum of their prices. */
  lemma EarningsReportTotals(events: seq<Event>, startDate: string, endDate: string)
    requires exists i :: 0 <= i < |events| && IsLesson(events[i])
    ensures Contains(EarningsReport(events, startDate, endDate),
                     TotalLine(Weigh(events, LessonAmount()), Weigh(events, LessonOne())))
  {
    var t := TallyEvents(events);
    TallyTotals(events);
    ReportLines(events, startDate, endDate);
    JoinContainsEachPart(EarningsLines(events, startDate, endDate, StudentCountAsWritten), "\n", 1);
  }

  /** The students of a report in the order it lists them. */
  function ReportStudents(events: seq<Event>): seq<(string, int)> {
    SortByAmountDesc(TallyEvents(events).byStudent)
  }

  /** Each student of the report gets its line, whichever way the lessons are counted. */
  lemma StudentLineInReport(events: seq<Event>, startDate: string, endDate: string, count: Counter, k: nat)
    requires TallyEvents(events).count != 0 && k < |TallyEvents(events).byStudent|
    ensures var st := ReportStudents(events)[k];
            Contains(EarningsText(events, startDate, endDate, count),
                     StudentLine(st.0, st.1, Weigh(events, count(st.0))))
  {
    var prefix := ReportPrefix(TallyEvents(events), startDate, endDate);
    var students := StudentLines(ReportStudents(events), events, count);
    EarningsTextLines(events, startDate, endDate, count);
    assert (prefix + students)[|prefix| + k] == students[k];
    JoinContainsEachPart(prefix + students, "\n", |prefix| + k);
  }

  /** Each student of the report gets a line with the amount billed to them and, as line 289
      counts, the number of lessons whose summary is their name. */
  lemma ReportCountsAsWritten(events: seq<Event>, startDate: string, endDate: string, k: nat)
    requires TallyEvents(events).count != 0 && k < |TallyEvents(events).byStudent|
    ensures var st := ReportStudents(events)[k];
            Contains(EarningsReport(events, startDate, endDate),
                     StudentLine(st.0, st.1, Weigh(events, StudentCountAsWritten(st.0))))
  {
    StudentLineInReport(events, startDate, endDate, StudentCountAsWritten, k);
  }

  /** The same line in the corrected report carries the count under the billing key. */
  lemma ReportCountsCorrected(events: seq<Event>, startDate: string, endDate: string, k: nat)
    requires TallyEvents(events).count != 0 && k < |TallyEvents(events).byStudent|
    ensures var st := ReportStudents(events)[k];
            Contains(EarningsReportCorrected(events, startDate, endDate),
                     StudentLine(st.0, st.1, StudentLessonCount(events, st.0)))
  {
    StudentLineInReport(events, startDate, endDate, StudentCount, k);
  }

  lemma UntitledStudents()
    ensures ReportStudents([Untitled]) == [("(No title)", PriceOf(Untitled) as int)]
  {
    var u := [Untitled];
    assert u[..0] == [] && u[1..] == [];
    assert IsLesson(Untitled) && Title(Untitled) == "(No title)";
    assert TallyEvents(u).byStudent == Bump([], "(No title)", PriceOf(Untitled));
  }

  /** The lines before the per-student ones. */
  function ReportPrefix(t: Tally, startDate: string, endDate: string): seq<string> {
    Heading(t, startDate, endDate) + DayLines(SortDays(t.byDay)) + ["\n--- Per student ---"]
  }

  lemma EarningsTextLines(events: seq<Event>, startDate: string, endDate: string, count: Counter)
    requires TallyEvents(events).count != 0
    ensures EarningsText(events, startDate, endDate, count)
         == Join(ReportPrefix(TallyEvents(events), startDate, endDate)
                 + StudentLines(ReportStudents(events), events, count), "\n")
  {
    var t := TallyEvents(events);
    Regroup(Heading(t, startDate, endDate), DayLines(SortDays(t.byDay)), ["\n--- Per student ---"],
            StudentLines(ReportStudents(events), events, count));
  }

  lemma Regroup(a: seq<string>, b: seq<string>, c: seq<string>, d: seq<string>)
    ensures a + (b + c + d) == (a + b + c) + d
  {
  }

  /** A report with a single student ends with that student's line. */
  lemma OneStudentReport(events: seq<Event>, startDate: string, endDate: string, count: Counter)
    requires TallyEvents(events).count != 0 && |TallyEvents(events).byStudent| == 1
    ensures var st := ReportStudents(events)[0];
            EarningsText(events, startDate, endDate, count)
              == Join(ReportPrefix(TallyEvents(events), startDate, endDate), "\n")
                 + "\n" + StudentLine(st.0, st.1, Weigh(events, count(st.0)))
  {
    var st := ReportStudents(events)[0];
    var line := StudentLine(st.0, st.1, Weigh(events, count(st.0)));
    assert StudentLines(ReportStudents(events), events, count) == [line];
    EarningsTextLines(events, startDate, endDate, count);
    JoinSnoc(ReportPrefix(TallyEvents(events), startDate, endDate), line, "\n");
  }

  /** Lines that differ only in a one-digit count have the same length and are not equal. */
  lemma StudentLineCounts(name: string, amount: int)
    ensures |StudentLine(name, amount, 0)| == |StudentLine(name, amount, 1)|
    ensures StudentLine(name, amount, 0) != StudentLine(name, amount, 1)
  {
    var a := StudentLine(name, amount, 0);
    var b := StudentLine(name, amount, 1);
    assert a[|a| - 10] == '0' && b[|b| - 10] == '1';
  }

  /** On one untitled lesson the two reports differ: only in the lesson count of the
      "(No title)" line, 0 as written and 1 corrected. */
  lemma UntitledReportsDiffer(startDate: string, endDate: string)
    ensures EarningsReport([Untitled], startDate, endDate) != EarningsReportCorrected([Untitled], startDate, endDate)
  {
    UntitledLessonCountedZero();
    UntitledStudents();
    var u := [Untitled];
    var p := PriceOf(Untitled) as int;
    OneStudentReport(u, startDate, endDate, StudentCountAsWritten);
    OneStudentReport(u, startDate, endDate, StudentCount);
    StudentLineCounts("(No title)", p);
    AppendDiffers(Join(ReportPrefix(TallyEvents(u), startDate, endDate), "\n") + "\n",
                  StudentLine("(No title)", p, 0), StudentLine("(No title)", p, 1));
  }

  // ---------------------------------------------------------------- list_lessons

  /** One item of `list_lessons`. */
  datatype Lesson = Lesson(studentName: string, date: string, time: string, price: nat)

  /** An event's item, if it is a timed lesson: date and time are cut from the start text. */
  function ListedLesson(e: Event): (r: Option<Lesson>)
    ensures r.Some? <==> IsLesson(e) && e.start.dateTime.Some? && e.start.dateTime.value != ""
    ensures r.Some? ==> r.value.price == PriceOf(e) && r.value.studentName == Title(e)
  {
    if !IsLesson(e) then None
    else match e.start.dateTime
      case None => None
      case Some(t) =>
        if t == "" then None else Some(Lesson(Title(e), Slice(t, 0, 10), Slice(t, 11, 16), PriceOf(e)))
  }

  /** The item of one event, if it has one. */
  function ListedItems(e: Event): (r: seq<Lesson>)
    ensures |r| <= 1
    ensures forall l :: l in r <==> ListedLesson(e) == Some(l)
  {
    match ListedLesson(e) case None => [] case Some(l) => [l]
  }

  /** `list_lessons`: the timed lessons, in calendar order. */
  function ListLessons(events: seq<Event>): (r: seq<Lesson>)
    ensures |r| <= |events|
    ensures forall l :: l in r <==> exists i :: 0 <= i < |events| && ListedLesson(events[i]) == Some(l)
  {
    var r := Flatten(events, ListedItems);
    FlattenShort(events, ListedItems);
    forall l ensures l in r <==> exists i :: 0 <= i < |events| && ListedLesson(events[i]) == Some(l) {
      if l in r {
        FlattenFrom(events, ListedItems, l);
      }
      if i :| 0 <= i < |events| && ListedLesson(events[i]) == Some(l) {
        FlattenHas(events, ListedItems, i, l);
      }
    }
    r
  }

  lemma ListLessonsAppend(a: seq<Event>, b: seq<Event>)
    ensures ListLessons(a + b) == ListLessons(a) + ListLessons(b)
  {
    FlattenAppend(a, b, ListedItems);
  }

  /** A timed event's slot is the first ten and the five characters after the `T`. */
  lemma ListedLessonSlot(e: Event, t: string)
    requires IsLesson(e) && e.start.dateTime == Some(t) && |t| >= 16
    ensures ListedLesson(e) == Some(Lesson(Title(e), t[..10], t[11..16], PriceOf(e)))
  {
  }

  function LessonPrices(ls: seq<Lesson>): int {
    if ls == [] then 0 else ls[0].price + LessonPrices(ls[1..])
  }

  /** When every lesson is timed, `list_lessons` and `calculate_earnings` agree: as many
      items as lessons counted, and their prices add up to the total. */
  lemma {:induction false} ListLessonsAgreesWithEarnings(events: seq<Event>)
    requires forall i :: 0 <= i < |events| && IsLesson(events[i]) ==>
               events[i].start.dateTime.Some? && events[i].start.dateTime.value != ""
    ensures |ListLessons(events)| == Weigh(events, LessonOne())
    ensures LessonPrices(ListLessons(events)) == Weigh(events, LessonAmount())
  {
    if events != [] {
      var e := events[0];
      var rest := events[1..];
      assert forall i :: 0 <= i < |rest| ==> rest[i] == events[i + 1];
      ListLessonsAgreesWithEarnings(rest);
      var ls := ListLessons(events);
      assert Weigh(events, LessonOne()) == LessonOne()(e) + Weigh(rest, LessonOne());
      assert Weigh(events, LessonAmount()) == LessonAmount()(e) + Weigh(rest, LessonAmount());
      if IsLesson(e) {
        var l := ListedLesson(e).value;
        assert ls == [l] + ListLessons(rest);
        assert ls[1..] == ListLessons(rest);
        assert LessonPrices(ls) == l.price + LessonPrices(ListLessons(rest));
      } else {
        assert ls == ListLessons(rest);
      }
    }
  }

  // ---------------------------------------------------------------- update_event

  /** What `update_event` sends back to the calendar (if anything) and the text it returns. */
  datatype UpdateReply = UpdateReply(sent: Option<Event>, text: string)

  /** The new `start`/`end` object for a local time text: the `date` key is dropped. */
  function TimedAt(localText: string): (r: Result<EventTime>)
    ensures r.Ok? <==> LocalTime.ToRfc3339(localText).Ok?
    ensures r.Ok? ==> r.value.dateTime == Some(LocalTime.ToRfc3339(localText).value)
                      && r.value.date.None? && r.value.timeZone == Some(TimeZone)
  {
    match LocalTime.ToRfc3339(localText)
    case Raise(err) => Raise(err)
    case Ok(iso) => Ok(EventTime(Some(iso), None, Some(TimeZone)))
  }

  /** Replace when the argument is non-empty; keep otherwise. */
  function MergeText(current: Option<string>, arg: string): (r: Option<string>)
    ensures arg == "" ==> r == current
    ensures arg != "" ==> r == Some(arg)
  {
    if arg == "" then current else Some(arg)
  }

  /** A non-empty time argument replaces the whole `start`/`end` object. */
  function MergeTime(current: EventTime, arg: string): (r: Result<EventTime>)
    ensures arg == "" ==> r == Ok(current)
    ensures arg != "" ==> (r.Ok? <==> LocalTime.ToRfc3339(arg).Ok?)
    ensures arg != "" && r.Ok? ==> r.value.date.None? && r.value.timeZone == Some(TimeZone)
  {
    if arg == "" then Ok(current) else TimedAt(arg)
  }

  /** The event body `update_event` builds: every field whose argument is empty is kept. */
  function Merge(before: Event, summary: string, start: EventTime, end: EventTime,
                 description: string, colorId: string): (after: Event)
    ensures after.id == before.id && after.start == start && after.end == end
    ensures summary == "" ==> after.summary == before.summary
    ensures summary != "" ==> after.summary == Some(summary)
    ensures description == "" ==> after.description == before.description
    ensures description != "" ==> after.description == Some(description)
    ensures colorId == "" ==> after.colorId == before.colorId
    ensures colorId != "" ==> after.colorId == Some(colorId)
  {
    before.(summary := MergeText(before.summary, summary), start := start, end := end,
            description := MergeText(before.description, description),
            colorId := MergeText(before.colorId, colorId))
  }

  /** The body `update_event` sends: the fetched event with the non-empty arguments merged in;
      a time the local-time parser rejects raises `ValueError` before anything is sent. */
  function UpdateBody(before: Event, summary: string, startTime: string, endTime: string,
                      description: string, colorId: string): (r: Result<Event>)
    ensures r.Ok? <==> MergeTime(before.start, startTime).Ok? && MergeTime(before.end, endTime).Ok?
    ensures r.Ok? ==> r.value == Merge(before, summary, MergeTime(before.start, startTime).value,
                                       MergeTime(before.end, endTime).value, description, colorId)
  {
    match MergeTime(before.start, startTime)
    case Raise(err) => Raise(err)
    case Ok(start) =>
      match MergeTime(before.end, endTime)
      case Raise(err) => Raise(err)
      case Ok(end) => Ok(Merge(before, summary, start, end, description, colorId))
  }

  /** `updated.get('summary')` as an f-string shows it. */
  function Shown(summary: Option<string>): string {
    match summary
    case Some(s) => s
    case None => "None"
  }

  /** The reply after a successful update, naming the event the calendar returned. */
  function UpdatedText(updated: Event): (text: string)
    ensures StartsWith(text, "Event updated: ")
  {
    StartsWithAppend("Event updated: ", Shown(updated.summary) + " (ID: " + updated.id + ")");
    "Event updated: " + (Shown(updated.summary) + " (ID: " + updated.id + ")")
  }

  /** `update_event`: `fetched` is the calendar's answer to the get and `update` its answer to
      the update of a body. A failed get is reported in the reply; a rejected time or a failed
      update raises out of the tool. The reply names the event the update returned. */
  function UpdateEvent(fetched: Result<Event>, update: Event -> Result<Event>, eventId: string, summary: string,
                       startTime: string, endTime: string, description: string, colorId: string): (r: Result<UpdateReply>)
    ensures fetched.Raise? ==> r.Ok? && r.value.sent.None? && StartsWith(r.value.text, "Failed to get event ")
    ensures fetched.Ok? ==> (r.Ok? <==> UpdateBody(fetched.value, summary, startTime, endTime, description, colorId).Ok?
                                        && update(UpdateBody(fetched.value, summary, startTime, endTime, description, colorId).value).Ok?)
    ensures fetched.Ok? && r.Raise? ==>
              var body := UpdateBody(fetched.value, summary, startTime, endTime, description, colorId);
              r.error == (if body.Raise? then body.error else update(body.value).error)
    ensures fetched.Ok? && r.Ok? ==>
              var body := UpdateBody(fetched.value, summary, startTime, endTime, description, colorId).value;
              && r.value.sent == Some(body)
              && r.value.text == UpdatedText(update(body).value)
  {
    match fetched
    case Raise(err) =>
      StartsWithAppend("Failed to get event ", eventId + ": " + err);
      Ok(UpdateReply(None, "Failed to get event " + (eventId + ": " + err)))
    case Ok(before) =>
      match UpdateBody(before, summary, startTime, endTime, description, colorId)
      case Raise(err) => Raise(err)
      case Ok(body) =>
        match update(body)
        case Raise(err) => Raise(err)
        case Ok(updated) => Ok(UpdateReply(Some(body), UpdatedText(updated)))
  }

  /** An update with every argument empty sends the event back unchanged. */
  lemma UpdateBodyEmptyIsIdentity(before: Event)
    ensures UpdateBody(before, "", "", "", "", "") == Ok(before)
  {
  }

  /** Applying the same update to its own result changes nothing more. */
  lemma UpdateBodyIdempotent(before: Event, summary: string, startTime: string,
                             endTime: string, description: string, colorId: string)
    requires UpdateBody(before, summary, startTime, endTime, description, colorId).Ok?
    ensures var once := UpdateBody(before, summary, startTime, endTime, description, colorId).value;
            UpdateBody(once, summary, startTime, endTime, description, colorId) == Ok(once)
  {
  }

  /** With a calendar that stores the body as sent, the reply names the new summary (the old
      one when the argument is empty) and the fetched event's id. */
  lemma UpdateEventNamesStoredEvent(before: Event, eventId: string, summary: string, startTime: string,
                                    endTime: string, description: string, colorId: string)
    requires UpdateBody(before, summary, startTime, endTime, description, colorId).Ok?
    ensures var r := UpdateEvent(Ok(before), e => Ok(e), eventId, summary, startTime, endTime, description, colorId);
            r.Ok? && r.value.text == "Event updated: " + Shown(MergeText(before.summary, summary)) + " (ID: " + before.id + ")"
  {
    var body := UpdateBody(before, summary, startTime, endTime, description, colorId).value;
    assert body.summary == MergeText(before.summary, summary) && body.id == before.id;
    var stored: Event -> Result<Event> := e => Ok(e);
    assert stored(body) == Ok(body);
  }

  // ---------------------------------------------------------------- delete_event

  /** The line for one id: `failure` is the text of the exception the delete raised, if any. */
  function DeleteLine(id: string, failure: Option<string>): (line: string)
    ensures StartsWith(line, ErrorMarker) <==> failure.Some?
  {
    match failure
    case None =>
      var line := "Event " + id + " deleted successfully.";
      assert line[0] == 'E';
      line
    case Some(msg) =>
      var line := ErrorMarker + ": Failed to delete " + id + ": " + msg;
      assert line[..|ErrorMarker|] == ErrorMarker;
      line
  }

  /** The per-id results in input order; `delete(i, id)` is the outcome of the i-th call,
      made with the stripped id (the calls run in parallel; gathering keeps call order). */
  function DeleteLines(ids: seq<string>, delete: (nat, string) -> Option<string>): (lines: seq<string>)
    ensures |lines| == |ids|
    ensures forall i :: 0 <= i < |ids| ==>
              (StartsWith(lines[i], ErrorMarker) <==> delete(i, Strip(ids[i])).Some?)
    ensures forall i :: 0 <= i < |ids| && delete(i, Strip(ids[i])).None? ==>
              lines[i] == "Event " + Strip(ids[i]) + " deleted successfully."
  {
    seq(|ids|, i requires 0 <= i < |ids| => DeleteLine(Strip(ids[i]), delete(i, Strip(ids[i]))))
  }

  /** `delete_event`. */
  function DeleteEvent(ids: seq<string>, delete: (nat, string) -> Option<string>): (r: string)
    ensures ids == [] ==> r == ""
    ensures |ids| == 1 ==> r == DeleteLine(Strip(ids[0]), delete(0, Strip(ids[0])))
    ensures forall k :: 0 <= k < |ids| ==> Contains(r, DeleteLine(Strip(ids[k]), delete(k, Strip(ids[k]))))
  {
    var lines := DeleteLines(ids, delete);
    JoinContainsEvery(lines, "\n");
    Join(lines, "\n")
  }

  /** One failed deletion puts the error marker into the tool's reply, which is what makes
      the schedule loop add its retry nudge. */
  lemma DeleteFailureIsMarked(ids: seq<string>, delete: (nat, string) -> Option<string>, k: nat)
    requires k < |ids| && delete(k, Strip(ids[k])).Some?
    ensures Contains(DeleteEvent(ids, delete), ErrorMarker)
  {
    var lines := DeleteLines(ids, delete);
    StartsWithContains(lines[k], ErrorMarker);
    JoinContainsPart(lines, "\n", k, ErrorMarker);
  }
}

/** The function-calling loop the schedule, stock and work agents share: send the
    conversation to the model, execute every tool call of its reply, append the reply and
    the results, and ask again until the reply holds no call. The model and the tool
    servers are oracles: the model is a function of the conversation it is sent, a tool
    server a function of the round, the call's position in the round and the call. */
module ToolLoop {
  import opened Outcomes
  import opened Seqs
  import opened Strings
  import opened JsonValues
  import Memory
  import ScheduleTools

  datatype Call = Call(name: string, args: Fields)

  /** The parts of a message this model distinguishes. */
  datatype Part =
    | Text(text: string)
    | FunctionCall(call: Call)
    | FunctionResponse(name: string, result: string)

  datatype Content = Content(role: string, parts: seq<Part>)

  /** The model: the reply it gives to a conversation. */
  type Model = seq<Content> -> Content
  /** A tool server: the text of the first content item of a call's result, `None` when the
      result has no content. */
  type Server = (nat, nat, Call) -> Option<string>
  /** What the loop feeds back for a call: its text, or the exception the call raised. */
  type Executor = (nat, nat, Call) -> Result<string>

  /** Only the schedule agent bounds the number of tool rounds. */
  const MaxToolIterations: nat := 10

  const RetryNudge: string :=
    "\U{26A0}\U{FE0F} One or more tool calls above returned \U{274C} ERROR. "
    + "Do NOT give up or report failure to the user. "
    + "Analyze the error, fix the issue (re-list events if IDs may be "
    + "stale, correct the date/time format, etc.), and retry the failed operation."

  /** No call ever raises: the schedule and stock agents' executors. */
  ghost predicate NeverRaises(exec: Executor) {
    forall n: nat, i: nat, c: Call :: exec(n, i, c).Ok?
  }

  /** Some call of a round from `lo` up to `hi` raises `e`. */
  ghost predicate RaisedIn(exec: Executor, e: string, lo: nat, hi: nat) {
    exists n: nat, i: nat, c: Call :: lo <= n < hi && exec(n, i, c) == Raise(e)
  }

  /** The function calls of a reply, in order. */
  function Calls(parts: seq<Part>): (calls: seq<Call>)
    ensures |calls| <= |parts|
    ensures calls == [] <==> forall i :: 0 <= i < |parts| ==> !parts[i].FunctionCall?
    ensures forall c :: c in calls <==> FunctionCall(c) in parts
  {
    if parts == [] then []
    else if parts[0].FunctionCall? then [parts[0].call] + Calls(parts[1..])
    else Calls(parts[1..])
  }

  /** The loop condition: some part of the reply is a function call. */
  predicate HasCalls(c: Content) {
    Calls(c.parts) != []
  }

  /** `result.content[0].text if result.content else "No result"`. */
  function McpText(content: Option<string>): (text: string)
    ensures content.Some? ==> text == content.value
    ensures content.None? ==> text == "No result"
  {
    content.GetOr("No result")
  }

  /** How the schedule and stock agents execute a call: straight through their server,
      which answers a failing tool with a text rather than an exception. */
  function ViaServer(server: Server): Executor {
    (round: nat, index: nat, call: Call) => Ok(McpText(server(round, index, call)))
  }

  /** `asyncio.gather` over one round's calls: their texts, one per call in call order, or
      the exception of a call that raised, which propagates out of the loop. */
  function Results(round: nat, calls: seq<Call>, exec: Executor): (r: Result<seq<string>>)
    ensures r.Ok? <==> forall i :: 0 <= i < |calls| ==> exec(round, i, calls[i]).Ok?
    ensures r.Ok? ==> |r.value| == |calls| && forall i :: 0 <= i < |calls| ==> exec(round, i, calls[i]) == Ok(r.value[i])
    ensures r.Raise? ==> exists i :: 0 <= i < |calls| && exec(round, i, calls[i]) == Raise(r.error)
  {
    var outs := seq(|calls|, i requires 0 <= i < |calls| => exec(round, i, calls[i]));
    assert forall i :: 0 <= i < |calls| ==> outs[i] == exec(round, i, calls[i]);
    Collect(outs)
  }

  /** The function-response parts, zipping calls with their results. */
  function Responses(calls: seq<Call>, texts: seq<string>): (parts: seq<Part>)
    requires |calls| == |texts|
    ensures |parts| == |calls|
    ensures forall i :: 0 <= i < |calls| ==> parts[i] == FunctionResponse(calls[i].name, texts[i])
  {
    seq(|calls|, i requires 0 <= i < |calls| => FunctionResponse(calls[i].name, texts[i]))
  }

  /** `any("❌ ERROR" in text for text in result_texts)`. */
  function AnyError(texts: seq<string>): (b: bool)
    ensures b <==> exists i :: 0 <= i < |texts| && Contains(texts[i], ScheduleTools.ErrorMarker)
  {
    if texts == [] then false
    else Contains(texts[0], ScheduleTools.ErrorMarker) || AnyError(texts[1..])
  }

  /** The user turn carrying a round's results; the schedule agent (`nudge`) adds the retry
      request after them when some result reports an error. */
  function ResultTurn(calls: seq<Call>, texts: seq<string>, nudge: bool): Content
    requires |calls| == |texts|
  {
    var parts := Responses(calls, texts);
    Content("user", if nudge && AnyError(texts) then parts + [Text(RetryNudge)] else parts)
  }

  /** `turn` is the user turn answering `calls`: one response per call, in call order, with
      the text the call returned, then the retry request exactly when `nudge` is set and some
      result reports an error. */
  ghost predicate CarriesResults(turn: Content, calls: seq<Call>, round: nat, exec: Executor, nudge: bool) {
    && turn.role == "user"
    && |calls| <= |turn.parts| <= |calls| + 1
    && (forall i :: 0 <= i < |calls| ==>
          && turn.parts[i].FunctionResponse? && turn.parts[i].name == calls[i].name
          && exec(round, i, calls[i]) == Ok(turn.parts[i].result))
    && (|turn.parts| == |calls| + 1 <==>
          nudge && exists i :: 0 <= i < |calls| && Contains(turn.parts[i].result, ScheduleTools.ErrorMarker))
    && (|turn.parts| == |calls| + 1 ==> turn.parts[|calls|] == Text(RetryNudge))
  }

  /** One round: the reply, then the user turn with its results, appended to the
      conversation; a call that raises ends the round, and the loop, with its exception. */
  function Round(contents: seq<Content>, reply: Content, round: nat, exec: Executor, nudge: bool): (next: Result<seq<Content>>)
    ensures var calls := Calls(reply.parts);
            next.Raise? <==> exists i :: 0 <= i < |calls| && exec(round, i, calls[i]).Raise?
    ensures var calls := Calls(reply.parts);
            next.Raise? ==> exists i :: 0 <= i < |calls| && exec(round, i, calls[i]) == Raise(next.error)
    ensures next.Ok? ==> |next.value| == |contents| + 2 && next.value == contents + [reply, next.value[|contents| + 1]]
    ensures next.Ok? ==> CarriesResults(next.value[|contents| + 1], Calls(reply.parts), round, exec, nudge)
  {
    var calls := Calls(reply.parts);
    match Results(round, calls, exec)
    case Raise(e) =>
      var i :| 0 <= i < |calls| && exec(round, i, calls[i]) == Raise(e);
      assert exists j :: 0 <= j < |Calls(reply.parts)| && exec(round, j, Calls(reply.parts)[j]).Raise? by {
        assert 0 <= i < |calls| && exec(round, i, calls[i]).Raise?;
      }
      Raise(e)
    case Ok(texts) =>
      var turn := ResultTurn(calls, texts, nudge);
      assert forall i :: 0 <= i < |calls| ==> turn.parts[i] == FunctionResponse(calls[i].name, texts[i]);
      assert forall i :: 0 <= i < |calls| ==> !exec(round, i, calls[i]).Raise?;
      Ok(contents + [reply, turn])
  }

  /** Where a loop stopped: the whole conversation, the last reply and the rounds executed. */
  datatype Run = Run(contents: seq<Content>, reply: Content, rounds: nat)

  /** The loop from round `rounds` on, executing rounds while the reply has calls and fewer
      than `limit` rounds have run; a call that raises ends it with its exception. */
  function Drive(contents: seq<Content>, reply: Content, rounds: nat, limit: nat,
                 model: Model, exec: Executor, nudge: bool): (r: Result<Run>)
    requires rounds <= limit
    ensures NeverRaises(exec) ==> r.Ok?
    ensures r.Raise? ==> RaisedIn(exec, r.error, rounds, limit)
    ensures !HasCalls(reply) ==> r == Ok(Run(contents, reply, rounds))
    ensures r.Ok? ==> Continues(contents, reply, rounds, limit, model, r.value)
    decreases limit - rounds
  {
    if !HasCalls(reply) || rounds == limit then Ok(Run(contents, reply, rounds))
    else match Round(contents, reply, rounds, exec, nudge)
      case Raise(e) =>
        var calls := Calls(reply.parts);
        var i :| 0 <= i < |calls| && exec(rounds, i, calls[i]) == Raise(e);
        assert RaisedIn(exec, e, rounds, limit) by {
          assert rounds <= rounds < limit && exec(rounds, i, calls[i]) == Raise(e);
        }
        Raise(e)
      case Ok(next) =>
        var r := Drive(next, model(next), rounds + 1, limit, model, exec, nudge);
        if r.Raise? then r
        else
          var turn := next[|contents| + 1];
          assert next == contents + [reply, turn];
          assert |next| == |contents| + 2;
          Stepped(contents, reply, turn, rounds, limit, model, r.value);
          r
  }

  /** What a loop started at round `rounds` on `contents` and `reply` ends with: it ran
      between `rounds` and `limit` rounds, each adding a reply and its results after the
      untouched older contents; every executed reply had calls; the last reply is the model's
      answer to the whole conversation, unless no round ran; and a last reply that still
      calls tools means the bound was reached. */
  ghost predicate Continues(contents: seq<Content>, reply: Content, rounds: nat, limit: nat,
                            model: Model, run: Run) {
    && rounds <= run.rounds <= limit
    && |run.contents| == |contents| + 2 * (run.rounds - rounds)
    && run.contents[..|contents|] == contents
    && (HasCalls(run.reply) ==> run.rounds == limit)
    && (run.rounds == rounds ==> run == Run(contents, reply, rounds))
    && (run.rounds > rounds ==> run.reply == model(run.contents))
    && forall j :: 0 <= j < run.rounds - rounds ==> HasCalls(run.contents[|contents| + 2 * j])
  }

  /** One more executed round, seen from the conversation before it: what the rest of the
      loop keeps of `contents + [reply, results]` it keeps of `contents`, and the round's
      reply, which had calls, sits right after them. */
  lemma Stepped(contents: seq<Content>, reply: Content, results: Content, rounds: nat, limit: nat,
                model: Model, run: Run)
    requires HasCalls(reply) && rounds < limit
    requires var next := contents + [reply, results]; Continues(next, model(next), rounds + 1, limit, model, run)
    ensures Continues(contents, reply, rounds, limit, model, run)
  {
    var next := contents + [reply, results];
    var after := run.contents;
    assert after[..|contents|] == after[..|next|][..|contents|];
    forall j | 0 <= j < run.rounds - rounds
      ensures HasCalls(after[|contents| + 2 * j])
    {
      if j == 0 {
        assert after[|contents|] == after[..|next|][|contents|] == reply;
      } else {
        assert |contents| + 2 * j == |next| + 2 * (j - 1);
      }
    }
  }

  /** A loop that ends because the model stops calling tools ends the same way under any
      larger bound: the schedule agent's cap only matters for a model that keeps calling. */
  lemma {:induction false} DriveLimitIrrelevant(contents: seq<Content>, reply: Content, rounds: nat,
                                                limit: nat, larger: nat, model: Model, exec: Executor, nudge: bool)
    requires rounds <= limit <= larger
    requires var r := Drive(contents, reply, rounds, limit, model, exec, nudge); r.Ok? && !HasCalls(r.value.reply)
    ensures Drive(contents, reply, rounds, larger, model, exec, nudge) == Drive(contents, reply, rounds, limit, model, exec, nudge)
    decreases limit - rounds
  {
    if !HasCalls(reply) {
    } else if rounds == limit {
    } else {
      var round := Round(contents, reply, rounds, exec, nudge);
      assert round.Ok?;
      var next := round.value;
      assert Drive(contents, reply, rounds, limit, model, exec, nudge) == Drive(next, model(next), rounds + 1, limit, model, exec, nudge);
      assert Drive(contents, reply, rounds, larger, model, exec, nudge) == Drive(next, model(next), rounds + 1, larger, model, exec, nudge);
      assert Drive(next, model(next), rounds + 1, limit, model, exec, nudge).Ok?;
      assert !HasCalls(Drive(next, model(next), rounds + 1, limit, model, exec, nudge).value.reply);
      DriveLimitIrrelevant(next, model(next), rounds + 1, limit, larger, model, exec, nudge);
    }
  }

  /** A round only ever adds to the conversation: everything before the loop is kept and
      the reply of every executed round is followed by its results. */
  lemma {:induction false} DriveExtendsByRounds(contents: seq<Content>, reply: Content, rounds: nat,
                                                limit: nat, model: Model, exec: Executor, nudge: bool)
    requires rounds <= limit && HasCalls(reply) && rounds < limit
    ensures var r := Drive(contents, reply, rounds, limit, model, exec, nudge);
            r.Ok? ==> && Round(contents, reply, rounds, exec, nudge).Ok?
                      && |r.value.contents| >= |contents| + 2
                      && r.value.contents[..|contents| + 2] == Round(contents, reply, rounds, exec, nudge).value
  {
    var r := Drive(contents, reply, rounds, limit, model, exec, nudge);
    if r.Ok? {
      var next := Round(contents, reply, rounds, exec, nudge).value;
      var rest := Drive(next, model(next), rounds + 1, limit, model, exec, nudge);
      assert rest == r;
      assert r.value.contents[..|next|] == next;
    }
  }

  /** How an agent's loop ends: with the conversation it reached, with the exception a tool
      call raised, or (for the unbounded loops) out of fuel while the model still calls. */
  datatype Ending = Ended(run: Run) | Failed(error: string) | NoFuel

  /** The loop as each agent runs it: the schedule agent stops after `MaxToolIterations`
      rounds even when the model still calls tools; the stock and work agents loop until
      it stops, which the model represents with `fuel` rounds at most. */
  function Converse(capped: bool, seed: seq<Content>, model: Model, exec: Executor, fuel: nat): (r: Ending)
    ensures capped ==> !r.NoFuel?
    ensures NeverRaises(exec) ==> !r.Failed?
    ensures r.Failed? ==> RaisedIn(exec, r.error, 0, if capped then MaxToolIterations else fuel)
    ensures var first := model(seed); var round := Round(seed, first, 0, exec, capped);
            HasCalls(first) && (capped || fuel > 0) && round.Raise? ==> r == Failed(round.error)
    ensures capped && r.Ended? ==> r.run.rounds <= MaxToolIterations
    ensures r.Ended? ==> |r.run.contents| == |seed| + 2 * r.run.rounds
    ensures r.Ended? ==> r.run.contents[..|seed|] == seed
    ensures r.Ended? && !capped ==> !HasCalls(r.run.reply)
    ensures r.Ended? && HasCalls(r.run.reply) ==> r.run.rounds == MaxToolIterations
    ensures r.Ended? ==> r.run.reply == model(r.run.contents)
    ensures !HasCalls(model(seed)) ==> r == Ended(Run(seed, model(seed), 0))
    ensures r.Ended? ==> forall j :: 0 <= j < r.run.rounds ==> HasCalls(r.run.contents[|seed| + 2 * j])
  {
    var first := model(seed);
    match Drive(seed, first, 0, if capped then MaxToolIterations else fuel, model, exec, capped)
    case Raise(e) => Failed(e)
    case Ok(run) => if !capped && HasCalls(run.reply) then NoFuel else Ended(run)
  }

  /** `response.text`: the text parts joined, `None` when there is none. */
  function ReplyText(parts: seq<Part>): (r: Option<string>)
    ensures r.None? <==> forall i :: 0 <= i < |parts| ==> !parts[i].Text?
  {
    if parts == [] then None
    else
      var rest := ReplyText(parts[1..]);
      assert forall i :: 1 <= i < |parts| ==> parts[1..][i - 1] == parts[i];
      if parts[0].Text? then Some(parts[0].text + rest.GetOr("")) else rest
  }

  /** Every text part of a reply is part of its text, and nothing else is in it: a reply
      made of one text part is that text. */
  lemma {:induction false} ReplyTextHasEveryPart(parts: seq<Part>, i: nat)
    requires i < |parts| && parts[i].Text?
    ensures ReplyText(parts).Some? && Contains(ReplyText(parts).value, parts[i].text)
    decreases |parts|
  {
    var rest := ReplyText(parts[1..]);
    if i == 0 {
      StartsWithContains(parts[0].text + rest.GetOr(""), parts[0].text);
    } else {
      assert parts[1..][i - 1] == parts[i];
      ReplyTextHasEveryPart(parts[1..], i - 1);
      if parts[0].Text? {
        ContainsInMiddle(parts[0].text, rest.value, "", parts[i].text);
        assert parts[0].text + rest.value + "" == parts[0].text + rest.GetOr("");
      }
    }
  }

  /** `response.text.strip()`: a reply without text parts has no `text`, and `.strip()` on
      `None` raises `AttributeError`. */
  function Answer(reply: Content): (r: Result<string>)
    ensures r.Raise? <==> forall i :: 0 <= i < |reply.parts| ==> !reply.parts[i].Text?
    ensures r.Raise? ==> r.error == "AttributeError"
    ensures r.Ok? ==> r.value == Strip(ReplyText(reply.parts).value)
  {
    match ReplyText(reply.parts)
    case None => Raise("AttributeError")
    case Some(t) => Ok(Strip(t))
  }

  /** A plain text reply is answered with its text, stripped. */
  lemma AnswerOfTextReply(role: string, t: string)
    ensures Answer(Content(role, [Text(t)])) == Ok(Strip(t))
  {
    var parts := [Text(t)];
    assert parts[1..] == [];
    assert ReplyText(parts[1..]) == None;
    assert t + "" == t;
  }

  /** The schedule agent's cap can end the loop on a reply that is all calls: no answer. */
  lemma CappedCallOnlyReplyRaises(call: Call)
    ensures Answer(Content("model", [FunctionCall(call)])).Raise?
  {
  }

  /** The user turn that opens an exchange. */
  function UserTurn(mission: string): Content {
    Content("user", [Text(mission)])
  }

  /** The model's text answer as a message. */
  function AnswerTurn(answer: string): Content {
    Content("model", [Text(answer)])
  }

  /** `c` is the message rebuilt from the stored entry `h`: its role and its one text part. */
  predicate RebuiltFrom(h: Json, c: Content) {
    && h.JObj?
    && Get(h.fields, "role") == Some(JStr(c.role))
    && |c.parts| == 1 && c.parts[0].Text?
    && Get(h.fields, "text") == Some(JStr(c.parts[0].text))
  }

  /** The in-memory history rebuilt from the persisted entries at start-up: `h["role"]` and
      `h["text"]` of each entry (a `KeyError` when missing, a `TypeError` on a non-object),
      and a role or text that is not a string fails the message type's validation. */
  function HistoryFromStore(entries: seq<Json>): (r: Result<seq<Content>>)
    ensures r.Ok? ==> |r.value| == |entries|
    ensures r.Raise? ==> r.error in ["TypeError", "KeyError", "ValidationError"]
  {
    if entries == [] then Ok([])
    else if !entries[0].JObj? then Raise("TypeError")
    else
      var role := Get(entries[0].fields, "role");
      var text := Get(entries[0].fields, "text");
      if role.None? || text.None? then Raise("KeyError")
      else if !role.value.JStr? || !text.value.JStr? then Raise("ValidationError")
      else match HistoryFromStore(entries[1..])
        case Raise(e) => Raise(e)
        case Ok(rest) =>
          Ok([Content(role.value.s, [Text(text.value.s)])] + rest)
  }

  /** Each rebuilt message carries its entry's role and text. */
  lemma {:induction false} HistoryFromStoreShape(entries: seq<Json>)
    ensures var r := HistoryFromStore(entries);
            r.Ok? ==> forall i :: 0 <= i < |entries| ==> RebuiltFrom(entries[i], r.value[i])
    decreases |entries|
  {
    var r := HistoryFromStore(entries);
    if entries != [] && r.Ok? {
      HistoryFromStoreShape(entries[1..]);
      var rest := HistoryFromStore(entries[1..]).value;
      var e := entries[0];
      var c := Content(Get(e.fields, "role").value.s, [Text(Get(e.fields, "text").value.s)]);
      assert r.value == [c] + rest;
      RebuiltCons(entries, r.value, rest);
    }
  }

  /** An entry the rebuild accepts: an object whose role and text are strings. */
  predicate Rebuildable(h: Json) {
    && h.JObj?
    && Get(h.fields, "role").Some? && Get(h.fields, "role").value.JStr?
    && Get(h.fields, "text").Some? && Get(h.fields, "text").value.JStr?
  }

  /** The rebuild fails only on an entry it does not accept. */
  lemma {:induction false} RebuildAccepts(entries: seq<Json>)
    requires forall i :: 0 <= i < |entries| ==> Rebuildable(entries[i])
    ensures HistoryFromStore(entries).Ok?
    decreases |entries|
  {
    if entries != [] {
      assert Rebuildable(entries[0]);
      assert forall i :: 0 <= i < |entries| - 1 ==> entries[1..][i] == entries[i + 1];
      RebuildAccepts(entries[1..]);
    }
  }

  lemma RebuiltCons(entries: seq<Json>, r: seq<Content>, rest: seq<Content>)
    requires |entries| == |r| == |rest| + 1 && r[1..] == rest && RebuiltFrom(entries[0], r[0])
    requires forall i :: 0 <= i < |rest| ==> RebuiltFrom(entries[1..][i], rest[i])
    ensures forall i :: 0 <= i < |entries| ==> RebuiltFrom(entries[i], r[i])
  {
    forall i | 1 <= i < |entries| ensures RebuiltFrom(entries[i], r[i]) {
      assert entries[i] == entries[1..][i - 1] && r[i] == rest[i - 1];
    }
  }

  /** Every entry `append_exchange` writes comes back as a one-part text message. */
  lemma HistoryFromEntries(pairs: seq<(string, string)>)
    ensures HistoryFromStore(seq(|pairs|, i requires 0 <= i < |pairs| => Memory.Entry(pairs[i].0, pairs[i].1)))
         == Ok(seq(|pairs|, i requires 0 <= i < |pairs| => Content(pairs[i].0, [Text(pairs[i].1)])))
  {
    var entries := seq(|pairs|, i requires 0 <= i < |pairs| => Memory.Entry(pairs[i].0, pairs[i].1));
    var want := seq(|pairs|, i requires 0 <= i < |pairs| => Content(pairs[i].0, [Text(pairs[i].1)]));
    forall i | 0 <= i < |entries| ensures Rebuildable(entries[i]) {
      EntryFields(pairs[i].0, pairs[i].1);
    }
    RebuildAccepts(entries);
    HistoryFromStoreShape(entries);
    var r := HistoryFromStore(entries).value;
    forall i | 0 <= i < |pairs| ensures r[i] == want[i] {
      EntryFields(pairs[i].0, pairs[i].1);
      assert r[i].parts == [Text(pairs[i].1)];
    }
    assert r == want;
  }

  /** The two fields of a stored entry. */
  lemma EntryFields(role: string, text: string)
    ensures Memory.Entry(role, text).JObj?
    ensures Get(Memory.Entry(role, text).fields, "role") == Some(JStr(role))
    ensures Get(Memory.Entry(role, text).fields, "text") == Some(JStr(text))
  {
    var f := [("role", JStr(role)), ("text", JStr(text))];
    assert IndexOf(f[1..], "text") == Some(0);
  }

  /** The outcome of one `solve` call. */
  datatype Turn = Turn(answer: string, history: seq<Content>, saved: seq<Json>)
  datatype Outcome = Answered(turn: Turn) | Crashed(error: string) | OutOfFuel

  /** `h` is what the in-memory history holds after an exchange on `mission`: at most
      `MaxExchanges` exchanges, the most recent entries of `history` in order, then the
      mission and one more message (the final reply). */
  ghost predicate KeptAfter(history: seq<Content>, mission: string, h: seq<Content>) {
    && 2 <= |h| <= 2 * Memory.MaxExchanges
    && h[|h| - 2] == UserTurn(mission)
    && |history| >= |h| - 2 && h[..|h| - 2] == history[|history| - (|h| - 2)..]
  }

  /** The in-memory history after an answered turn: the mission and the final reply
      appended, then trimmed to the most recent exchanges. */
  function Remember(history: seq<Content>, mission: string, reply: Content): (h: seq<Content>)
    ensures KeptAfter(history, mission, h) && h[|h| - 1] == reply
  {
    var grown := history + [UserTurn(mission), reply];
    var h := Memory.Trim(grown);
    assert grown[|grown| - 2] == UserTurn(mission) && grown[|grown| - 1] == reply;
    assert h[..|h| - 2] == grown[|grown| - |h|..|grown| - 2];
    h
  }

  /** `_solve_async`: the loop seeded with the history and the mission, then the answer, the
      in-memory history (mission and final reply appended, then trimmed) and the persisted
      store (`append_exchange`, given the store's content before the call). */
  function Solve(capped: bool, history: seq<Content>, stored: Option<Json>, mission: string,
                 model: Model, exec: Executor, fuel: nat): (r: Outcome)
    ensures capped ==> !r.OutOfFuel?
    ensures r.Crashed? ==> r.error == "AttributeError" || RaisedIn(exec, r.error, 0, if capped then MaxToolIterations else fuel)
    ensures NeverRaises(exec) && r.Crashed? ==> r.error == "AttributeError"
    ensures var seed := history + [UserTurn(mission)];
            var first := model(seed);
            var round := Round(seed, first, 0, exec, capped);
            HasCalls(first) && (capped || fuel > 0) && round.Raise? ==> r == Crashed(round.error)
    ensures r.Answered? ==>
              && KeptAfter(history, mission, r.turn.history)
              && Answer(r.turn.history[|r.turn.history| - 1]) == Ok(r.turn.answer)
    ensures r.Answered? ==> r.turn.saved == Memory.AppendExchange(stored, mission, r.turn.answer)
  {
    var seed := history + [UserTurn(mission)];
    var ending := Converse(capped, seed, model, exec, fuel);
    Finish(history, stored, mission, ending)
  }

  /** What a turn makes of the way its loop ended: the answer of the last reply, remembered
      in memory and in the store, or the exception. */
  function Finish(history: seq<Content>, stored: Option<Json>, mission: string, ending: Ending): (r: Outcome)
    ensures r.OutOfFuel? <==> ending.NoFuel?
    ensures ending.Failed? ==> r == Crashed(ending.error)
    ensures ending.Ended? && r.Crashed? ==> r.error == "AttributeError"
    ensures r.Answered? ==>
              && KeptAfter(history, mission, r.turn.history)
              && Answer(r.turn.history[|r.turn.history| - 1]) == Ok(r.turn.answer)
    ensures r.Answered? ==> r.turn.saved == Memory.AppendExchange(stored, mission, r.turn.answer)
  {
    match ending
    case NoFuel => OutOfFuel
    case Failed(e) => Crashed(e)
    case Ended(run) =>
      match Answer(run.reply)
      case Raise(e) => Crashed(e)
      case Ok(answer) =>
        var h := Remember(history, mission, run.reply);
        assert Answer(h[|h| - 1]) == Ok(answer);
        Answered(Turn(answer, h, Memory.AppendExchange(stored, mission, answer)))
  }

  /** The model's first request is the whole history followed by the mission, untouched. */
  lemma SolveSeesHistoryThenMission(capped: bool, history: seq<Content>, mission: string,
                                    model: Model, exec: Executor, fuel: nat)
    ensures var seed := history + [UserTurn(mission)];
            var run := Converse(capped, seed, model, exec, fuel);
            run.Ended? ==> run.run.contents[..|history|] == history && run.run.contents[|history|] == UserTurn(mission)
  {
    var seed := history + [UserTurn(mission)];
    var run := Converse(capped, seed, model, exec, fuel);
    if run.Ended? {
      var c := run.run.contents;
      assert c[..|seed|] == seed;
      assert c[..|history|] == c[..|seed|][..|history|];
      assert c[|history|] == c[..|seed|][|history|];
    }
  }

  /** After a restart the agent remembers the exchange it last answered: a stored list that
      ends with an exchange (as every list `Memory.AppendExchange` writes does) rebuilds, when
      it rebuilds at all, into a history ending with the mission and the answer. It fails
      only when an older entry has a field that is not a string. */
  lemma RebuiltEndsWithExchange(saved: seq<Json>, mission: string, answer: string)
    requires |saved| >= 2
    requires saved[|saved| - 2] == Memory.Entry("user", mission)
    requires saved[|saved| - 1] == Memory.Entry("model", answer)
    ensures HistoryFromStore(saved).Ok? ==> EndsWithTurns(HistoryFromStore(saved).value, mission, answer)
  {
    HistoryFromStoreShape(saved);
    var rebuilt := HistoryFromStore(saved);
    if rebuilt.Ok? {
      RebuiltLastTwo(saved, rebuilt.value, mission, answer);
    }
  }

  /** `h` ends with the mission and its answer. */
  predicate EndsWithTurns(h: seq<Content>, mission: string, answer: string) {
    |h| >= 2 && h[|h| - 2] == UserTurn(mission) && h[|h| - 1] == AnswerTurn(answer)
  }

  /** A rebuilt history whose stored list ends with an exchange ends with the mission and
      the answer. */
  lemma RebuiltLastTwo(saved: seq<Json>, h: seq<Content>, mission: string, answer: string)
    requires |saved| >= 2 && |h| == |saved|
    requires saved[|saved| - 2] == Memory.Entry("user", mission)
    requires saved[|saved| - 1] == Memory.Entry("model", answer)
    requires forall i :: 0 <= i < |saved| ==> RebuiltFrom(saved[i], h[i])
    ensures EndsWithTurns(h, mission, answer)
  {
    var n := |saved|;
    assert RebuiltFrom(saved[n - 2], h[n - 2]) && RebuiltFrom(saved[n - 1], h[n - 1]);
    RebuiltEntry(saved[n - 2], h[n - 2], "user", mission);
    RebuiltEntry(saved[n - 1], h[n - 1], "model", answer);
  }

  /** A message rebuilt from a stored entry carries the entry's role and text. */
  lemma RebuiltEntry(e: Json, c: Content, role: string, text: string)
    requires e == Memory.Entry(role, text)
    requires Get(e.fields, "role") == Some(JStr(c.role))
    requires |c.parts| == 1 && c.parts[0].Text? && Get(e.fields, "text") == Some(JStr(c.parts[0].text))
    ensures c == Content(role, [Text(text)])
  {
    EntryFields(role, text);
    assert c.parts == [Text(text)];
  }

  /** `fc.args.get(key, "")`: a missing argument is the empty string. */
  function ArgText(args: Fields, key: string): (t: string)
    ensures !Has(args, key) ==> t == ""
    ensures Get(args, key) == Some(JStr(t)) || !Has(args, key) || !Get(args, key).value.JStr?
  {
    match Get(args, key)
    case None => ""
    case Some(JStr(s)) => s
    case Some(v) => Show(v)
  }

  /** The work agent's executor: the two tools it declares itself are answered in-process
      (the reconciler and the schedule agent), every other call goes to the work server.
      The in-process tools can raise: `_sync_to_csv` on a `list_lessons` reply that is not a
      list of dated lessons, and the schedule agent whenever its own turn crashes. */
  datatype WorkTools = WorkTools(sync: (string, string) -> Result<string>, ask: string -> Result<string>, server: Server)

  function WorkDispatch(tools: WorkTools, round: nat, index: nat, call: Call): (out: Result<string>)
    ensures call.name == "sync_to_csv" ==> out == tools.sync(ArgText(call.args, "start_date"), ArgText(call.args, "end_date"))
    ensures call.name == "query_schedule" ==> out == tools.ask(ArgText(call.args, "question"))
    ensures call.name != "sync_to_csv" && call.name != "query_schedule" ==>
              out == Ok(McpText(tools.server(round, index, call)))
    ensures out.Raise? ==> call.name in ["sync_to_csv", "query_schedule"]
  {
    if call.name == "sync_to_csv" then tools.sync(ArgText(call.args, "start_date"), ArgText(call.args, "end_date"))
    else if call.name == "query_schedule" then tools.ask(ArgText(call.args, "question"))
    else Ok(McpText(tools.server(round, index, call)))
  }

  function WorkExecutor(tools: WorkTools): Executor {
    (round: nat, index: nat, call: Call) => WorkDispatch(tools, round, index, call)
  }

  /** The work server is never consulted for the two in-process tools, even if it offered
      tools of the same names. */
  lemma InProcessToolsShadowServer(sync: (string, string) -> Result<string>, ask: string -> Result<string>,
                                   server: Server, other: Server, round: nat, index: nat, call: Call)
    requires call.name in ["sync_to_csv", "query_schedule"]
    ensures WorkDispatch(WorkTools(sync, ask, server), round, index, call)
         == WorkDispatch(WorkTools(sync, ask, other), round, index, call)
  {
  }

  /** A work turn whose first reply is one in-process call that raises ends with that
      exception: `asyncio.gather` propagates it and no answer is given. */
  lemma {:induction false} InProcessRaiseEndsWorkTurn(history: seq<Content>, stored: Option<Json>, mission: string,
                                                      model: Model, tools: WorkTools, fuel: nat, call: Call, e: string)
    requires fuel > 0
    requires model(history + [UserTurn(mission)]) == Content("model", [FunctionCall(call)])
    requires WorkDispatch(tools, 0, 0, call) == Raise(e)
    ensures Solve(false, history, stored, mission, model, WorkExecutor(tools), fuel) == Crashed(e)
  {
    var seed := history + [UserTurn(mission)];
    var first := model(seed);
    SingleCall(first.role, call);
    var round := Round(seed, first, 0, WorkExecutor(tools), false);
    assert WorkExecutor(tools)(0, 0, call) == Raise(e);
    assert round.Raise?;
    var i :| 0 <= i < |Calls(first.parts)| && WorkExecutor(tools)(0, i, Calls(first.parts)[i]) == Raise(round.error);
    assert i == 0;
  }

  /** A reply made of one call asks for exactly that call. */
  lemma SingleCall(role: string, call: Call)
    ensures Calls(Content(role, [FunctionCall(call)]).parts) == [call]
  {
    var parts := [FunctionCall(call)];
    assert parts[1..] == [];
  }

  /** What `await schedule_solve_async(question)` gives the work agent: the schedule agent's
      answer, or the exception its turn raised. Its loop is capped, so it never runs out. */
  function ScheduleTool(o: Outcome): (r: Result<string>)
    requires !o.OutOfFuel?
    ensures o.Answered? <==> r.Ok?
    ensures r.Ok? ==> r.value == o.turn.answer
    ensures r.Raise? ==> r.error == o.error
  {
    match o
    case Answered(t) => Ok(t.answer)
    case Crashed(e) => Raise(e)
  }

  /** A schedule model that keeps calling a tool meets the cap on a reply of calls only, and
      the schedule agent's turn crashes with `AttributeError`. */
  lemma CallingScheduleModelCrashes(history: seq<Content>, stored: Option<Json>, mission: string,
                                    model: Model, server: Server, call: Call)
    requires forall cs :: model(cs) == Content("model", [FunctionCall(call)])
    ensures Solve(true, history, stored, mission, model, ViaServer(server), 0) == Crashed("AttributeError")
  {
    var exec := ViaServer(server);
    assert NeverRaises(exec);
    var seed := history + [UserTurn(mission)];
    var ending := Converse(true, seed, model, exec, 0);
    assert ending.Ended?;
    assert ending.run.reply == Content("model", [FunctionCall(call)]);
    CappedCallOnlyReplyRaises(call);
  }

  /** The crash of a capped schedule turn reaches the work agent that asked it: a work turn
      whose first reply queries a schedule agent that keeps calling tools crashes with the
      schedule agent's `AttributeError`. */
  lemma ScheduleCrashEndsWorkTurn(history: seq<Content>, stored: Option<Json>, mission: string,
                                  model: Model, tools: WorkTools, fuel: nat, args: Fields,
                                  scheduleHistory: seq<Content>, scheduleStored: Option<Json>,
                                  scheduleModel: Model, server: Server, call: Call)
    requires fuel > 0
    requires model(history + [UserTurn(mission)]) == Content("model", [FunctionCall(Call("query_schedule", args))])
    requires forall cs :: scheduleModel(cs) == Content("model", [FunctionCall(call)])
    requires tools.ask(ArgText(args, "question"))
          == ScheduleTool(Solve(true, scheduleHistory, scheduleStored, ArgText(args, "question"), scheduleModel, ViaServer(server), 0))
    ensures Solve(false, history, stored, mission, model, WorkExecutor(tools), fuel) == Crashed("AttributeError")
  {
    CallingScheduleModelCrashes(scheduleHistory, scheduleStored, ArgText(args, "question"), scheduleModel, server, call);
    InProcessRaiseEndsWorkTurn(history, stored, mission, model, tools, fuel, Call("query_schedule", args), "AttributeError");
  }

  /** Only the schedule agent's loop nudges, and only after a result reporting an error. */
  lemma NudgeOnlyOnError(contents: seq<Content>, reply: Content, round: nat, exec: Executor)
    requires forall i :: 0 <= i < |Calls(reply.parts)| ==>
               !(exec(round, i, Calls(reply.parts)[i]).Ok? && Contains(exec(round, i, Calls(reply.parts)[i]).value, ScheduleTools.ErrorMarker))
    ensures Round(contents, reply, round, exec, true) == Round(contents, reply, round, exec, false)
  {
  }
}

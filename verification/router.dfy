/** The router's read-classify-dispatch loop: each non-blank line is classified, with the
    fallbacks when the category is "unknown", dispatched to the agent of that category, and
    logged. The agents are oracles like the chat model and the decoder. */
module Router {
  import opened Outcomes
  import opened Strings
  import opened JsonValues
  import opened Classifier
  import opened Contexts
  import Memory

  /** An agent's `solve`: the answer to a mission, or the exception it raised. */
  type Agents = (string, Json) -> Result<string>

  /** The turn's result when a classification is chosen: `result["mission"]`, then the agent
      of the category when it is one of the four. */
  function Dispatch(c: Classification, agents: Agents): (r: Result<(Json, Option<string>)>)
    ensures r.Ok? ==> c.result.JObj? && Get(c.result.fields, "mission") == Some(r.value.0)
    ensures r.Ok? && r.value.1.Some? ==> (c.category.JStr? && c.category.s in AgentNames
                                         && agents(c.category.s, r.value.0) == Ok(r.value.1.value))
    ensures c.result.JObj? && Has(c.result.fields, "mission") && c.category.JStr? && c.category.s in AgentNames ==>
              r == (match agents(c.category.s, Get(c.result.fields, "mission").value)
                    case Raise(e) => Raise(e)
                    case Ok(a) => Ok((Get(c.result.fields, "mission").value, Some(a))))
    ensures c.result.JObj? && !Has(c.result.fields, "mission") ==> r == Raise("KeyError")
  {
    if !c.result.JObj? then Raise("TypeError")
    else match Index(c.result.fields, "mission")
      case Raise(e) => Raise(e)
      case Ok(mission) =>
        if c.category.JStr? && c.category.s in AgentNames then
          match agents(c.category.s, mission)
          case Raise(e) => Raise(e)
          case Ok(a) => Ok((mission, Some(a)))
        else Ok((mission, None))
  }

  /** The log entry of an answered turn. */
  function LogEntry(category: Json, mission: Json, answer: string): Json {
    JObj([("category", category), ("mission", mission), ("answer", JStr(answer))])
  }

  /** The router's state across lines: the chat session's messages, the in-memory log
      (never trimmed) and the log file's content (`None` until first written). */
  datatype State = State(sent: seq<string>, log: seq<Json>, file: Option<seq<Json>>)

  /** What one line did. */
  datatype Effect = Skipped | Quit | GaveUp(reason: Json) | Answered(category: Json, mission: Json, answer: Option<string>) | Crashed(error: string)

  /** A line that ends with an answer worth logging. */
  predicate Logged(e: Effect) {
    e.Answered? && e.answer.Some? && e.answer.value != []
  }

  /** One line of the loop: blank lines are skipped, "quit" in any ASCII case ends it. */
  function HandleLine(st: State, line: string, stores: Stores, chat: Chat, decode: Decoder, agents: Agents): (r: (State, Effect))
    ensures Strip(line) == [] ==> r == (st, Skipped)
    ensures r.1 == Quit <==> IsQuit(line)
    ensures r.1.Quit? ==> r.0 == st
    ensures |st.sent| <= |r.0.sent| <= |st.sent| + 3 && r.0.sent[..|st.sent|] == st.sent
    ensures Logged(r.1) ==>
              && r.0.log == st.log + [LogEntry(r.1.category, r.1.mission, r.1.answer.value)]
              && r.0.file == Some(Memory.SaveLastExchanges(r.0.log))
    ensures !Logged(r.1) ==> r.0.log == st.log && r.0.file == st.file
  {
    var input := Strip(line);
    if input == [] then (st, Skipped)
    else if LowerAscii(input) == "quit" then (st, Quit)
    else Turn(st, input, stores, chat, decode, agents)
  }

  /** One classified line. Every exception of the turn is caught and the loop goes on; the
      exchange is logged, and the log file rewritten, only for a non-empty answer. */
  function Turn(st: State, input: string, stores: Stores, chat: Chat, decode: Decoder, agents: Agents): (r: (State, Effect))
    ensures !r.1.Skipped? && !r.1.Quit?
    ensures |st.sent| < |r.0.sent| <= |st.sent| + 3 && r.0.sent[..|st.sent|] == st.sent && r.0.sent[|st.sent|] == input
    ensures Logged(r.1) ==>
              && r.0.log == st.log + [LogEntry(r.1.category, r.1.mission, r.1.answer.value)]
              && r.0.file == Some(Memory.SaveLastExchanges(r.0.log))
    ensures !Logged(r.1) ==> r.0.log == st.log && r.0.file == st.file
    ensures r.1.Answered? ==> r.1.category != JStr("unknown")
  {
    var (sent, decision) := Decide(st.sent, input, LastExchangesContext(st.log), AgentMemorySummary(stores), chat, decode);
    var st1 := State(sent, st.log, st.file);
    match decision
    case Raise(e) => (st1, Crashed(e))
    case Ok(GiveUp(reason)) => (st1, GaveUp(reason))
    case Ok(Chosen(c)) =>
      match Dispatch(c, agents)
      case Raise(e) => (st1, Crashed(e))
      case Ok((mission, answer)) =>
        if answer.Some? && answer.value != [] then
          var log := st.log + [LogEntry(c.category, mission, answer.value)];
          (State(sent, log, Some(Memory.SaveLastExchanges(log))), Answered(c.category, mission, answer))
        else (st1, Answered(c.category, mission, answer))
  }

  /** One line's handling with the session's oracles fixed. */
  type Step = (State, string) -> (State, Effect)

  function Handler(stores: Stores, chat: Chat, decode: Decoder, agents: Agents): Step {
    (s: State, l: string) => HandleLine(s, l, stores, chat, decode, agents)
  }

  /** The loop over the input lines, stopping at the first `Quit`. */
  function Loop(st: State, lines: seq<string>, step: Step): State
    decreases |lines|
  {
    if lines == [] then st
    else
      var (next, effect) := step(st, lines[0]);
      if effect.Quit? then st else Loop(next, lines[1..], step)
  }

  /** A step that only ever appends one entry to the log. */
  ghost predicate AppendsAtMostOne(step: Step) {
    forall s: State, l: string ::
      |s.log| <= |step(s, l).0.log| <= |s.log| + 1 && step(s, l).0.log[..|s.log|] == s.log
  }

  lemma {:induction false} LoopLog(st: State, lines: seq<string>, step: Step)
    requires AppendsAtMostOne(step)
    ensures var r := Loop(st, lines, step);
            |st.log| <= |r.log| <= |st.log| + |lines| && r.log[..|st.log|] == st.log
    decreases |lines|
  {
    if lines != [] {
      var (next, effect) := step(st, lines[0]);
      if !effect.Quit? {
        LoopLog(next, lines[1..], step);
        var r := Loop(next, lines[1..], step);
        assert r.log[..|st.log|] == r.log[..|next.log|][..|st.log|];
      }
    }
  }

  lemma HandlerAppendsAtMostOne(stores: Stores, chat: Chat, decode: Decoder, agents: Agents)
    ensures AppendsAtMostOne(Handler(stores, chat, decode, agents))
  {
    forall s: State, l: string
      ensures var t := HandleLine(s, l, stores, chat, decode, agents).0;
              |s.log| <= |t.log| <= |s.log| + 1 && t.log[..|s.log|] == s.log
    {
      var (t, effect) := HandleLine(s, l, stores, chat, decode, agents);
      if Logged(effect) {
        assert t.log[..|s.log|] == s.log;
      }
    }
  }

  /** `main`'s loop over the input lines: the log only grows, by at most one entry a line. */
  function Run(st: State, lines: seq<string>, stores: Stores, chat: Chat, decode: Decoder, agents: Agents): (r: State)
    ensures |st.log| <= |r.log| <= |st.log| + |lines| && r.log[..|st.log|] == st.log
  {
    HandlerAppendsAtMostOne(stores, chat, decode, agents);
    LoopLog(st, lines, Handler(stores, chat, decode, agents));
    Loop(st, lines, Handler(stores, chat, decode, agents))
  }

  /** A line that strips to "quit" in any ASCII case. */
  predicate IsQuit(line: string) {
    Strip(line) != [] && LowerAscii(Strip(line)) == "quit"
  }

  lemma {:induction false} LoopStopsAtQuit(st: State, before: seq<string>, quit: string, after: seq<string>, step: Step)
    requires forall s: State :: step(s, quit).1.Quit?
    ensures Loop(st, before + [quit] + after, step) == Loop(st, before, step)
    decreases |before|
  {
    if before == [] {
      assert (before + [quit] + after)[0] == quit;
    } else {
      assert (before + [quit] + after)[0] == before[0];
      assert (before + [quit] + after)[1..] == before[1..] + [quit] + after;
      var (next, effect) := step(st, before[0]);
      if !effect.Quit? {
        LoopStopsAtQuit(next, before[1..], quit, after, step);
      }
    }
  }

  /** A quit line ends the loop: it and every line after it change nothing. */
  lemma QuitStopsTheLoop(st: State, before: seq<string>, quit: string, after: seq<string>,
                         stores: Stores, chat: Chat, decode: Decoder, agents: Agents)
    requires IsQuit(quit)
    ensures Run(st, before + [quit] + after, stores, chat, decode, agents) == Run(st, before, stores, chat, decode, agents)
  {
    var step := Handler(stores, chat, decode, agents);
    forall s: State ensures step(s, quit).1.Quit? {
      var r := HandleLine(s, quit, stores, chat, decode, agents);
    }
    LoopStopsAtQuit(st, before, quit, after, step);
  }

  /** Blank lines are skipped: they send no message and log nothing. */
  lemma BlankLinesAreSkipped(st: State, blank: string, lines: seq<string>,
                             stores: Stores, chat: Chat, decode: Decoder, agents: Agents)
    requires forall i :: 0 <= i < |blank| ==> IsSpace(blank[i])
    ensures Run(st, [blank] + lines, stores, chat, decode, agents) == Run(st, lines, stores, chat, decode, agents)
  {
    StripAllSpace(blank);
    var step := Handler(stores, chat, decode, agents);
    assert step(st, blank) == (st, Skipped);
    assert ([blank] + lines)[0] == blank && ([blank] + lines)[1..] == lines;
  }
}

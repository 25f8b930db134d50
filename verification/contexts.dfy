/** The two contexts the router's fallbacks show the chat model: the last logged
    exchanges, and a summary of each agent's recent missions read from its stored history. */
module Contexts {
  import opened Outcomes
  import opened Seqs
  import opened Strings
  import opened JsonValues
  import Memory

  /** The persisted history file of each agent, as `Memory` reads it. */
  type Stores = string -> Option<Json>

  const AgentNames: seq<string> := ["stock", "knowledge", "schedule", "work"]
  /** How many log entries the fallback context shows. */
  const RecentExchanges: nat := 5
  /** How many characters of each logged answer the fallback context shows. */
  const PreviewLength: nat := 100
  /** How many recent missions per agent the memory summary shows. */
  const RecentMissions: nat := 3
  const SummaryHead: string := "[Agent memory \U{2014} recent missions per agent:\n"

  // ---------------------------------------------------------------- fallback contexts

  /** `ex.get("answer", "")[:100]`. Logged answers are strings; any other value is not
      sliced here and counts as a `TypeError`. */
  function Preview(ex: Fields): (r: Result<string>)
    ensures !Has(ex, "answer") ==> r == Ok("")
    ensures r.Ok? ==> |r.value| <= PreviewLength
    ensures Get(ex, "answer").Some? && Get(ex, "answer").value.JStr? ==>
              var a := Get(ex, "answer").value.s;
              r == Ok(a[..Min(|a|, PreviewLength)])
  {
    match Get(ex, "answer")
    case None => Ok("")
    case Some(JStr(a)) => Ok(a[..Min(|a|, PreviewLength)])
    case Some(_) => Raise("TypeError")
  }

  /** One line of the recent-exchanges context; a log entry that is not an object has no
      `get`, and one without a category or mission is a `KeyError`. */
  function ExchangeLine(ex: Json): (r: Result<string>)
    ensures r.Ok? ==> ex.JObj? && Has(ex.fields, "category") && Has(ex.fields, "mission")
    ensures r.Ok? ==> StartsWith(r.value, "- [" + Show(Get(ex.fields, "category").value) + "] mission: ")
  {
    if !ex.JObj? then Raise("AttributeError")
    else match Preview(ex.fields)
      case Raise(e) => Raise(e)
      case Ok(preview) =>
        match (Index(ex.fields, "category"), Index(ex.fields, "mission"))
        case (Ok(c), Ok(m)) =>
          var head := "- [" + Show(c) + "] mission: ";
          var line := head + (Show(m) + " \U{2192} " + preview);
          assert line[..|head|] == head;
          Ok(line)
        case (Raise(e), _) => Raise(e)
        case (_, Raise(e)) => Raise(e)
  }

  /** The lines of a list of log entries, failing at the first entry that fails. */
  function ExchangeLines(recent: seq<Json>): (r: Result<seq<string>>)
    ensures r.Ok? <==> forall i :: 0 <= i < |recent| ==> ExchangeLine(recent[i]).Ok?
    ensures r.Ok? ==> |r.value| == |recent| && forall i :: 0 <= i < |recent| ==> r.value[i] == ExchangeLine(recent[i]).value
  {
    var lines := seq(|recent|, i requires 0 <= i < |recent| => ExchangeLine(recent[i]));
    assert forall i :: 0 <= i < |recent| ==> lines[i] == ExchangeLine(recent[i]);
    Collect(lines)
  }

  /** `_build_last_exchanges_context`: the last five log entries, or "" for an empty log. */
  function LastExchangesContext(log: seq<Json>): (r: Result<string>)
    ensures log == [] <==> r == Ok("")
    ensures r.Ok? <==> forall i :: 0 <= i < |Keep(log, RecentExchanges)| ==> ExchangeLine(Keep(log, RecentExchanges)[i]).Ok?
    ensures r.Ok? && log != [] ==> StartsWith(r.value, "[Recent exchanges:\n")
  {
    if log == [] then Ok("")
    else match ExchangeLines(Keep(log, RecentExchanges))
      case Raise(e) => Raise(e)
      case Ok(lines) =>
        var head := "[Recent exchanges:\n";
        var text := head + (Join(lines, "\n") + "]");
        assert text[..|head|] == head;
        Ok(text)
  }

  /** The context shown after a restart is the one shown before it: the log file keeps the
      last twenty entries and the context reads only the last five. */
  lemma RestartKeepsContext(log: seq<Json>)
    ensures LastExchangesContext(Memory.LoadLastExchanges(Some(JArr(Memory.SaveLastExchanges(log)))))
         == LastExchangesContext(log)
  {
    Memory.SaveThenLoadLastExchanges(log);
    KeepNested(log, Memory.MaxLastExchanges, RecentExchanges);
  }

  /** `h["role"] == "user"` for a stored entry. */
  predicate IsUserEntry(h: Json) {
    h.JObj? && Get(h.fields, "role") == Some(JStr("user"))
  }

  /** The texts of a history's user entries, in order (`h["text"] for h in history if
      h["role"] == "user"`). The histories come from `Memory.LoadHistory`, whose entries
      always have a text. */
  function UserTexts(history: seq<Json>): seq<string> {
    Flatten(history, UserText)
  }

  /** The text of one entry when it is a user entry: none or one. */
  function UserText(h: Json): (r: seq<string>)
    ensures |r| == if IsUserEntry(h) then 1 else 0
  {
    if IsUserEntry(h) then [Show(Get(h.fields, "text").GetOr(JNull))] else []
  }

  /** An agent has no recent mission exactly when its history has no user entry. */
  lemma {:induction false} UserTextsEmpty(history: seq<Json>)
    ensures UserTexts(history) == [] <==> forall i :: 0 <= i < |history| ==> !IsUserEntry(history[i])
    decreases |history|
  {
    if history != [] {
      UserTextsEmpty(history[1..]);
      assert forall i :: 1 <= i < |history| ==> history[i] == history[1..][i - 1];
    }
  }

  lemma UserTextsAppend(a: seq<Json>, b: seq<Json>)
    ensures UserTexts(a + b) == UserTexts(a) + UserTexts(b)
  {
    FlattenAppend(a, b, UserText);
  }

  function Quoted(m: string): string {
    "\"" + m + "\""
  }

  /** The summary line of one agent, `None` when it has no user entry. */
  function AgentLine(agent: string, stored: Option<Json>): Option<string> {
    var missions := UserTexts(Memory.LoadHistory(stored));
    if missions == [] then None
    else
      Some("- " + agent + ": " + QuotedList(Keep(missions, RecentMissions)))
  }

  /** `"; ".join(f'"{m}"' for m in missions)`. */
  function QuotedList(missions: seq<string>): string {
    Join(seq(|missions|, i requires 0 <= i < |missions| => Quoted(missions[i])), "; ")
  }

  lemma QuotedListShowsLast(missions: seq<string>)
    requires missions != []
    ensures Contains(QuotedList(Keep(missions, RecentMissions)), Quoted(missions[|missions| - 1]))
  {
    var recent := Keep(missions, RecentMissions);
    assert recent[|recent| - 1] == missions[|missions| - 1];
    var quoted := seq(|recent|, i requires 0 <= i < |recent| => Quoted(recent[i]));
    JoinContainsEachPart(quoted, "; ", |recent| - 1);
  }

  /** The values of the present options, in order. */
  function Present<T>(opts: seq<Option<T>>): (r: seq<T>)
    ensures |r| <= |opts|
  {
    if opts == [] then []
    else if opts[0].Some? then [opts[0].value] + Present(opts[1..])
    else Present(opts[1..])
  }

  lemma {:induction false} PresentEmpty<T>(opts: seq<Option<T>>)
    ensures Present(opts) == [] <==> forall i :: 0 <= i < |opts| ==> opts[i].None?
    decreases |opts|
  {
    if opts != [] {
      PresentEmpty(opts[1..]);
      assert forall i :: 1 <= i < |opts| ==> opts[i] == opts[1..][i - 1];
    }
  }

  lemma {:induction false} PresentHasEach<T>(opts: seq<Option<T>>, k: nat)
    requires k < |opts| && opts[k].Some?
    ensures opts[k].value in Present(opts)
    decreases |opts|
  {
    if k > 0 {
      assert opts[1..][k - 1] == opts[k];
      PresentHasEach(opts[1..], k - 1);
    }
  }

  /** The summary line of each agent that has one, in the agents' order. */
  function AgentLines(agents: seq<string>, stores: Stores): seq<string> {
    Present(seq(|agents|, i requires 0 <= i < |agents| => AgentLine(agents[i], stores(agents[i]))))
  }

  /** `_build_agent_memory_summary`: "" exactly when no agent's stored history has a user
      entry; otherwise the agents' lines under the summary's heading. */
  function AgentMemorySummary(stores: Stores): (r: string)
    ensures r == "" <==>
              forall i :: 0 <= i < |AgentNames| ==> UserTexts(Memory.LoadHistory(stores(AgentNames[i]))) == []
    ensures r != "" ==> StartsWith(r, SummaryHead) && r[|r| - 1] == ']'
  {
    var lines := AgentLines(AgentNames, stores);
    AgentLinesEmpty(stores);
    if lines == [] then ""
    else
      StartsWithAppend(SummaryHead, Join(lines, "\n") + "]");
      SummaryHead + (Join(lines, "\n") + "]")
  }

  /** No agent has a line exactly when no agent's stored history has a user entry. */
  lemma AgentLinesEmpty(stores: Stores)
    ensures AgentLines(AgentNames, stores) == [] <==>
              forall i :: 0 <= i < |AgentNames| ==> UserTexts(Memory.LoadHistory(stores(AgentNames[i]))) == []
  {
    var opts := seq(|AgentNames|, i requires 0 <= i < |AgentNames| => AgentLine(AgentNames[i], stores(AgentNames[i])));
    PresentEmpty(opts);
    assert forall i :: 0 <= i < |AgentNames| ==> opts[i] == AgentLine(AgentNames[i], stores(AgentNames[i]));
  }

  /** An agent's most recent mission shows in the summary once its exchange is stored. */
  lemma SummaryShowsLastMission(stores: Stores, k: nat, prior: Option<Json>, mission: string, answer: string)
    requires k < |AgentNames|
    requires stores(AgentNames[k]) == Some(JArr(Memory.AppendExchange(prior, mission, answer)))
    ensures Contains(AgentMemorySummary(stores), Quoted(mission))
  {
    AgentLineShowsLastMission(AgentNames[k], prior, mission, answer);
    SummaryShowsLine(stores, k, Quoted(mission));
  }

  /** Whatever an agent's line contains, the summary contains too. */
  lemma SummaryShowsLine(stores: Stores, k: nat, q: string)
    requires k < |AgentNames|
    requires var line := AgentLine(AgentNames[k], stores(AgentNames[k])); line.Some? && Contains(line.value, q)
    ensures Contains(AgentMemorySummary(stores), q)
  {
    var opts := seq(|AgentNames|, i requires 0 <= i < |AgentNames| => AgentLine(AgentNames[i], stores(AgentNames[i])));
    assert opts[k] == AgentLine(AgentNames[k], stores(AgentNames[k]));
    var lines := AgentLines(AgentNames, stores);
    assert lines == Present(opts);
    PresentShowsPart(opts, k, q);
    ContainsInMiddle(SummaryHead, Join(lines, "\n"), "]", q);
    assert AgentMemorySummary(stores) == SummaryHead + (Join(lines, "\n") + "]");
    assert SummaryHead + (Join(lines, "\n") + "]") == SummaryHead + Join(lines, "\n") + "]";
  }

  /** Whatever one present option contains, the joined present values contain too. */
  lemma PresentShowsPart(opts: seq<Option<string>>, k: nat, q: string)
    requires k < |opts| && opts[k].Some? && Contains(opts[k].value, q)
    ensures Present(opts) != [] && Contains(Join(Present(opts), "\n"), q)
  {
    PresentHasEach(opts, k);
    var lines := Present(opts);
    var kk :| 0 <= kk < |lines| && lines[kk] == opts[k].value;
    JoinContainsPart(lines, "\n", kk, q);
  }

  /** The agent's own line quotes the mission of its last stored exchange. */
  lemma AgentLineShowsLastMission(agent: string, prior: Option<Json>, mission: string, answer: string)
    ensures var line := AgentLine(agent, Some(JArr(Memory.AppendExchange(prior, mission, answer))));
            line.Some? && Contains(line.value, Quoted(mission))
  {
    var saved := Memory.AppendExchange(prior, mission, answer);
    Memory.AppendThenLoad(prior, mission, answer);
    SavedMissions(saved, mission, answer);
    AgentLineShowsLast(agent, Some(JArr(saved)), mission);
  }

  /** A line is shown for an agent whose last user text is `mission`, and it quotes it. */
  lemma AgentLineShowsLast(agent: string, stored: Option<Json>, mission: string)
    requires EndsWith(UserTexts(Memory.LoadHistory(stored)), mission)
    ensures AgentLine(agent, stored).Some? && Contains(AgentLine(agent, stored).value, Quoted(mission))
  {
    var missions := UserTexts(Memory.LoadHistory(stored));
    QuotedListShowsLast(missions);
    var list := QuotedList(Keep(missions, RecentMissions));
    ContainsInMiddle("- " + agent + ": ", list, "", Quoted(mission));
    assert "- " + agent + ": " + list + "" == "- " + agent + ": " + list;
  }

  /** `texts` is non-empty and its last element is `last`. */
  predicate EndsWith(texts: seq<string>, last: string) {
    texts != [] && texts[|texts| - 1] == last
  }

  /** Once a stored list reloads as itself and ends with an exchange, its last user text is
      the exchange's mission. */
  lemma {:induction false} SavedMissions(saved: seq<Json>, mission: string, answer: string)
    requires Memory.LoadHistory(Some(JArr(saved))) == saved
    requires |saved| >= 2
    requires saved[|saved| - 2] == Memory.Entry("user", mission)
    requires saved[|saved| - 1] == Memory.Entry("model", answer)
    ensures EndsWith(UserTexts(Memory.LoadHistory(Some(JArr(saved)))), mission)
  {
    LastUserText(saved, mission, answer);
  }

  /** The last user text of a stored history that ends with an exchange is its mission. */
  lemma LastUserText(history: seq<Json>, mission: string, answer: string)
    requires |history| >= 2
    requires history[|history| - 2] == Memory.Entry("user", mission)
    requires history[|history| - 1] == Memory.Entry("model", answer)
    ensures var t := UserTexts(history); |t| > 0 && t[|t| - 1] == mission
  {
    var n := |history|;
    var front := history[..n - 2];
    var pair := history[n - 2..];
    assert history == front + pair;
    UserTextsAppend(front, pair);
    ExchangeUserTexts(pair, mission, answer);
  }

  lemma ExchangeUserTexts(pair: seq<Json>, mission: string, answer: string)
    requires pair == [Memory.Entry("user", mission), Memory.Entry("model", answer)]
    ensures UserTexts(pair) == [mission]
  {
    var f := [("role", JStr("user")), ("text", JStr(mission))];
    assert IndexOf(f[1..], "text") == Some(0);
    assert IsUserEntry(pair[0]);
    var g := [("role", JStr("model")), ("text", JStr(answer))];
    assert Get(g, "role") == Some(JStr("model"));
    assert !IsUserEntry(pair[1]);
    assert pair[1..] == [pair[1]] && pair[1..][1..] == [];
    assert UserText(pair[0]) == [mission] && UserText(pair[1]) == [];
    assert UserTexts(pair[1..]) == UserText(pair[1]) + UserTexts([]);
  }
}

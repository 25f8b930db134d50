/** The bounded history store: one persisted list of `{"role", "text"}` entries per agent,
    and the router's exchange log. A file is represented by its parsed content:
    `None` for a missing, unreadable or undecodable file, `Some(v)` for `json.load`'s value. */
module Memory {
  import opened Outcomes
  import opened Seqs
  import opened JsonValues

  /** Per-agent limit, counted in exchanges (one user entry plus one model entry). */
  const MaxExchanges: nat := 10
  /** Router-log limit, counted in entries. */
  const MaxLastExchanges: nat := 20

  /** The entry `append_exchange` writes. */
  function Entry(role: string, text: string): Json {
    JObj([("role", JStr(role)), ("text", JStr(text))])
  }

  lemma EntryWellFormed(role: string, text: string)
    ensures WellFormedEntry(Entry(role, text))
  {
    var f := [("role", JStr(role)), ("text", JStr(text))];
    assert f[0].0 == "role";
    assert IndexOf(f[1..], "text") == Some(0);
  }

  /** `_trim`: keeps the most recent `2 * MaxExchanges` entries. */
  function Trim<T>(history: seq<T>): (r: seq<T>)
    ensures |r| == Min(|history|, 2 * MaxExchanges)
    ensures r == history[|history| - |r|..]
  {
    Keep(history, 2 * MaxExchanges)
  }

  /** Trimming an already trimmed history changes nothing. */
  lemma TrimIdempotent<T>(history: seq<T>)
    ensures Trim(Trim(history)) == Trim(history)
  {
    KeepIdempotent(history, 2 * MaxExchanges);
  }

  /** The shape `load_history` accepts for one entry: a dict with "role" and "text" keys. */
  predicate WellFormedEntry(e: Json) {
    e.JObj? && Has(e.fields, "role") && Has(e.fields, "text")
  }

  /** The entry-by-entry scan of `load_history`: stops at the first malformed entry. */
  function AllWellFormed(entries: seq<Json>): (ok: bool)
    ensures ok <==> forall i :: 0 <= i < |entries| ==> WellFormedEntry(entries[i])
  {
    if entries == [] then true
    else if !WellFormedEntry(entries[0]) then false
    else AllWellFormed(entries[1..])
  }

  /** `load_history`: all-or-nothing validation, then trimming. */
  function LoadHistory(stored: Option<Json>): (r: seq<Json>)
    ensures |r| <= 2 * MaxExchanges
    ensures forall i :: 0 <= i < |r| ==> WellFormedEntry(r[i])
  {
    match stored
    case Some(JArr(items)) => if AllWellFormed(items) then Trim(items) else []
    case _ => []
  }

  /** A missing file or a non-list loads as empty; a list with one malformed entry loads as
      empty; otherwise the loaded history is the list's most recent entries. */
  lemma LoadHistoryShape(stored: Option<Json>)
    ensures (stored.None? || !stored.value.JArr?) ==> LoadHistory(stored) == []
    ensures stored.Some? && stored.value.JArr? ==>
              var items := stored.value.items;
              var r := LoadHistory(stored);
              r == [] || (|items| >= |r| && r == items[|items| - |r|..])
    ensures stored.Some? && stored.value.JArr? ==>
              var items := stored.value.items;
              (exists i :: 0 <= i < |items| && !WellFormedEntry(items[i])) ==> LoadHistory(stored) == []
  {
  }

  /** `save_history`: the list written to the file, the most recent entries in order. */
  function SaveHistory(history: seq<Json>): (r: seq<Json>)
    ensures |r| == Min(|history|, 2 * MaxExchanges) && r == history[|history| - |r|..]
  {
    Trim(history)
  }

  /** Loading what was just saved gives it back, when every entry is well formed. */
  lemma SaveThenLoad(history: seq<Json>)
    requires forall i :: 0 <= i < |history| ==> WellFormedEntry(history[i])
    ensures LoadHistory(Some(JArr(SaveHistory(history)))) == SaveHistory(history)
  {
    TrimIdempotent(history);
  }

  /** When the stored list is valid, loading keeps its most recent entries, untouched. */
  lemma LoadValidHistory(items: seq<Json>)
    requires forall i :: 0 <= i < |items| ==> WellFormedEntry(items[i])
    ensures LoadHistory(Some(JArr(items))) == Trim(items)
  {
  }

  /** `append_exchange`: load, append the user then the model entry, save. */
  function AppendExchange(stored: Option<Json>, userText: string, modelText: string): (saved: seq<Json>)
    ensures 2 <= |saved| <= 2 * MaxExchanges
    ensures saved[|saved| - 2] == Entry("user", userText)
    ensures saved[|saved| - 1] == Entry("model", modelText)
  {
    var prior := LoadHistory(stored);
    var grown := prior + [Entry("user", userText), Entry("model", modelText)];
    assert grown[|grown| - 2..] == [Entry("user", userText), Entry("model", modelText)];
    SaveHistory(grown)
  }

  /** Before the new exchange, the saved list holds the most recent loaded entries, in order. */
  lemma AppendExchangeKeepsPrior(stored: Option<Json>, userText: string, modelText: string)
    ensures var saved := AppendExchange(stored, userText, modelText);
            var prior := LoadHistory(stored);
            |prior| >= |saved| - 2 && saved[..|saved| - 2] == prior[|prior| - (|saved| - 2)..]
  {
    var pair := [Entry("user", userText), Entry("model", modelText)];
    KeepAfterAppend(LoadHistory(stored), pair, 2 * MaxExchanges);
  }

  /** The file after `append_exchange` loads back as exactly what was saved. */
  lemma AppendThenLoad(stored: Option<Json>, userText: string, modelText: string)
    ensures var saved := AppendExchange(stored, userText, modelText);
            LoadHistory(Some(JArr(saved))) == saved
  {
    var grown := Grown(stored, userText, modelText);
    GrownWellFormed(stored, userText, modelText);
    SaveThenLoad(grown);
  }

  /** The list `append_exchange` trims and saves. */
  function Grown(stored: Option<Json>, userText: string, modelText: string): (grown: seq<Json>)
    ensures SaveHistory(grown) == AppendExchange(stored, userText, modelText)
  {
    LoadHistory(stored) + [Entry("user", userText), Entry("model", modelText)]
  }

  lemma GrownWellFormed(stored: Option<Json>, userText: string, modelText: string)
    ensures var grown := Grown(stored, userText, modelText);
            forall i :: 0 <= i < |grown| ==> WellFormedEntry(grown[i])
  {
    EntryWellFormed("user", userText);
    EntryWellFormed("model", modelText);
    AppendWellFormed(LoadHistory(stored), Entry("user", userText), Entry("model", modelText));
  }

  lemma AppendWellFormed(prior: seq<Json>, a: Json, b: Json)
    requires forall i :: 0 <= i < |prior| ==> WellFormedEntry(prior[i])
    requires WellFormedEntry(a) && WellFormedEntry(b)
    ensures forall i :: 0 <= i < |prior + [a, b]| ==> WellFormedEntry((prior + [a, b])[i])
  {
  }

  /** A sequence of exchanges appended one by one to a valid store leaves the most recent
      entries of the whole conversation: per-append trimming equals one final trim. */
  function AppendAll(stored: seq<Json>, exchanges: seq<(string, string)>): seq<Json>
    decreases |exchanges|
  {
    if exchanges == [] then stored
    else AppendAll(AppendExchange(Some(JArr(stored)), exchanges[0].0, exchanges[0].1), exchanges[1..])
  }

  function Flatten(exchanges: seq<(string, string)>): (entries: seq<Json>)
    ensures |entries| == 2 * |exchanges|
  {
    if exchanges == [] then []
    else [Entry("user", exchanges[0].0), Entry("model", exchanges[0].1)] + Flatten(exchanges[1..])
  }

  /** Appending to a valid, already trimmed store is one trim of the grown list. */
  lemma AppendToValidStore(stored: seq<Json>, userText: string, modelText: string)
    requires |stored| <= 2 * MaxExchanges
    requires forall i :: 0 <= i < |stored| ==> WellFormedEntry(stored[i])
    ensures var next := AppendExchange(Some(JArr(stored)), userText, modelText);
            && next == Trim(stored + [Entry("user", userText), Entry("model", modelText)])
            && |next| <= 2 * MaxExchanges
            && forall i :: 0 <= i < |next| ==> WellFormedEntry(next[i])
  {
    LoadValidHistory(stored);
    AppendThenLoad(Some(JArr(stored)), userText, modelText);
  }

  lemma {:induction false} AppendAllKeepsMostRecent(stored: seq<Json>, exchanges: seq<(string, string)>)
    requires |stored| <= 2 * MaxExchanges
    requires forall i :: 0 <= i < |stored| ==> WellFormedEntry(stored[i])
    ensures AppendAll(stored, exchanges) == Trim(stored + Flatten(exchanges))
    decreases |exchanges|
  {
    if exchanges == [] {
      assert stored + Flatten(exchanges) == stored;
    } else {
      var pair := [Entry("user", exchanges[0].0), Entry("model", exchanges[0].1)];
      var rest := Flatten(exchanges[1..]);
      var next := AppendExchange(Some(JArr(stored)), exchanges[0].0, exchanges[0].1);
      assert AppendAll(stored, exchanges) == AppendAll(next, exchanges[1..]);
      AppendToValidStore(stored, exchanges[0].0, exchanges[0].1);
      assert next == Trim(stored + pair);
      AppendAllKeepsMostRecent(next, exchanges[1..]);
      assert AppendAll(next, exchanges[1..]) == Trim(next + rest);
      KeepThenAppend(stored + pair, rest, 2 * MaxExchanges);
      assert Trim(next + rest) == Trim(stored + pair + rest);
      assert Flatten(exchanges) == pair + rest;
      SeqAssoc(stored, pair, rest);
    }
  }

  /** `load_last_exchanges`: the router log is only checked to be a list, then trimmed. */
  function LoadLastExchanges(stored: Option<Json>): (r: seq<Json>)
    ensures |r| <= MaxLastExchanges
    ensures (stored.None? || !stored.value.JArr?) ==> r == []
    ensures stored.Some? && stored.value.JArr? ==>
              var items := stored.value.items;
              |r| == Min(|items|, MaxLastExchanges) && r == items[|items| - |r|..]
  {
    match stored
    case Some(JArr(items)) => Keep(items, MaxLastExchanges)
    case _ => []
  }

  /** `save_last_exchanges`: the list written to the file. */
  function SaveLastExchanges(exchanges: seq<Json>): (saved: seq<Json>)
    ensures |saved| == Min(|exchanges|, MaxLastExchanges)
    ensures saved == exchanges[|exchanges| - |saved|..]
  {
    Keep(exchanges, MaxLastExchanges)
  }

  /** The router log loads back as saved, whatever shape its entries have. */
  lemma SaveThenLoadLastExchanges(exchanges: seq<Json>)
    ensures LoadLastExchanges(Some(JArr(SaveLastExchanges(exchanges)))) == SaveLastExchanges(exchanges)
  {
    KeepIdempotent(exchanges, MaxLastExchanges);
  }

  /** Unlike an agent history, the router log keeps entries of any shape. */
  lemma RouterLogIsNotValidated()
    ensures LoadLastExchanges(Some(JArr([JNum(1)]))) == [JNum(1)]
    ensures LoadHistory(Some(JArr([JNum(1)]))) == []
  {
    assert !WellFormedEntry(JNum(1));
  }
}

/** The router's classification of one line: a chat model is asked for a JSON verdict
    naming a category, a confidence, a reason and a mission; when the category is
    "unknown", two fallbacks ask again with more context. The chat model and the JSON
    decoder are oracles; the chat model answers the whole list of messages sent in the
    session so far (`None` when its reply has no text). */
module Classifier {
  import opened Outcomes
  import opened Strings
  import opened JsonValues

  type Chat = seq<string> -> Option<string>
  type Decoder = string -> Option<Json>

  // ---------------------------------------------------------------- parsing

  /** `s.index(c)`. */
  function FirstIndex(s: string, c: char): (k: Option<nat>)
    ensures k.Some? ==> k.value < |s| && s[k.value] == c && forall j :: 0 <= j < k.value ==> s[j] != c
    ensures k.None? <==> forall j :: 0 <= j < |s| ==> s[j] != c
  {
    if s == [] then None
    else if s[0] == c then Some(0)
    else match FirstIndex(s[1..], c)
      case None => None
      case Some(j) => Some(j + 1)
  }

  /** `s.rindex(c)`. */
  function LastIndex(s: string, c: char): (k: Option<nat>)
    ensures k.Some? ==> k.value < |s| && s[k.value] == c && forall j :: k.value < j < |s| ==> s[j] != c
    ensures k.None? <==> forall j :: 0 <= j < |s| ==> s[j] != c
  {
    if s == [] then None
    else if s[|s| - 1] == c then Some(|s| - 1)
    else LastIndex(s[..|s| - 1], c)
  }

  /** `raw[raw.index("{"):raw.rindex("}") + 1]`: `ValueError` without either brace, and the
      empty string when the last `}` comes before the first `{`. */
  function ExtractBraces(raw: string): (r: Result<string>)
    ensures r.Raise? <==> (forall j :: 0 <= j < |raw| ==> raw[j] != '{') || (forall j :: 0 <= j < |raw| ==> raw[j] != '}')
    ensures r.Raise? ==> r.error == "ValueError"
    ensures r.Ok? && r.value != [] ==> r.value[0] == '{' && r.value[|r.value| - 1] == '}'
  {
    match (FirstIndex(raw, '{'), LastIndex(raw, '}'))
    case (Some(i), Some(j)) => Ok(if i <= j then raw[i..j + 1] else "")
    case _ => Raise("ValueError")
  }

  /** A reply that wraps one JSON object in prose without braces yields exactly that object. */
  lemma ExtractBracesOfWrappedObject(before: string, obj: string, after: string)
    requires |obj| >= 2 && obj[0] == '{' && obj[|obj| - 1] == '}'
    requires forall j :: 0 <= j < |before| ==> before[j] != '{'
    requires forall j :: 0 <= j < |after| ==> after[j] != '}'
    ensures ExtractBraces(before + obj + after) == Ok(obj)
  {
    var raw := before + obj + after;
    assert raw[|before|] == '{';
    assert raw[|before| + |obj| - 1] == '}';
    var i := FirstIndex(raw, '{').value;
    var j := LastIndex(raw, '}').value;
    assert i == |before| by {
      forall k | 0 <= k < |before| ensures raw[k] != '{' {
        assert raw[k] == before[k];
      }
    }
    assert j == |before| + |obj| - 1 by {
      forall k | |before| + |obj| <= k < |raw| ensures raw[k] != '}' {
        assert raw[k] == after[k - |before| - |obj|];
      }
    }
    assert raw[i..j + 1] == obj;
    assert ExtractBraces(raw) == Ok(raw[i..j + 1]);
  }

  /** `_parse_classification`: the braces' span decoded as JSON (`JSONDecodeError` when the
      decoder rejects it). */
  function ParseClassification(raw: string, decode: Decoder): (r: Result<Json>)
    ensures ExtractBraces(raw).Raise? ==> r == Raise("ValueError")
    ensures ExtractBraces(raw).Ok? ==>
              (decode(ExtractBraces(raw).value).None? <==> r == Raise("JSONDecodeError"))
  {
    match ExtractBraces(raw)
    case Raise(e) => Raise(e)
    case Ok(text) =>
      match decode(text)
      case None => Raise("JSONDecodeError")
      case Some(v) => Ok(v)
  }

  /** The parsed reply to the session's messages `conv`; a reply without text has no `text`
      to index (`AttributeError`). */
  function ReplyTo(conv: seq<string>, chat: Chat, decode: Decoder): Result<Json> {
    match chat(conv)
    case None => Raise("AttributeError")
    case Some(raw) => ParseClassification(raw, decode)
  }

  /** One `send_message` followed by parsing: the message joins the session's list whatever
      comes back, and the reply fails exactly when it has no text, no brace span, or a span
      the decoder rejects. */
  function Classify(sent: seq<string>, message: string, chat: Chat, decode: Decoder): (r: (seq<string>, Result<Json>))
    ensures |r.0| == |sent| + 1 && r.0[..|sent|] == sent && r.0[|sent|] == message
    ensures r.1.Raise? <==>
              || chat(r.0).None?
              || ExtractBraces(chat(r.0).value).Raise?
              || decode(ExtractBraces(chat(r.0).value).value).None?
    ensures r.1.Raise? ==> r.1.error in ["AttributeError", "ValueError", "JSONDecodeError"]
    ensures r.1.Ok? ==>
              && chat(r.0).Some? && ExtractBraces(chat(r.0).value).Ok?
              && decode(ExtractBraces(chat(r.0).value).value) == Some(r.1.value)
  {
    var now := sent + [message];
    (now, ReplyTo(now, chat, decode))
  }

  // ---------------------------------------------------------------- classification fields

  /** The three fields read right after every accepted classification, in order. */
  datatype Classification = Classification(category: Json, confidence: Json, reason: Json, result: Json)

  /** `result["category"]`, `result["confidence"]`, `result["reason"]`: a value that is not
      an object cannot be indexed by a key (`TypeError`), a missing key is a `KeyError`. */
  function ReadFields(v: Json): (r: Result<Classification>)
    ensures r.Ok? <==> v.JObj? && Has(v.fields, "category") && Has(v.fields, "confidence") && Has(v.fields, "reason")
    ensures !v.JObj? ==> r == Raise("TypeError")
    ensures v.JObj? && r.Raise? ==> r.error == "KeyError"
    ensures r.Ok? ==> r.value.result == v && Get(v.fields, "category") == Some(r.value.category)
    ensures r.Ok? ==> Get(v.fields, "reason") == Some(r.value.reason)
  {
    if !v.JObj? then Raise("TypeError")
    else match (Index(v.fields, "category"), Index(v.fields, "confidence"), Index(v.fields, "reason"))
      case (Ok(c), Ok(k), Ok(why)) => Ok(Classification(c, k, why, v))
      case _ => Raise("KeyError")
  }

  /** Python truthiness of a decoded value. */
  predicate Truthy(v: Json) {
    match v
    case JNull => false
    case JBool(b) => b
    case JNum(n) => n != 0
    case JStr(s) => s != ""
    case JArr(items) => items != []
    case JObj(fields) => fields != []
  }

  /** `retry and retry.get("category") != "unknown"`: `None` when the fallback had no
      context; a truthy non-object has no `get` (`AttributeError`). An object without a
      category is accepted. */
  function Accepted(retry: Option<Json>): (r: Result<bool>)
    ensures retry.None? ==> r == Ok(false)
    ensures r == Ok(true) <==> (retry.Some? && retry.value.JObj? && retry.value.fields != []
                                && Get(retry.value.fields, "category") != Some(JStr("unknown")))
    ensures r.Raise? <==> retry.Some? && Truthy(retry.value) && !retry.value.JObj?
  {
    match retry
    case None => Ok(false)
    case Some(v) =>
      if !Truthy(v) then Ok(false)
      else if !v.JObj? then Raise("AttributeError")
      else Ok(Get(v.fields, "category") != Some(JStr("unknown")))
  }

  // ---------------------------------------------------------------- one turn

  /** The message of a fallback classification: the context, the instruction naming it,
      and the user's line. */
  const RetryLead: string := "The previous classification returned 'unknown'. Re-examine the user's message using the "
  const RetryTail: string := " above to find a matching category.\n\n"
  function RetryMessage(context: string, source: string, input: string): (m: string)
    ensures StartsWith(m, context + "\n\n" + RetryLead)
    ensures Contains(m, RetryLead + source + RetryTail)
    ensures |m| >= |input| && m[|m| - |input|..] == input
  {
    MessageShape(context + "\n\n", RetryLead, source, RetryTail, input);
    context + "\n\n" + RetryLead + source + RetryTail + input
  }

  /** A text built as head, lead, source, tail, line starts with head and lead, holds the
      instruction in the middle and ends with the line. */
  lemma MessageShape(head: string, lead: string, source: string, tail: string, input: string)
    ensures var m := head + lead + source + tail + input;
            && StartsWith(m, head + lead)
            && Contains(m, lead + source + tail)
            && |m| >= |input| && m[|m| - |input|..] == input
  {
    var m := head + lead + source + tail + input;
    var instruction := lead + source + tail;
    assert m == (head + lead) + (source + tail + input);
    StartsWithAppend(head + lead, source + tail + input);
    assert m == head + instruction + input;
    assert instruction[..|instruction|] == instruction;
    ContainsInMiddle(head, instruction, input, instruction);
  }

  /** A classification the turn goes on with, or the turn's give-up with the first reason. */
  datatype Decision = Chosen(c: Classification) | GiveUp(reason: Json)

  /** A fallback: no message when the context is empty, otherwise one classification. */
  function Fallback(sent: seq<string>, context: string, source: string, input: string,
                    chat: Chat, decode: Decoder): (r: (seq<string>, Result<Option<Json>>))
    ensures context == "" ==> r == (sent, Ok(None))
    ensures context != "" ==> r.0 == sent + [RetryMessage(context, source, input)]
    ensures r.1.Ok? && r.1.value.Some? ==> context != ""
  {
    if context == "" then (sent, Ok(None))
    else
      var (now, v) := Classify(sent, RetryMessage(context, source, input), chat, decode);
      match v
      case Raise(e) => (now, Raise(e))
      case Ok(j) => (now, Ok(Some(j)))
  }

  /** The plain classification of the user's line and its three fields: it succeeds
      exactly when the reply parses to an object holding all three, and then carries that
      object. */
  function FirstVerdict(sent: seq<string>, input: string, chat: Chat, decode: Decoder): (r: Result<Classification>)
    ensures var v := ReplyTo(sent + [input], chat, decode);
            r.Ok? <==> v.Ok? && v.value.JObj? && Has(v.value.fields, "category")
                       && Has(v.value.fields, "confidence") && Has(v.value.fields, "reason")
    ensures r.Ok? ==> ReplyTo(sent + [input], chat, decode) == Ok(r.value.result)
    ensures r.Raise? ==> r.error in ["AttributeError", "ValueError", "JSONDecodeError", "TypeError", "KeyError"]
  {
    var (_, v) := Classify(sent, input, chat, decode);
    match v
    case Raise(e) => Raise(e)
    case Ok(j) => ReadFields(j)
  }

  /** The escalation of one line: the plain classification, then the fallbacks while the
      category is still "unknown". `recent` is the recent-exchanges context and `summary` the
      agent-memory summary; both are looked at only on the fallback path, so their failure
      surfaces only there, as in `main`, which builds them only on that path. */
  function Decide(sent: seq<string>, input: string, recent: Result<string>, summary: string,
                  chat: Chat, decode: Decoder): (r: (seq<string>, Result<Decision>))
    ensures |sent| + 1 <= |r.0| <= |sent| + 3 && r.0[..|sent|] == sent && r.0[|sent|] == input
    ensures r.1.Ok? && r.1.value.Chosen? ==> r.1.value.c.category != JStr("unknown")
    ensures |r.0| > |sent| + 1 || (r.1.Ok? && r.1.value.GiveUp?) ==>
              var first := FirstVerdict(sent, input, chat, decode);
              first.Ok? && first.value.category == JStr("unknown")
                && (r.1.Ok? && r.1.value.GiveUp? ==> r.1.value.reason == first.value.reason)
    ensures recent == Ok("") ==> |r.0| <= |sent| + 2
    ensures recent.Raise? ==> |r.0| == |sent| + 1
  {
    var s1 := sent + [input];
    match FirstVerdict(sent, input, chat, decode)
    case Raise(e) => (s1, Raise(e))
    case Ok(c1) =>
      if c1.category != JStr("unknown") then (s1, Ok(Chosen(c1)))
      else
        var r := Escalate(s1, input, c1.reason, recent, summary, chat, decode);
        assert r.0[..|sent|] == r.0[..|s1|][..|sent|];
        assert r.0[|sent|] == r.0[..|s1|][|sent|];
        r
  }

  /** The two fallbacks, after a first "unknown" with reason `reason`. */
  function Escalate(s1: seq<string>, input: string, reason: Json, recent: Result<string>, summary: string,
                    chat: Chat, decode: Decoder): (r: (seq<string>, Result<Decision>))
    ensures |s1| <= |r.0| <= |s1| + 2 && r.0[..|s1|] == s1
    ensures r.1.Ok? && r.1.value.Chosen? ==> r.1.value.c.category != JStr("unknown")
    ensures r.1.Ok? && r.1.value.GiveUp? ==> r.1.value.reason == reason
    ensures recent == Ok("") ==> |r.0| <= |s1| + 1
    ensures recent.Raise? ==> r == (s1, Raise(recent.error))
  {
    match recent
    case Raise(e) => (s1, Raise(e))
    case Ok(recentContext) =>
      var (s2, retry) := Fallback(s1, recentContext, "recent exchanges", input, chat, decode);
      var r := Settle(s2, retry, LastResort(s2, input, reason, summary, chat, decode));
      assert r.0[..|s1|] == r.0[..|s2|][..|s1|];
      r
  }

  /** The agent-memory fallback, the last one: give up with `reason` if it fails too. */
  function LastResort(s2: seq<string>, input: string, reason: Json, summary: string,
                      chat: Chat, decode: Decoder): (r: (seq<string>, Result<Decision>))
    ensures |s2| <= |r.0| <= |s2| + 1 && r.0[..|s2|] == s2
    ensures summary == "" ==> r == (s2, Ok(GiveUp(reason)))
    ensures r.1.Ok? && r.1.value.Chosen? ==> r.1.value.c.category != JStr("unknown")
    ensures r.1.Ok? && r.1.value.GiveUp? ==> r.1.value.reason == reason
  {
    var (s3, retry) := Fallback(s2, summary, "agent memory", input, chat, decode);
    Settle(s3, retry, (s3, Ok(GiveUp(reason))))
  }

  /** What a fallback's outcome leads to: its exception, its accepted classification, or,
      when it is not accepted, `otherwise` (the next fallback or the give-up). */
  function Settle(s: seq<string>, retry: Result<Option<Json>>, otherwise: (seq<string>, Result<Decision>)): (r: (seq<string>, Result<Decision>))
    ensures retry.Ok? && Accepted(retry.value) == Ok(false) ==> r == otherwise
    ensures !(retry.Ok? && Accepted(retry.value) == Ok(false)) ==> r.0 == s && !(r.1.Ok? && r.1.value.GiveUp?)
    ensures r.1.Ok? && r.1.value.Chosen? && r != otherwise ==> r.1.value.c.category != JStr("unknown")
    ensures retry.Ok? && Accepted(retry.value) == Ok(true) ==> r == (s, AcceptRetry(retry.value.value))
    ensures retry.Raise? ==> r == (s, Raise(retry.error))
    ensures retry.Ok? && Accepted(retry.value).Raise? ==> r == (s, Raise(Accepted(retry.value).error))
  {
    match retry
    case Raise(e) => (s, Raise(e))
    case Ok(j) =>
      match Accepted(j)
      case Raise(e) => (s, Raise(e))
      case Ok(true) => (s, AcceptRetry(j.value))
      case Ok(false) => otherwise
  }

  /** An accepted fallback replaces the classification; its fields are read again. */
  function AcceptRetry(v: Json): (r: Result<Decision>)
    requires v.JObj? && Get(v.fields, "category") != Some(JStr("unknown"))
    ensures r.Ok? ==> r.value.Chosen? && r.value.c.result == v && r.value.c.category != JStr("unknown")
  {
    match ReadFields(v)
    case Raise(e) => Raise(e)
    case Ok(c) => Ok(Chosen(c))
  }

  /** The first classification decides alone when it is not "unknown": one message. */
  lemma KnownCategoryNeedsOneMessage(sent: seq<string>, input: string, recent: Result<string>, summary: string,
                                     chat: Chat, decode: Decoder, c: Classification)
    requires Classify(sent, input, chat, decode).1.Ok?
    requires ReadFields(Classify(sent, input, chat, decode).1.value) == Ok(c)
    requires c.category != JStr("unknown")
    ensures Decide(sent, input, recent, summary, chat, decode) == (sent + [input], Ok(Chosen(c)))
  {
  }

  /** A classification reply the decoder reads as "unknown" with the given reason. */
  function UnknownVerdict(reason: Json): Json {
    JObj([("category", JStr("unknown")), ("confidence", JNum(0)), ("reason", reason)])
  }

  lemma ReadUnknownVerdict(reason: Json)
    ensures ReadFields(UnknownVerdict(reason)) == Ok(Classification(JStr("unknown"), JNum(0), reason, UnknownVerdict(reason)))
    ensures Accepted(Some(UnknownVerdict(reason))) == Ok(false)
  {
    var f := UnknownVerdict(reason).fields;
    assert IndexOf(f[1..], "confidence") == Some(0);
    assert IndexOf(f[1..][1..], "reason") == Some(0);
    assert IndexOf(f[1..], "reason") == Some(1);
  }

  // ---------------------------------------------------------------- the escalation as a scan

  /** The fallback messages a first "unknown" leads to, in order: one per non-empty context. */
  function Retries(recent: string, summary: string, input: string): (msgs: seq<string>)
    ensures |msgs| == (if recent == "" then 0 else 1) + (if summary == "" then 0 else 1)
  {
    (if recent == "" then [] else [RetryMessage(recent, "recent exchanges", input)])
      + (if summary == "" then [] else [RetryMessage(summary, "agent memory", input)])
  }

  /** A reference for the fallbacks: send the messages one at a time; the first reply that
      fails to parse, or is truthy without being an object, ends the line with its exception;
      the first object whose category is not "unknown" is read and chosen; when no reply is
      chosen, give up with `reason`. */
  function FirstAccepted(sent: seq<string>, msgs: seq<string>, reason: Json, chat: Chat, decode: Decoder)
    : (r: (seq<string>, Result<Decision>))
    ensures |sent| + 1 <= |r.0| <= |sent| + |msgs| || (msgs == [] && r.0 == sent)
    ensures r.0 == sent + msgs[..|r.0| - |sent|]
    ensures r.1.Ok? && r.1.value.GiveUp? ==> r == (sent + msgs, Ok(GiveUp(reason)))
    ensures r.1.Ok? && r.1.value.Chosen? ==> r.1.value.c.category != JStr("unknown")
    decreases |msgs|
  {
    if msgs == [] then
      assert sent + msgs[..0] == sent;
      (sent, Ok(GiveUp(reason)))
    else
      var now := sent + [msgs[0]];
      assert now == sent + msgs[..1];
      var next := FirstAccepted(now, msgs[1..], reason, chat, decode);
      assert next.0 == sent + msgs[..|next.0| - |sent|] by {
        assert now + msgs[1..][..|next.0| - |now|] == sent + msgs[..|next.0| - |sent|];
      }
      assert sent + msgs == now + msgs[1..];
      match ReplyTo(now, chat, decode)
      case Raise(e) => (now, Raise(e))
      case Ok(v) =>
        if !Truthy(v) then next
        else if !v.JObj? then (now, Raise("AttributeError"))
        else if Get(v.fields, "category") == Some(JStr("unknown")) then next
        else
          match ReadFields(v)
          case Raise(e) => (now, Raise(e))
          case Ok(c) => (now, Ok(Chosen(c)))
  }

  /** The line's outcome as `main` reads it: the plain classification decides unless its
      category is "unknown"; then the fallbacks are scanned for the first accepted reply. */
  function Reference(sent: seq<string>, input: string, recent: Result<string>, summary: string,
                     chat: Chat, decode: Decoder): (r: (seq<string>, Result<Decision>))
  {
    var s1 := sent + [input];
    match ReplyTo(s1, chat, decode)
    case Raise(e) => (s1, Raise(e))
    case Ok(v) =>
      match ReadFields(v)
      case Raise(e) => (s1, Raise(e))
      case Ok(c) =>
        if c.category != JStr("unknown") then (s1, Ok(Chosen(c)))
        else
          match recent
          case Raise(e) => (s1, Raise(e))
          case Ok(rc) => FirstAccepted(s1, Retries(rc, summary, input), c.reason, chat, decode)
  }

  /** The nested fallbacks of `main` are the scan: on every chat model and decoder the line
      ends as the first accepted result among the plain classification, the recent-exchanges
      retry and the agent-memory retry, empty contexts skipped. */
  lemma DecideIsFirstAccepted(sent: seq<string>, input: string, recent: Result<string>, summary: string,
                              chat: Chat, decode: Decoder)
    ensures Decide(sent, input, recent, summary, chat, decode) == Reference(sent, input, recent, summary, chat, decode)
  {
    var s1 := sent + [input];
    var first := FirstVerdict(sent, input, chat, decode);
    if first.Ok? && first.value.category == JStr("unknown") && recent.Ok? {
      EscalateIsScan(s1, input, first.value.reason, recent.value, summary, chat, decode);
    }
  }

  lemma EscalateIsScan(s1: seq<string>, input: string, reason: Json, recent: string, summary: string,
                       chat: Chat, decode: Decoder)
    ensures Escalate(s1, input, reason, Ok(recent), summary, chat, decode)
         == FirstAccepted(s1, Retries(recent, summary, input), reason, chat, decode)
  {
    var last := if summary == "" then [] else [RetryMessage(summary, "agent memory", input)];
    var msgs := Retries(recent, summary, input);
    if recent == "" {
      assert msgs == last;
      LastResortIsScan(s1, input, reason, summary, chat, decode);
    } else {
      var m := RetryMessage(recent, "recent exchanges", input);
      var s2 := s1 + [m];
      assert msgs[0] == m && msgs[1..] == last;
      LastResortIsScan(s2, input, reason, summary, chat, decode);
      SettleIsStep(s1, m, FirstAccepted(s2, last, reason, chat, decode), chat, decode);
    }
  }

  /** One scan step agrees with `Settle` on a fallback's outcome. */
  lemma SettleIsStep(sent: seq<string>, m: string, rest: (seq<string>, Result<Decision>), chat: Chat, decode: Decoder)
    ensures var now := sent + [m];
            var retry := match ReplyTo(now, chat, decode)
                         case Raise(e) => Raise(e)
                         case Ok(j) => Ok(Some(j));
            Settle(now, retry, rest)
              == match ReplyTo(now, chat, decode)
                 case Raise(e) => (now, Raise(e))
                 case Ok(v) =>
                   if !Truthy(v) then rest
                   else if !v.JObj? then (now, Raise("AttributeError"))
                   else if Get(v.fields, "category") == Some(JStr("unknown")) then rest
                   else match ReadFields(v)
                        case Raise(e) => (now, Raise(e))
                        case Ok(c) => (now, Ok(Chosen(c)))
  {
  }

  lemma LastResortIsScan(s2: seq<string>, input: string, reason: Json, summary: string, chat: Chat, decode: Decoder)
    ensures LastResort(s2, input, reason, summary, chat, decode)
         == FirstAccepted(s2, if summary == "" then [] else [RetryMessage(summary, "agent memory", input)],
                          reason, chat, decode)
  {
    if summary != "" {
      var m := RetryMessage(summary, "agent memory", input);
      var s3 := s2 + [m];
      assert [m][1..] == [];
      SettleIsStep(s2, m, (s3, Ok(GiveUp(reason))), chat, decode);
    }
  }

  // ---------------------------------------------------------------- consequences

  /** After a first reply that is an "unknown" verdict, the line is the scan over the retries
      with that verdict's reason. */
  lemma DecideAfterUnknown(sent: seq<string>, input: string, recent: string, summary: string,
                           chat: Chat, decode: Decoder, why: Json)
    requires ReplyTo(sent + [input], chat, decode) == Ok(UnknownVerdict(why))
    ensures Decide(sent, input, Ok(recent), summary, chat, decode)
         == FirstAccepted(sent + [input], Retries(recent, summary, input), why, chat, decode)
  {
    ReadUnknownVerdict(why);
    DecideIsFirstAccepted(sent, input, Ok(recent), summary, chat, decode);
  }

  /** "Unknown" replies to the first messages, seen from after the first one. */
  lemma UnknownsShift(sent: seq<string>, msgs: seq<string>, chat: Chat, decode: Decoder, whys: seq<Json>)
    requires 1 <= |whys| <= |msgs|
    requires forall k :: 0 <= k < |whys| ==> ReplyTo(sent + msgs[..k + 1], chat, decode) == Ok(UnknownVerdict(whys[k]))
    ensures forall k :: 0 <= k < |whys| - 1 ==>
              ReplyTo((sent + [msgs[0]]) + msgs[1..][..k + 1], chat, decode) == Ok(UnknownVerdict(whys[1..][k]))
  {
    forall k | 0 <= k < |whys| - 1
      ensures ReplyTo((sent + [msgs[0]]) + msgs[1..][..k + 1], chat, decode) == Ok(UnknownVerdict(whys[1..][k]))
    {
      assert (sent + [msgs[0]]) + msgs[1..][..k + 1] == sent + msgs[..k + 2];
      assert whys[1..][k] == whys[k + 1];
      assert ReplyTo(sent + msgs[..(k + 1) + 1], chat, decode) == Ok(UnknownVerdict(whys[k + 1]));
    }
  }

  /** Sending the first message, then the rest, sends them all. */
  lemma FirstThenRest(sent: seq<string>, msgs: seq<string>)
    requires msgs != []
    ensures (sent + [msgs[0]]) + msgs[1..] == sent + msgs
  {
    assert msgs == [msgs[0]] + msgs[1..];
  }

  /** A scan over replies that all parse to "unknown" verdicts, whatever their reasons,
      sends every message and gives up with the reason it was given. */
  lemma {:induction false} FirstAcceptedAllUnknown(sent: seq<string>, msgs: seq<string>, reason: Json,
                                                   chat: Chat, decode: Decoder, whys: seq<Json>)
    requires |whys| == |msgs|
    requires forall k :: 0 <= k < |msgs| ==> ReplyTo(sent + msgs[..k + 1], chat, decode) == Ok(UnknownVerdict(whys[k]))
    ensures FirstAccepted(sent, msgs, reason, chat, decode) == (sent + msgs, Ok(GiveUp(reason)))
    decreases |msgs|
  {
    if msgs != [] {
      var now := sent + [msgs[0]];
      assert now == sent + msgs[..1];
      FirstAcceptedSkipsUnknown(sent, msgs, reason, chat, decode, whys[0]);
      UnknownsShift(sent, msgs, chat, decode, whys);
      FirstAcceptedAllUnknown(now, msgs[1..], reason, chat, decode, whys[1..]);
      FirstThenRest(sent, msgs);
    }
  }

  /** A fallback with a context whose reply parses to an "unknown" verdict: one message,
      not accepted. */
  lemma FallbackUnknown(s: seq<string>, context: string, source: string, input: string, why: Json,
                        chat: Chat, decode: Decoder)
    requires context != ""
    requires ReplyTo(s + [RetryMessage(context, source, input)], chat, decode) == Ok(UnknownVerdict(why))
    ensures var r := Fallback(s, context, source, input, chat, decode);
            r == (s + [RetryMessage(context, source, input)], Ok(Some(UnknownVerdict(why))))
            && Accepted(r.1.value) == Ok(false)
  {
    ReadUnknownVerdict(why);
  }

  /** The agent-memory message, when there is a summary. */
  function MemoryRetry(summary: string, input: string): (msgs: seq<string>)
    ensures msgs == Retries("", summary, input)
  {
    if summary == "" then [] else [RetryMessage(summary, "agent memory", input)]
  }

  lemma RetriesSplit(recent: string, summary: string, input: string)
    requires recent != ""
    ensures Retries(recent, summary, input) == [RetryMessage(recent, "recent exchanges", input)] + MemoryRetry(summary, input)
  {
  }

  /** The memory step of the scan when its reply is an "unknown" verdict: give up. */
  lemma MemoryStepUnknown(now: seq<string>, input: string, summary: string, reason: Json,
                          chat: Chat, decode: Decoder, why: Json)
    requires summary != "" ==> ReplyTo(now + MemoryRetry(summary, input), chat, decode) == Ok(UnknownVerdict(why))
    ensures FirstAccepted(now, MemoryRetry(summary, input), reason, chat, decode)
         == (now + MemoryRetry(summary, input), Ok(GiveUp(reason)))
  {
    var m := MemoryRetry(summary, input);
    if summary != "" {
      FirstAcceptedSkipsUnknown(now, m, reason, chat, decode, why);
      assert m[1..] == [];
      assert now + [m[0]] == now + m;
    }
  }

  /** The scan over the retries when each reply is an "unknown" verdict: give up. */
  lemma RetriesAllUnknown(s1: seq<string>, input: string, recent: string, summary: string,
                          chat: Chat, decode: Decoder, reason: Json, why2: Json, why3: Json)
    requires recent != "" ==>
               ReplyTo(s1 + [RetryMessage(recent, "recent exchanges", input)], chat, decode) == Ok(UnknownVerdict(why2))
    requires summary != "" ==> ReplyTo(s1 + Retries(recent, summary, input), chat, decode) == Ok(UnknownVerdict(why3))
    ensures FirstAccepted(s1, Retries(recent, summary, input), reason, chat, decode)
         == (s1 + Retries(recent, summary, input), Ok(GiveUp(reason)))
  {
    var msgs := Retries(recent, summary, input);
    var m := MemoryRetry(summary, input);
    if recent != "" {
      RetriesSplit(recent, summary, input);
      var s2 := s1 + [msgs[0]];
      assert s2 + m == s1 + msgs;
      FirstAcceptedSkipsUnknown(s1, msgs, reason, chat, decode, why2);
      assert msgs[1..] == m;
      MemoryStepUnknown(s2, input, summary, reason, chat, decode, why3);
    } else {
      MemoryStepUnknown(s1, input, summary, reason, chat, decode, why3);
    }
  }

  /** When every classification says "unknown", each with its own reason, the line gives up
      with the FIRST reason, after one message per non-empty context. */
  lemma AllUnknownGivesUp(sent: seq<string>, input: string, recent: string, summary: string,
                          chat: Chat, decode: Decoder, why1: Json, why2: Json, why3: Json)
    requires ReplyTo(sent + [input], chat, decode) == Ok(UnknownVerdict(why1))
    requires recent != "" ==>
               ReplyTo(sent + [input, RetryMessage(recent, "recent exchanges", input)], chat, decode)
                 == Ok(UnknownVerdict(why2))
    requires summary != "" ==>
               ReplyTo(sent + [input] + Retries(recent, summary, input), chat, decode) == Ok(UnknownVerdict(why3))
    ensures Decide(sent, input, Ok(recent), summary, chat, decode)
         == (sent + [input] + Retries(recent, summary, input), Ok(GiveUp(why1)))
  {
    DecideAfterUnknown(sent, input, recent, summary, chat, decode, why1);
    assert sent + [input] + [RetryMessage(recent, "recent exchanges", input)] == sent + [input, RetryMessage(recent, "recent exchanges", input)];
    RetriesAllUnknown(sent + [input], input, recent, summary, chat, decode, why1, why2, why3);
  }

  /** The recent-exchanges retry decides when the first reply is "unknown" and the retry's
      reply is an object with another category: two messages, the memory never asked. */
  lemma RecentRetryDecides(sent: seq<string>, input: string, recent: string, summary: string,
                           chat: Chat, decode: Decoder, why: Json, v: Json, c: Classification)
    requires ReplyTo(sent + [input], chat, decode) == Ok(UnknownVerdict(why))
    requires recent != ""
    requires ReplyTo(sent + [input, RetryMessage(recent, "recent exchanges", input)], chat, decode) == Ok(v)
    requires ReadFields(v) == Ok(c) && c.category != JStr("unknown")
    ensures Decide(sent, input, Ok(recent), summary, chat, decode)
         == (sent + [input, RetryMessage(recent, "recent exchanges", input)], Ok(Chosen(c)))
  {
    DecideAfterUnknown(sent, input, recent, summary, chat, decode, why);
    assert sent + [input] + [RetryMessage(recent, "recent exchanges", input)] == sent + [input, RetryMessage(recent, "recent exchanges", input)];
    RetriesChooseRecent(sent + [input], input, recent, summary, chat, decode, why, v, c);
  }

  /** The scan over the retries when the recent reply is chosen. */
  lemma RetriesChooseRecent(s1: seq<string>, input: string, recent: string, summary: string,
                            chat: Chat, decode: Decoder, reason: Json, v: Json, c: Classification)
    requires recent != ""
    requires ReplyTo(s1 + [RetryMessage(recent, "recent exchanges", input)], chat, decode) == Ok(v)
    requires ReadFields(v) == Ok(c) && c.category != JStr("unknown")
    ensures FirstAccepted(s1, Retries(recent, summary, input), reason, chat, decode)
         == (s1 + [RetryMessage(recent, "recent exchanges", input)], Ok(Chosen(c)))
  {
    RetriesSplit(recent, summary, input);
    FirstAcceptedTakesKnown(s1, Retries(recent, summary, input), reason, chat, decode, v, c);
  }

  /** A reply that is an "unknown" verdict passes the scan on to the next message. */
  lemma FirstAcceptedSkipsUnknown(sent: seq<string>, msgs: seq<string>, reason: Json,
                                  chat: Chat, decode: Decoder, why: Json)
    requires msgs != [] && ReplyTo(sent + [msgs[0]], chat, decode) == Ok(UnknownVerdict(why))
    ensures FirstAccepted(sent, msgs, reason, chat, decode) == FirstAccepted(sent + [msgs[0]], msgs[1..], reason, chat, decode)
  {
    ReadUnknownVerdict(why);
  }

  /** A reply that is an object with another category ends the scan with that choice. */
  lemma FirstAcceptedTakesKnown(sent: seq<string>, msgs: seq<string>, reason: Json,
                                chat: Chat, decode: Decoder, v: Json, c: Classification)
    requires msgs != [] && ReplyTo(sent + [msgs[0]], chat, decode) == Ok(v)
    requires ReadFields(v) == Ok(c) && c.category != JStr("unknown")
    ensures FirstAccepted(sent, msgs, reason, chat, decode) == (sent + [msgs[0]], Ok(Chosen(c)))
  {
  }

  /** A scan whose replies are "unknown" verdicts up to a last reply that is an object with
      another category chooses that last reply, after sending every message. */
  lemma {:induction false} FirstAcceptedChoosesLast(sent: seq<string>, msgs: seq<string>, reason: Json,
                                                    chat: Chat, decode: Decoder, whys: seq<Json>, v: Json, c: Classification)
    requires |msgs| == |whys| + 1
    requires forall k :: 0 <= k < |whys| ==> ReplyTo(sent + msgs[..k + 1], chat, decode) == Ok(UnknownVerdict(whys[k]))
    requires ReplyTo(sent + msgs, chat, decode) == Ok(v)
    requires ReadFields(v) == Ok(c) && c.category != JStr("unknown")
    ensures FirstAccepted(sent, msgs, reason, chat, decode) == (sent + msgs, Ok(Chosen(c)))
    decreases |msgs|
  {
    var now := sent + [msgs[0]];
    assert now == sent + msgs[..1];
    if whys == [] {
      assert msgs == [msgs[0]];
      FirstAcceptedTakesKnown(sent, msgs, reason, chat, decode, v, c);
    } else {
      FirstAcceptedSkipsUnknown(sent, msgs, reason, chat, decode, whys[0]);
      UnknownsShift(sent, msgs, chat, decode, whys);
      FirstThenRest(sent, msgs);
      FirstAcceptedChoosesLast(now, msgs[1..], reason, chat, decode, whys[1..], v, c);
    }
  }

  /** The agent-memory retry decides when the earlier replies are "unknown" (the recent one
      only when its context is not empty) and its reply is an object with another category. */
  lemma MemoryRetryDecides(sent: seq<string>, input: string, recent: string, summary: string,
                           chat: Chat, decode: Decoder, why1: Json, why2: Json, v: Json, c: Classification)
    requires ReplyTo(sent + [input], chat, decode) == Ok(UnknownVerdict(why1))
    requires recent != "" ==>
               ReplyTo(sent + [input, RetryMessage(recent, "recent exchanges", input)], chat, decode)
                 == Ok(UnknownVerdict(why2))
    requires summary != ""
    requires ReplyTo(sent + [input] + Retries(recent, summary, input), chat, decode) == Ok(v)
    requires ReadFields(v) == Ok(c) && c.category != JStr("unknown")
    ensures Decide(sent, input, Ok(recent), summary, chat, decode)
         == (sent + [input] + Retries(recent, summary, input), Ok(Chosen(c)))
  {
    DecideAfterUnknown(sent, input, recent, summary, chat, decode, why1);
    assert sent + [input] + [RetryMessage(recent, "recent exchanges", input)] == sent + [input, RetryMessage(recent, "recent exchanges", input)];
    RetriesChooseMemory(sent + [input], input, recent, summary, chat, decode, why1, why2, v, c);
  }

  /** The scan over the retries when the recent reply (if asked) is "unknown" and the memory
      reply is chosen. */
  lemma RetriesChooseMemory(s1: seq<string>, input: string, recent: string, summary: string,
                            chat: Chat, decode: Decoder, reason: Json, why2: Json, v: Json, c: Classification)
    requires recent != "" ==>
               ReplyTo(s1 + [RetryMessage(recent, "recent exchanges", input)], chat, decode) == Ok(UnknownVerdict(why2))
    requires summary != ""
    requires ReplyTo(s1 + Retries(recent, summary, input), chat, decode) == Ok(v)
    requires ReadFields(v) == Ok(c) && c.category != JStr("unknown")
    ensures FirstAccepted(s1, Retries(recent, summary, input), reason, chat, decode)
         == (s1 + Retries(recent, summary, input), Ok(Chosen(c)))
  {
    var msgs := Retries(recent, summary, input);
    var m := MemoryRetry(summary, input);
    if recent != "" {
      RetriesSplit(recent, summary, input);
      var s2 := s1 + [msgs[0]];
      assert s2 + m == s1 + msgs;
      FirstAcceptedSkipsUnknown(s1, msgs, reason, chat, decode, why2);
      assert msgs[1..] == m;
      MemoryStepKnown(s2, input, summary, reason, chat, decode, v, c);
    } else {
      MemoryStepKnown(s1, input, summary, reason, chat, decode, v, c);
    }
  }

  /** The memory step of the scan when its reply is chosen. */
  lemma MemoryStepKnown(now: seq<string>, input: string, summary: string, reason: Json,
                        chat: Chat, decode: Decoder, v: Json, c: Classification)
    requires summary != ""
    requires ReplyTo(now + MemoryRetry(summary, input), chat, decode) == Ok(v)
    requires ReadFields(v) == Ok(c) && c.category != JStr("unknown")
    ensures FirstAccepted(now, MemoryRetry(summary, input), reason, chat, decode)
         == (now + MemoryRetry(summary, input), Ok(Chosen(c)))
  {
    var m := MemoryRetry(summary, input);
    assert now + [m[0]] == now + m;
    FirstAcceptedTakesKnown(now, m, reason, chat, decode, v, c);
  }
}

/** `_convert_schema` and `_mcp_tools_to_gemini`, which `agents/schedule.py`, `agents/stock.py`
    and `agents/work.py` each define with the same text (the work agent's declaration list
    also appends two tools of its own). A JSON Schema becomes a Gemini schema: type names
    are upper-cased through a fixed table, descriptions are copied, `items` are converted for
    arrays and `properties` (with `required`) for objects; nothing else is kept. */
module SchemaAdapter {
  import opened Outcomes
  import opened JsonValues

  /** `_TYPE_MAP`. */
  const TypeMap: seq<(string, string)> := [
    ("string", "STRING"), ("integer", "INTEGER"), ("number", "NUMBER"),
    ("boolean", "BOOLEAN"), ("array", "ARRAY"), ("object", "OBJECT")
  ]

  predicate GeminiType(t: string) {
    t in {"STRING", "INTEGER", "NUMBER", "BOOLEAN", "ARRAY", "OBJECT"}
  }

  function LookupType(m: seq<(string, string)>, t: string): (r: Option<string>)
    ensures r.Some? ==> exists k :: 0 <= k < |m| && m[k] == (t, r.value)
    ensures r.None? <==> forall k :: 0 <= k < |m| ==> m[k].0 != t
  {
    if m == [] then None
    else if m[0].0 == t then Some(m[0].1)
    else
      var r := LookupType(m[1..], t);
      assert r.Some? ==> exists k :: 0 <= k < |m| && m[k] == (t, r.value) by {
        if r.Some? {
          var k :| 0 <= k < |m[1..]| && m[1..][k] == (t, r.value);
          assert m[k + 1] == (t, r.value);
        }
      }
      r
  }

  /** `_TYPE_MAP.get(t, "STRING")`: a list or a dict cannot be hashed and raises `TypeError`;
      any other value outside the table maps to "STRING". */
  function MapType(t: Json): (r: Result<string>)
    ensures r.Raise? <==> t.JArr? || t.JObj?
    ensures r.Raise? ==> r.error == "TypeError"
    ensures r.Ok? ==> GeminiType(r.value)
    ensures forall k :: 0 <= k < |TypeMap| && t == JStr(TypeMap[k].0) ==> r == Ok(TypeMap[k].1)
    ensures r.Ok? && (forall k :: 0 <= k < |TypeMap| ==> t != JStr(TypeMap[k].0)) ==> r == Ok("STRING")
  {
    match t
    case JArr(_) => Raise("TypeError")
    case JObj(_) => Raise("TypeError")
    case JStr(s) => Ok(LookupType(TypeMap, s).GetOr("STRING"))
    case _ => Ok("STRING")
  }

  /** One optional key of a result dict. */
  function Piece(key: string, v: Option<Json>): (f: Fields)
    ensures forall k :: Get(f, k) == if k == key then v else None
  {
    match v
    case None => []
    case Some(x) => [(key, x)]
  }

  /** The optional keys of a result dict, in the converter's order. */
  function Pieces(desc: Option<Json>, items: Option<Json>, props: Option<Json>, req: Option<Json>): Fields {
    Piece("description", desc) + Piece("items", items) + Piece("properties", props) + Piece("required", req)
  }

  lemma PiecesGet(desc: Option<Json>, items: Option<Json>, props: Option<Json>, req: Option<Json>, k: string)
    ensures Get(Pieces(desc, items, props, req), k)
         == if k == "description" then desc else if k == "items" then items
            else if k == "properties" then props else if k == "required" then req else None
  {
    GetAppend(Piece("description", desc), Piece("items", items), k);
    GetAppend(Piece("description", desc) + Piece("items", items), Piece("properties", props), k);
    GetAppend(Piece("description", desc) + Piece("items", items) + Piece("properties", props), Piece("required", req), k);
  }

  /** The value of an optional key after the leading `type`. */
  lemma AssembledGet(t: Json, desc: Option<Json>, items: Option<Json>, props: Option<Json>, req: Option<Json>, k: string)
    requires k != "type"
    ensures Get([("type", t)] + Pieces(desc, items, props, req), k)
         == if k == "description" then desc else if k == "items" then items
            else if k == "properties" then props else if k == "required" then req else None
  {
    GetAppend([("type", t)], Pieces(desc, items, props, req), k);
    PiecesGet(desc, items, props, req, k);
  }

  /** A schema dict with its keys in the order the converter assigns them. */
  function Assemble(t: Json, desc: Option<Json>, items: Option<Json>, props: Option<Json>, req: Option<Json>): (f: Fields)
    ensures f != [] && f[0] == ("type", t)
    ensures Get(f, "type") == Some(t)
    ensures Get(f, "description") == desc
    ensures Get(f, "items") == items
    ensures Get(f, "properties") == props
    ensures Get(f, "required") == req
  {
    AssembledGet(t, desc, items, props, req, "description");
    AssembledGet(t, desc, items, props, req, "items");
    AssembledGet(t, desc, items, props, req, "properties");
    AssembledGet(t, desc, items, props, req, "required");
    [("type", t)] + Pieces(desc, items, props, req)
  }

  predicate TypeIs(f: Fields, name: string) {
    Get(f, "type") == Some(JStr(name))
  }

  function Wrap(r: Result<Json>): Result<Option<Json>> {
    match r
    case Raise(e) => Raise(e)
    case Ok(v) => Ok(Some(v))
  }

  /** `_convert_schema`. A value that is not a dict has no `get` and raises `AttributeError`,
      as does a `properties` value that is not a dict. The type is mapped first, then the
      items converted, then the properties: the first of them to raise decides. */
  function ConvertSchema(schema: Json): (r: Result<Json>)
    ensures !schema.JObj? ==> r == Raise("AttributeError")
    decreases schema, 2
  {
    if !schema.JObj? then Raise("AttributeError")
    else
      var f := schema.fields;
      Combine(f, MapType(Get(f, "type").GetOr(JStr("string"))), ConvertItems(schema), ConvertProperties(schema))
  }

  /** The shape of a converted schema: a dict led by a Gemini `type` (STRING when the source
      has none), the same description, `items` exactly for an array schema with items,
      `properties` exactly for an object schema with properties, and `required` copied only
      along with the properties. */
  lemma ConvertSchemaShape(schema: Json)
    requires schema.JObj?
    ensures var r := ConvertSchema(schema);
            r.Ok? ==> r.value.JObj? && r.value.fields != [] && r.value.fields[0].0 == "type"
                      && r.value.fields[0].1.JStr? && GeminiType(r.value.fields[0].1.s)
    ensures var r := ConvertSchema(schema);
            !Has(schema.fields, "type") && r.Ok? ==> r.value.fields[0].1 == JStr("STRING")
    ensures var r := ConvertSchema(schema);
            r.Ok? ==> Get(r.value.fields, "description") == Get(schema.fields, "description")
    ensures var r := ConvertSchema(schema);
            r.Ok? ==> (Has(r.value.fields, "items") <==> TypeIs(schema.fields, "array") && Has(schema.fields, "items"))
    ensures var r := ConvertSchema(schema);
            r.Ok? ==> (Has(r.value.fields, "properties") <==> TypeIs(schema.fields, "object") && Has(schema.fields, "properties"))
    ensures var r := ConvertSchema(schema);
            r.Ok? ==> Get(r.value.fields, "required") ==
                        (if TypeIs(schema.fields, "object") && Has(schema.fields, "properties")
                         then Get(schema.fields, "required") else None)
  {
    var f := schema.fields;
    var t := MapType(Get(f, "type").GetOr(JStr("string")));
    var items := ConvertItems(schema);
    var props := ConvertProperties(schema);
    assert ConvertSchema(schema) == Combine(f, t, items, props);
  }

  /** The converted `items` of an array schema that has them. */
  function ConvertItems(schema: Json): (r: Result<Option<Json>>)
    requires schema.JObj?
    ensures r.Ok? ==> (r.value.Some? <==> TypeIs(schema.fields, "array") && Has(schema.fields, "items"))
    decreases schema, 1
  {
    var f := schema.fields;
    if TypeIs(f, "array") && Has(f, "items") then Wrap(ConvertSchema(Get(f, "items").value)) else Ok(None)
  }

  /** The converted `properties` of an object schema that has them. */
  function ConvertProperties(schema: Json): (r: Result<Option<Json>>)
    requires schema.JObj?
    ensures r.Ok? ==> (r.value.Some? <==> TypeIs(schema.fields, "object") && Has(schema.fields, "properties"))
    decreases schema, 1
  {
    var f := schema.fields;
    if TypeIs(f, "object") && Has(f, "properties") then
      var p := Get(f, "properties").value;
      if !p.JObj? then Raise("AttributeError")
      else match ConvertProps(p)
        case Raise(e) => Raise(e)
        case Ok(props) => Ok(Some(JObj(props)))
    else Ok(None)
  }

  /** The converted dict from its parts; `required` is copied only along with properties. */
  function Combine(f: Fields, t: Result<string>, items: Result<Option<Json>>, props: Result<Option<Json>>): (r: Result<Json>)
    ensures r.Ok? <==> t.Ok? && items.Ok? && props.Ok?
    ensures r.Ok? ==> r.value == JObj(Assemble(JStr(t.value), Get(f, "description"), items.value, props.value,
                                               if props.value.Some? then Get(f, "required") else None))
  {
    match t
    case Raise(e) => Raise(e)
    case Ok(name) =>
      match items
      case Raise(e) => Raise(e)
      case Ok(ci) =>
        match props
        case Raise(e) => Raise(e)
        case Ok(cp) => Ok(JObj(Assemble(JStr(name), Get(f, "description"), ci, cp, if cp.Some? then Get(f, "required") else None)))
  }

  /** `{k: _convert_schema(v) for k, v in properties.items()}`: same names in the same
      order, the first failing conversion raising. */
  function ConvertProps(p: Json): (r: Result<Fields>)
    requires p.JObj?
    ensures r.Ok? ==> |r.value| == |p.fields|
    ensures r.Ok? ==> forall j :: 0 <= j < |r.value| ==> r.value[j].0 == p.fields[j].0
    decreases p, 0
  {
    var converted := seq(|p.fields|, k requires 0 <= k < |p.fields| => ConvertSchema(p.fields[k].1));
    match Collect(converted)
    case Raise(e) => Raise(e)
    case Ok(vs) => Ok(seq(|vs|, k requires 0 <= k < |vs| => (p.fields[k].0, vs[k])))
  }

  /** Each converted property is the conversion of the property at the same position, and
      the whole conversion raises, with the first failure's error, when any of them does. */
  lemma ConvertPropsAt(p: Json, j: nat)
    requires p.JObj? && j < |p.fields|
    ensures ConvertProps(p).Ok? ==> ConvertSchema(p.fields[j].1) == Ok(ConvertProps(p).value[j].1)
    ensures ConvertSchema(p.fields[j].1).Raise? ==> ConvertProps(p).Raise?
  {
    var converted := seq(|p.fields|, k requires 0 <= k < |p.fields| => ConvertSchema(p.fields[k].1));
    assert converted[j] == ConvertSchema(p.fields[j].1);
  }

  // ---------------------------------------------------------------- a typed reference

  datatype Kind = KString | KInteger | KNumber | KBoolean | KArray | KObject

  function JsonTypeName(k: Kind): string {
    match k
    case KString => "string"
    case KInteger => "integer"
    case KNumber => "number"
    case KBoolean => "boolean"
    case KArray => "array"
    case KObject => "object"
  }

  function GeminiTypeName(k: Kind): string {
    match k
    case KString => "STRING"
    case KInteger => "INTEGER"
    case KNumber => "NUMBER"
    case KBoolean => "BOOLEAN"
    case KArray => "ARRAY"
    case KObject => "OBJECT"
  }

  /** Every JSON type name maps to its Gemini name. */
  lemma MapTypeOfKind(k: Kind)
    ensures MapType(JStr(JsonTypeName(k))) == Ok(GeminiTypeName(k))
  {
    var i := match k
      case KString => 0 case KInteger => 1 case KNumber => 2
      case KBoolean => 3 case KArray => 4 case KObject => 5;
    assert TypeMap[i] == (JsonTypeName(k), GeminiTypeName(k));
  }

  /** A schema as a tool author writes it; `properties` is only present when `hasProperties`.
      Keys the converter ignores (`items` on a non-array, say) may still be present. */
  datatype Schema = Schema(kind: Kind, description: Option<string>, items: Option<Schema>,
                           hasProperties: bool, properties: seq<(string, Schema)>, required: Option<seq<string>>)

  function StringList(names: seq<string>): Json {
    JArr(seq(|names|, i requires 0 <= i < |names| => JStr(names[i])))
  }

  function DescriptionOf(s: Schema): Option<Json> {
    match s.description
    case None => None
    case Some(d) => Some(JStr(d))
  }

  function RequiredOf(s: Schema): Option<Json> {
    match s.required
    case None => None
    case Some(names) => Some(StringList(names))
  }

  /** The JSON Schema text of a typed schema. */
  function ToJsonSchema(s: Schema): Json
    decreases s, 1
  {
    var items := match s.items case None => None case Some(it) => Some(ToJsonSchema(it));
    var props := if s.hasProperties then Some(PropsText(s)) else None;
    JObj(Assemble(JStr(JsonTypeName(s.kind)), DescriptionOf(s), items, props, RequiredOf(s)))
  }

  /** The `properties` dict of a typed schema's JSON Schema text. */
  function PropsText(s: Schema): Json
    decreases s, 0
  {
    JObj(seq(|s.properties|, k requires 0 <= k < |s.properties| => (s.properties[k].0, ToJsonSchema(s.properties[k].1))))
  }

  /** The Gemini schema a typed schema stands for: `items` only on arrays, `properties` and
      `required` only on objects that have properties. */
  function GeminiOf(s: Schema): Json
    decreases s, 1
  {
    var items := if s.kind == KArray && s.items.Some? then Some(GeminiOf(s.items.value)) else None;
    var props := if s.kind == KObject && s.hasProperties then Some(JObj(GeminiProps(s))) else None;
    var req := if s.kind == KObject && s.hasProperties then RequiredOf(s) else None;
    JObj(Assemble(JStr(GeminiTypeName(s.kind)), DescriptionOf(s), items, props, req))
  }

  function GeminiProps(s: Schema): Fields
    decreases s, 0
  {
    var ps := s.properties;
    seq(|ps|, k requires 0 <= k < |ps| => (ps[k].0, GeminiOf(ps[k].1)))
  }

  /** Converting the JSON Schema text of any typed schema yields exactly its Gemini schema. */
  lemma ConvertSchemaRoundTrip(s: Schema)
    ensures ConvertSchema(ToJsonSchema(s)) == Ok(GeminiOf(s))
    decreases s, 2
  {
    var f := ToJsonSchema(s).fields;
    MapTypeOfKind(s.kind);
    assert MapType(Get(f, "type").GetOr(JStr("string"))) == Ok(GeminiTypeName(s.kind));
    ItemsRoundTrip(s);
    PropertiesRoundTrip(s);
  }

  lemma ItemsRoundTrip(s: Schema)
    ensures ConvertItems(ToJsonSchema(s))
         == Ok(if s.kind == KArray && s.items.Some? then Some(GeminiOf(s.items.value)) else None)
    decreases s, 1
  {
    ToJsonFields(s);
    if s.kind == KArray && s.items.Some? {
      ConvertSchemaRoundTrip(s.items.value);
    }
  }

  lemma PropertiesRoundTrip(s: Schema)
    ensures ConvertProperties(ToJsonSchema(s))
         == Ok(if s.kind == KObject && s.hasProperties then Some(JObj(GeminiProps(s))) else None)
    decreases s, 1
  {
    ToJsonFields(s);
    if s.kind == KObject && s.hasProperties {
      var f := ToJsonSchema(s).fields;
      var p := Get(f, "properties").value;
      ConvertPropsRoundTrip(s, p);
      assert ConvertProperties(ToJsonSchema(s)) == Ok(Some(JObj(ConvertProps(p).value)));
    }
  }

  /** The keys the converter reads from the JSON Schema text of a typed schema. */
  lemma ToJsonFields(s: Schema)
    ensures var f := ToJsonSchema(s).fields;
            && ToJsonSchema(s).JObj?
            && (TypeIs(f, "array") <==> s.kind == KArray)
            && (TypeIs(f, "object") <==> s.kind == KObject)
            && Get(f, "items") == (match s.items case None => None case Some(it) => Some(ToJsonSchema(it)))
            && Get(f, "properties") == (if s.hasProperties then Some(PropsText(s)) else None)
  {
    JsonTypeNameOf(s.kind);
  }

  lemma JsonTypeNameOf(k: Kind)
    ensures JsonTypeName(k) == "array" <==> k == KArray
    ensures JsonTypeName(k) == "object" <==> k == KObject
  {
  }

  lemma ConvertPropsRoundTrip(s: Schema, p: Json)
    requires p == PropsText(s)
    ensures ConvertProps(p) == Ok(GeminiProps(s))
    decreases s, 0
  {
    var ps := s.properties;
    var want := seq(|ps|, k requires 0 <= k < |ps| => GeminiOf(ps[k].1));
    forall k | 0 <= k < |ps| ensures ConvertSchema(p.fields[k].1) == Ok(want[k]) {
      assert p.fields[k] == (ps[k].0, ToJsonSchema(ps[k].1));
      ConvertSchemaRoundTrip(ps[k].1);
    }
    ConvertPropsOk(p, want);
    assert seq(|want|, k requires 0 <= k < |want| => (p.fields[k].0, want[k])) == GeminiProps(s);
  }

  /** When every property converts, the properties convert to the converted values. */
  lemma ConvertPropsOk(p: Json, vs: seq<Json>)
    requires p.JObj? && |vs| == |p.fields|
    requires forall k :: 0 <= k < |vs| ==> ConvertSchema(p.fields[k].1) == Ok(vs[k])
    ensures ConvertProps(p) == Ok(seq(|vs|, k requires 0 <= k < |vs| => (p.fields[k].0, vs[k])))
  {
    var converted := seq(|p.fields|, k requires 0 <= k < |p.fields| => ConvertSchema(p.fields[k].1));
    CollectAllOk(converted, vs);
  }

  // ---------------------------------------------------------------- declarations

  /** What the tool provider lists for one tool. `inputSchema` is the parsed dict. */
  datatype Tool = Tool(name: string, description: Option<string>, inputSchema: Fields)

  /** The converted properties of a tool and its `required` list; none when the input schema
      has no `properties`. */
  function Parameters(tool: Tool): (r: Result<(Fields, Json)>)
    ensures !Has(tool.inputSchema, "properties") ==> r == Ok(([], JArr([])))
    ensures r.Ok? && Has(tool.inputSchema, "properties") ==>
              r.value.1 == Get(tool.inputSchema, "required").GetOr(JArr([]))
  {
    if !Has(tool.inputSchema, "properties") then Ok(([], JArr([])))
    else
      var p := Get(tool.inputSchema, "properties").value;
      if !p.JObj? then Raise("AttributeError")
      else match ConvertProps(p)
        case Raise(e) => Raise(e)
        case Ok(props) => Ok((props, Get(tool.inputSchema, "required").GetOr(JArr([]))))
  }

  /** The declaration of one tool: name, description (`""` when missing or empty) and, only
      when there are properties, an OBJECT parameter schema. */
  function Declaration(tool: Tool): (r: Result<Json>)
    ensures r.Ok? <==> Parameters(tool).Ok?
  {
    match Parameters(tool)
    case Raise(e) => Raise(e)
    case Ok((props, required)) =>
      var head := [("name", JStr(tool.name)), ("description", JStr(tool.description.GetOr("")))];
      if props == [] then Ok(JObj(head))
      else
        var params := JObj([("type", JStr("OBJECT")), ("properties", JObj(props)), ("required", required)]);
        Ok(JObj(head + [("parameters", params)]))
  }

  /** A declaration leads with the tool's name and a description, and carries `parameters`
      exactly when the tool has properties. */
  lemma DeclarationShape(tool: Tool)
    ensures var r := Declaration(tool);
            r.Ok? ==> r.value.JObj? && |r.value.fields| >= 2
                      && r.value.fields[0] == ("name", JStr(tool.name))
                      && r.value.fields[1].0 == "description"
    ensures var r := Declaration(tool);
            r.Ok? ==> (Has(r.value.fields, "parameters") <==> Parameters(tool).value.0 != [])
  {
    match Parameters(tool)
    case Raise(e) =>
    case Ok((props, required)) =>
      var head := [("name", JStr(tool.name)), ("description", JStr(tool.description.GetOr("")))];
      if props == [] {
        assert !Has(head, "parameters");
      } else {
        var params := JObj([("type", JStr("OBJECT")), ("properties", JObj(props)), ("required", required)]);
        GetAppend(head, [("parameters", params)], "parameters");
      }
  }

  /** `_mcp_tools_to_gemini`: one declaration per tool, in order, then the caller's extras;
      the first tool whose schema cannot be converted raises. */
  function ToolsToGemini(tools: seq<Tool>, extras: seq<Json>): (r: Result<seq<Json>>)
    ensures r.Ok? <==> forall i :: 0 <= i < |tools| ==> Declaration(tools[i]).Ok?
    ensures r.Ok? ==> |r.value| == |tools| + |extras| && r.value[|tools|..] == extras
    ensures r.Ok? ==> forall i :: 0 <= i < |tools| ==> r.value[i] == Declaration(tools[i]).value
    ensures r.Raise? ==> exists i :: 0 <= i < |tools| && Declaration(tools[i]) == Raise(r.error)
                                      && forall j :: 0 <= j < i ==> Declaration(tools[j]).Ok?
  {
    var decls := seq(|tools|, i requires 0 <= i < |tools| => Declaration(tools[i]));
    assert forall i :: 0 <= i < |tools| ==> decls[i] == Declaration(tools[i]);
    match Collect(decls)
    case Raise(e) => Raise(e)
    case Ok(ds) => Ok(ds + extras)
  }

  function PropertySchema(description: string): Json {
    JObj([("type", JStr("STRING")), ("description", JStr(description))])
  }

  /** `_SCHEDULE_TOOL_DECL`: the work agent's way to ask the schedule agent. */
  const QueryScheduleDecl: Json := JObj([
    ("name", JStr("query_schedule")),
    ("description", JStr("Ask the schedule agent a question about calendar data (e.g. calculate earnings for a period).")),
    ("parameters", JObj([
      ("type", JStr("OBJECT")),
      ("properties", JObj([("question", PropertySchema("The question to ask the schedule agent"))])),
      ("required", JArr([JStr("question")]))]))])

  /** `_SYNC_TOOL_DECL`: the reconciler, exposed to the work agent as a tool. */
  const SyncToCsvDecl: Json := JObj([
    ("name", JStr("sync_to_csv")),
    ("description", JStr("Fetch all lesson events from the calendar for a date range, compare with the CSV, and add any missing past lessons in one batch. Call this FIRST before answering any question.")),
    ("parameters", JObj([
      ("type", JStr("OBJECT")),
      ("properties", JObj([
        ("start_date", PropertySchema("Start date in YYYY-MM-DD format")),
        ("end_date", PropertySchema("End date in YYYY-MM-DD format (use today for 'until now' queries)"))])),
      ("required", JArr([JStr("start_date"), JStr("end_date")]))]))])

  /** The work agent's declaration list: its provider's tools, then the two synthetic tools last. */
  function WorkDeclarations(tools: seq<Tool>): (r: Result<seq<Json>>)
    ensures r.Ok? ==> |r.value| == |tools| + 2
                      && r.value[|tools|] == QueryScheduleDecl && r.value[|tools| + 1] == SyncToCsvDecl
  {
    var r := ToolsToGemini(tools, [QueryScheduleDecl, SyncToCsvDecl]);
    if r.Ok? then
      assert r.value[|tools|..] == [QueryScheduleDecl, SyncToCsvDecl];
      assert r.value[|tools|] == r.value[|tools|..][0];
      assert r.value[|tools| + 1] == r.value[|tools|..][1];
      r
    else r
  }
}

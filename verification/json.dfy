/** Already-parsed JSON values, as `json.load`/`json.loads` hand them to the core.
    An object keeps its keys in insertion order (Python dicts do) and, being a dict,
    names each key once; lookups therefore take the first entry with the key. */
module JsonValues {
  import opened Outcomes
  import Strings

  datatype Json =
    | JNull
    | JBool(b: bool)
    | JNum(n: int)
    | JStr(s: string)
    | JArr(items: seq<Json>)
    | JObj(fields: seq<(string, Json)>)

  type Fields = seq<(string, Json)>

  /** Position of `key` among the fields, if present. */
  function IndexOf(f: Fields, key: string): (k: Option<nat>)
    ensures k.Some? ==> k.value < |f| && f[k.value].0 == key
    ensures k.None? <==> forall j :: 0 <= j < |f| ==> f[j].0 != key
  {
    if f == [] then None
    else if f[0].0 == key then Some(0)
    else match IndexOf(f[1..], key)
      case None => None
      case Some(j) => Some(j + 1)
  }

  /** `key in d`. */
  predicate Has(f: Fields, key: string) {
    IndexOf(f, key).Some?
  }

  /** `d.get(key)`. */
  function Get(f: Fields, key: string): (r: Option<Json>)
    ensures r.Some? <==> Has(f, key)
    ensures r.Some? ==> (key, r.value) in f
  {
    match IndexOf(f, key)
    case None => None
    case Some(k) => Some(f[k].1)
  }

  /** `d[key]`, raising `KeyError` when the key is absent. */
  function Index(f: Fields, key: string): (r: Result<Json>)
    ensures r.Ok? <==> Has(f, key)
    ensures r.Ok? ==> Get(f, key) == Some(r.value)
  {
    match Get(f, key)
    case None => Raise("KeyError")
    case Some(v) => Ok(v)
  }

  /** A lookup in a concatenation finds the left part's entry first. */
  lemma {:induction false} GetAppend(a: Fields, b: Fields, key: string)
    ensures Get(a + b, key) == if Has(a, key) then Get(a, key) else Get(b, key)
  {
    if a != [] {
      assert (a + b)[0] == a[0];
      assert (a + b)[1..] == a[1..] + b;
      GetAppend(a[1..], b, key);
    } else {
      assert a + b == b;
    }
  }

  /** `str(v)` as an f-string renders it. Scalars follow Python exactly;
      lists and dicts are rendered by an abbreviated placeholder. */
  function Show(v: Json): string {
    match v
    case JNull => "None"
    case JBool(b) => if b then "True" else "False"
    case JNum(n) => Strings.IntToString(n)
    case JStr(s) => s
    case JArr(_) => "[...]"
    case JObj(_) => "{...}"
  }
}

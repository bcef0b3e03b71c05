/**
  `jsonify` and `toJSON` (src/jsonify.ts), and the JSON text round trip
  (`JSON.parse(JSON.stringify(value))`) the route export applies to their
  result.
 */
module JsonExport {
  import opened Wrappers
  import opened Objects

  /**
    The JavaScript values the export meets: strings, plain objects, and
    functions. A function may have an `export` method (a current-generation
    `Router`) and a `toJSON` method, given here by the value it returns.
   */
  datatype JsValue =
    | JStr(s: string)
    | JObj(props: seq<Prop<JsValue>>)
    | JFun(hasExport: bool, toJson: Option<JsValue>)

  /** Parsed JSON: the round trip leaves only strings and objects here. */
  datatype Json = JsonStr(s: string) | JsonObj(props: seq<Prop<Json>>)

  /** The value `jsonify` puts under `key` for the value `t`. */
  function JsonifyEntry(key: string, t: JsValue): (r: Outcome<JsValue>)
    ensures key == "" ==> r == Ok(JStr("end"))
    ensures key != "" && t.JFun? && t.hasExport ==>
      r == if t.toJson.Some? then Ok(t.toJson.value) else Threw("TypeError: t.toJSON is not a function")
    ensures key != "" && !(t.JFun? && t.hasExport) ==> r == Jsonify(t)
    decreases t, 1
  {
    if key == "" then Ok(JStr("end"))
    else if t.JFun? && t.hasExport then
      match t.toJson
      case Some(x) => Ok(x)
      case None => Threw("TypeError: t.toJSON is not a function")
    else Jsonify(t)
  }

  /** The `reduce` over `Object.keys(object)`: every property, in order, under its own key. */
  function JsonifyProps(props: seq<Prop<JsValue>>): (r: Outcome<seq<Prop<JsValue>>>)
    ensures r.Ok? ==> Keys(r.value) == Keys(props)
    ensures r.Ok? ==> forall i :: 0 <= i < |props| ==>
      JsonifyEntry(props[i].key, props[i].value) == Ok(r.value[i].value)
    ensures r.Threw? <==> exists i :: 0 <= i < |props| && JsonifyEntry(props[i].key, props[i].value).Threw?
    decreases props, 2
  {
    if props == [] then Ok([])
    else
      var head := JsonifyEntry(props[0].key, props[0].value);
      var tail := JsonifyProps(props[1..]);
      assert forall i :: 1 <= i < |props| ==> props[i] == props[1..][i - 1];
      if head.Threw? then Threw(head.error)
      else if tail.Threw? then Threw(tail.error)
      else
        var r := [Prop(props[0].key, head.value)] + tail.value;
        assert r[1..] == tail.value;
        Ok(r)
  }

  /**
    `jsonify(object)`: a non-object is returned as it is; an object keeps
    exactly its keys, the value under `''` becomes `'end'`, a value with an
    `export` method is replaced by what its `toJSON` returns, and every other
    value is jsonified in turn.
   */
  function Jsonify(v: JsValue): (r: Outcome<JsValue>)
    ensures !v.JObj? ==> r == Ok(v)
    ensures v.JObj? && r.Ok? ==> r.value.JObj? && Keys(r.value.props) == Keys(v.props)
    ensures v.JObj? ==> (r.Ok? <==> JsonifyProps(v.props).Ok?)
    ensures v.JObj? && r.Ok? ==> r.value.props == JsonifyProps(v.props).value
    decreases v, 0
  {
    if v.JObj? then
      match JsonifyProps(v.props)
      case Ok(ps) => Ok(JObj(ps))
      case Threw(e) => Threw(e)
    else Ok(v)
  }

  /** `toJSON(s)`: a thunk that jsonifies `s` afresh on every call. */
  function ToJson(s: JsValue): (thunk: () -> Outcome<JsValue>)
    ensures thunk() == Jsonify(s)
  {
    () => Jsonify(s)
  }

  /** A value with no function that has an `export` method anywhere in it. */
  predicate NoExport(v: JsValue)
    decreases v
  {
    match v
    case JStr(_) => true
    case JObj(props) => forall i :: 0 <= i < |props| ==> NoExport(props[i].value)
    case JFun(hasExport, _) => !hasExport
  }

  /** Without `export` methods, `jsonify` cannot throw. */
  lemma {:induction false} JsonifyTotal(v: JsValue)
    requires NoExport(v)
    ensures Jsonify(v).Ok?
    decreases v
  {
    if v.JObj? {
      forall i | 0 <= i < |v.props| ensures JsonifyEntry(v.props[i].key, v.props[i].value).Ok? {
        if v.props[i].key != "" {
          JsonifyTotal(v.props[i].value);
        }
      }
    }
  }

  /**
    The value `JSON.stringify` writes and `JSON.parse` reads back (`None` when
    the property is dropped): a function's `toJSON` result stands for it,
    and a function without one, or whose `toJSON` returns a function, is
    dropped.
   */
  function RoundTrip(v: JsValue): (r: Option<Json>)
    ensures v.JStr? ==> r == Some(JsonStr(v.s))
    ensures v.JObj? ==> r.Some? && r.value.JsonObj?
    ensures v.JFun? && (v.toJson.None? || v.toJson.value.JFun?) ==> r.None?
    decreases v, 1
  {
    match v
    case JStr(s) => Some(JsonStr(s))
    case JObj(props) => Some(JsonObj(RoundTripProps(props)))
    case JFun(_, toJson) =>
      match toJson
      case Some(x) => if x.JFun? then None else RoundTrip(x)
      case None => None
  }

  /** The properties that survive the round trip, in order, with their JSON values. */
  function RoundTripProps(props: seq<Prop<JsValue>>): (r: seq<Prop<Json>>)
    ensures |r| <= |props|
    ensures forall k :: k in Keys(r) ==> k in Keys(props)
    decreases props
  {
    if props == [] then []
    else
      var tail := RoundTripProps(props[1..]);
      assert Keys(props) == [props[0].key] + Keys(props[1..]);
      match RoundTrip(props[0].value)
      case Some(j) =>
        assert ([Prop(props[0].key, j)] + tail)[1..] == tail;
        [Prop(props[0].key, j)] + tail
      case None => tail
  }
}

/**
  The legacy table as the route export sees it: the JavaScript values of
  `routesSwitch` and its tries, and their JSON after `jsonify` and the
  `JSON.parse(JSON.stringify(...))` round trip of `transform`.
 */
module ExportJson {
  import opened Wrappers
  import opened Objects
  import opened Legacy
  import opened JsonExport

  /**
    A handler as a value: a function. The function `routes(...)` returns has
    `toJSON = toJSON(routesSwitch)`, which answers the jsonified table.
   */
  function HandlerValue(h: LHandler): (r: JsValue)
    ensures r.JFun? && !r.hasExport
    ensures h.Fn? ==> r.toJson.None?
    decreases h, 3
  {
    match h
    case Fn(_) => JFun(false, None)
    case RoutesFn(table) =>
      var j := Jsonify(TableValue(table));
      JFun(false, if j.Ok? then Some(j.value) else None)
  }

  /** A trie node as a value: a function, or an object with its literal keys and `global`. */
  function TrieValue(t: Trie): (r: JsValue)
    ensures !(r.JFun? && r.hasExport)
    decreases t, 2
  {
    match t
    case Leaf(h) => HandlerValue(h)
    case Node(slots) => JObj(SlotsValue(slots))
  }

  function SlotsValue(slots: seq<Slot>): (r: seq<Prop<JsValue>>)
    ensures |r| == |slots|
    decreases slots, 1
  {
    if slots == [] then []
    else
      var head := match slots[0]
        case Lit(k, sub) => Prop(k, TrieValue(sub))
        case Glob(name, parts) => Prop("global", JObj([Prop("name", JStr(name)), Prop("parts", TrieValue(parts))]));
      [head] + SlotsValue(slots[1..])
  }

  /** `routesSwitch` as a value: one property per method. */
  function TableValue(table: Table): (r: JsValue)
    ensures r.JObj? && Keys(r.props) == Keys(table)
    decreases table, 2
  {
    JObj(TableProps(table))
  }

  function TableProps(table: Table): (r: seq<Prop<JsValue>>)
    ensures Keys(r) == Keys(table)
    decreases table, 1
  {
    if table == [] then []
    else
      var rest := TableProps(table[1..]);
      assert ([Prop(table[0].key, TrieValue(table[0].value))] + rest)[1..] == rest;
      [Prop(table[0].key, TrieValue(table[0].value))] + rest
  }

  /**
    The JSON of a trie node (`None` when the property is dropped): a plain
    function vanishes, a nested legacy router shows its own table, an object
    keeps its keys with `''` reading `'end'` and `global` reading
    `{ name, parts }`.
   */
  function TrieJson(t: Trie): (r: Option<Json>)
    ensures t.Node? ==> r.Some? && r.value.JsonObj?
    ensures t.Leaf? && t.handler.Fn? ==> r.None?
    decreases t, 2
  {
    match t
    case Leaf(Fn(_)) => None
    case Leaf(RoutesFn(table)) => Some(TableJson(table))
    case Node(slots) => Some(JsonObj(SlotsJson(slots)))
  }

  /** The JSON of the `global` entry `{ name, parts }`. */
  function GlobalJson(name: string, parts: Trie): Json
    decreases parts, 3
  {
    JsonObj([Prop("name", JsonStr(name))] +
      match TrieJson(parts) case Some(j) => [Prop("parts", j)] case None => [])
  }

  /** The JSON properties of one slot: none when its value is dropped. */
  function SlotJson(slot: Slot): seq<Prop<Json>>
    decreases slot, 0
  {
    match slot
    case Lit(k, sub) =>
      if k == "" then [Prop("", JsonStr("end"))]
      else (match TrieJson(sub) case Some(j) => [Prop(k, j)] case None => [])
    case Glob(name, parts) => [Prop("global", GlobalJson(name, parts))]
  }

  function SlotsJson(slots: seq<Slot>): seq<Prop<Json>>
    decreases slots, 1
  {
    if slots == [] then [] else SlotJson(slots[0]) + SlotsJson(slots[1..])
  }

  /** The JSON of a table: one property per method whose value survives. */
  function TableJson(table: Table): (r: Json)
    ensures r.JsonObj?
    decreases table, 1
  {
    JsonObj(TablePropsJson(table))
  }

  function TablePropsJson(table: Table): seq<Prop<Json>>
    decreases table, 0
  {
    if table == [] then []
    else
      var head: seq<Prop<Json>> :=
        if table[0].key == "" then [Prop("", JsonStr("end"))]
        else (match TrieJson(table[0].value) case Some(j) => [Prop(table[0].key, j)] case None => []);
      head + TablePropsJson(table[1..])
  }

  /**
    `JSON.parse(JSON.stringify(jsonify(routesSwitch)))` is the table's JSON
    view: `jsonify` never throws on a table, and the round trip of its
    result is `TableJson`.
   */
  lemma {:induction false} TableRoundTrip(table: Table)
    ensures Jsonify(TableValue(table)).Ok?
    ensures RoundTrip(Jsonify(TableValue(table)).value) == Some(TableJson(table))
    decreases table, 2
  {
    TablePropsRoundTrip(table);
  }

  lemma {:induction false} TablePropsRoundTrip(table: Table)
    ensures JsonifyProps(TableProps(table)).Ok?
    ensures RoundTripProps(JsonifyProps(TableProps(table)).value) == TablePropsJson(table)
    decreases table, 1
  {
    if table != [] {
      var props := TableProps(table);
      var k, t := table[0].key, table[0].value;
      assert props[0] == Prop(k, TrieValue(t)) && props[1..] == TableProps(table[1..]);
      TablePropsRoundTrip(table[1..]);
      if k != "" {
        TrieRoundTrip(t);
      }
      var j := JsonifyProps(props).value;
      assert j[1..] == JsonifyProps(TableProps(table[1..])).value by {
        JsonifyPropsTail(props);
      }
      assert RoundTripProps(j) == (match RoundTrip(j[0].value) case Some(x) => [Prop(j[0].key, x)] case None => []) + RoundTripProps(j[1..]) by {
        RoundTripPropsHead(j);
      }
    }
  }

  /** A trie's value jsonifies without throwing, and its round trip is `TrieJson`. */
  lemma {:induction false} TrieRoundTrip(t: Trie)
    ensures Jsonify(TrieValue(t)).Ok?
    ensures RoundTrip(Jsonify(TrieValue(t)).value) == TrieJson(t)
    decreases t, 3
  {
    match t
    case Leaf(Fn(_)) =>
    case Leaf(RoutesFn(table)) =>
      TableRoundTrip(table);
    case Node(slots) =>
      SlotsRoundTrip(slots);
  }

  lemma {:induction false} SlotsRoundTrip(slots: seq<Slot>)
    ensures JsonifyProps(SlotsValue(slots)).Ok?
    ensures RoundTripProps(JsonifyProps(SlotsValue(slots)).value) == SlotsJson(slots)
    decreases slots, 2
  {
    if slots != [] {
      var props := SlotsValue(slots);
      assert props[1..] == SlotsValue(slots[1..]);
      SlotsRoundTrip(slots[1..]);
      match slots[0]
      case Lit(k, sub) =>
        if k != "" {
          TrieRoundTrip(sub);
        }
        SlotsRoundTripHead(slots);
      case Glob(name, parts) =>
        GlobRoundTrip(name, parts);
        SlotsRoundTripHead(slots);
    }
  }

  /** The `global` entry `{ name, parts }` jsonifies and reads back as `GlobalJson`. */
  lemma {:induction false} GlobRoundTrip(name: string, parts: Trie)
    ensures var v := JObj([Prop("name", JStr(name)), Prop("parts", TrieValue(parts))]);
      JsonifyEntry("global", v).Ok? && RoundTrip(JsonifyEntry("global", v).value) == Some(GlobalJson(name, parts))
    decreases parts, 4
  {
    TrieRoundTrip(parts);
    var pv := Jsonify(TrieValue(parts)).value;
    var one := [Prop("parts", TrieValue(parts))];
    assert one[1..] == [];
    assert JsonifyEntry("parts", TrieValue(parts)) == Ok(pv);
    assert JsonifyProps(one) == Ok([Prop("parts", pv)]) by {
      assert JsonifyProps(one[1..]) == Ok([]);
      assert [Prop("parts", pv)] + [] == [Prop("parts", pv)];
    }
    var inner := [Prop("name", JStr(name))] + one;
    assert inner[1..] == one;
    assert JsonifyEntry("name", JStr(name)) == Ok(JStr(name));
    var ji := [Prop("name", JStr(name)), Prop("parts", pv)];
    assert JsonifyProps(inner) == Ok(ji) by {
      assert inner != [] && inner[0] == Prop("name", JStr(name));
      assert [Prop("name", JStr(name))] + [Prop("parts", pv)] == ji;
    }
    assert JsonifyEntry("global", JObj(inner)) == Ok(JObj(ji));
    RoundTripPropsHead(ji);
    assert ji[1..] == [Prop("parts", pv)];
    RoundTripPropsHead(ji[1..]);
    assert ji[1..][1..] == [];
    var tail: seq<Prop<Json>> := match TrieJson(parts) case Some(j) => [Prop("parts", j)] case None => [];
    assert RoundTripProps(ji[1..]) == tail + [];
    assert RoundTripProps(ji) == [Prop("name", JsonStr(name))] + tail;
    assert RoundTrip(JObj(ji)) == Some(GlobalJson(name, parts));
  }

  /** The step of `SlotsRoundTrip`: the head slot's entry, then the tail's. */
  lemma SlotsRoundTripHead(slots: seq<Slot>)
    requires slots != []
    requires JsonifyEntry(SlotsValue(slots)[0].key, SlotsValue(slots)[0].value).Ok?
    requires JsonifyProps(SlotsValue(slots[1..])).Ok?
    requires RoundTripProps(JsonifyProps(SlotsValue(slots[1..])).value) == SlotsJson(slots[1..])
    requires RoundTrip(JsonifyEntry(SlotsValue(slots)[0].key, SlotsValue(slots)[0].value).value) ==
      (match slots[0] case Lit(k, sub) => (if k == "" then Some(JsonStr("end")) else TrieJson(sub))
                      case Glob(name, parts) => Some(GlobalJson(name, parts)))
    ensures JsonifyProps(SlotsValue(slots)).Ok?
    ensures RoundTripProps(JsonifyProps(SlotsValue(slots)).value) == SlotsJson(slots)
  {
    var props := SlotsValue(slots);
    assert props[1..] == SlotsValue(slots[1..]);
    var j := JsonifyProps(props).value;
    JsonifyPropsTail(props);
    RoundTripPropsHead(j);
  }

  /** How `JsonifyProps` treats the tail of a property list. */
  lemma JsonifyPropsTail(props: seq<Prop<JsValue>>)
    requires props != [] && JsonifyProps(props).Ok?
    ensures JsonifyProps(props[1..]).Ok?
    ensures JsonifyProps(props).value[1..] == JsonifyProps(props[1..]).value
    ensures JsonifyProps(props).value[0] == Prop(props[0].key, JsonifyEntry(props[0].key, props[0].value).value)
  {
  }

  /** How `RoundTripProps` treats the head of a property list. */
  lemma RoundTripPropsHead(props: seq<Prop<JsValue>>)
    requires props != []
    ensures RoundTripProps(props) ==
      (match RoundTrip(props[0].value) case Some(x) => [Prop(props[0].key, x)] case None => []) + RoundTripProps(props[1..])
  {
  }
}

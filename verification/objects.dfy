/**
  Plain JavaScript objects as ordered property lists. Property order is
  insertion order; integer-like keys, which engines list first, are not
  distinguished.
 */
module Objects {
  import opened Wrappers

  /** One own property. */
  datatype Prop<+V> = Prop(key: string, value: V)

  /** `Object.keys(o)` */
  function Keys<V>(o: seq<Prop<V>>): (r: seq<string>)
    ensures |r| == |o|
    decreases |o|
  {
    if o == [] then [] else [o[0].key] + Keys(o[1..])
  }

  lemma {:induction false} KeysAt<V>(o: seq<Prop<V>>)
    ensures forall i :: 0 <= i < |o| ==> Keys(o)[i] == o[i].key
    decreases |o|
  {
    if o != [] {
      KeysAt(o[1..]);
    }
  }

  /** No key occurs twice, as in every object the runtime builds. */
  predicate UniqueKeys<V>(o: seq<Prop<V>>) {
    forall i, j :: 0 <= i < j < |o| ==> o[i].key != o[j].key
  }

  /** `o[key]`: the value of the first property with that key, if any. */
  function ValueOf<V>(o: seq<Prop<V>>, key: string): (r: Option<V>)
    ensures r.None? <==> key !in Keys(o)
    ensures r.Some? ==> Prop(key, r.value) in o
    decreases |o|
  {
    if o == [] then None
    else if o[0].key == key then Some(o[0].value)
    else
      ValueOf(o[1..], key)
  }

  /**
    `{...o, [key]: value}` (or `o[key] = value`): an existing property keeps
    its place and takes the new value, a new one goes last.
   */
  function WithProp<V>(o: seq<Prop<V>>, key: string, value: V): (r: seq<Prop<V>>)
    ensures ValueOf(r, key) == Some(value)
    ensures Keys(r) == if key in Keys(o) then Keys(o) else Keys(o) + [key]
    decreases |o|
  {
    if o == [] then [Prop(key, value)]
    else if o[0].key == key then
      assert ([Prop(key, value)] + o[1..])[1..] == o[1..];
      [Prop(key, value)] + o[1..]
    else
      var rest := WithProp(o[1..], key, value);
      assert ([o[0]] + rest)[1..] == rest;
      [o[0]] + rest
  }

  /** Setting one property leaves every other property's value as it was. */
  lemma {:induction false} WithPropOthers<V>(o: seq<Prop<V>>, key: string, value: V, other: string)
    requires other != key
    ensures ValueOf(WithProp(o, key, value), other) == ValueOf(o, other)
    decreases |o|
  {
    if o != [] && o[0].key != key {
      WithPropOthers(o[1..], key, value, other);
    }
  }

  /** Setting a property keeps the keys distinct. */
  lemma WithPropUnique<V>(o: seq<Prop<V>>, key: string, value: V)
    requires UniqueKeys(o)
    ensures UniqueKeys(WithProp(o, key, value))
  {
    var r := WithProp(o, key, value);
    KeysAt(o);
    KeysAt(r);
  }

  /** `const { [key]: _, ...rest } = o`: every other property, in order. */
  function Without<V>(o: seq<Prop<V>>, key: string): (r: seq<Prop<V>>)
    ensures key !in Keys(r)
    ensures forall k :: k in Keys(r) <==> k in Keys(o) && k != key
    decreases |o|
  {
    if o == [] then []
    else
      var rest := Without(o[1..], key);
      if o[0].key == key then rest
      else
        assert ([o[0]] + rest)[1..] == rest;
        [o[0]] + rest
  }

  /** Dropping one property leaves every other property's value as it was. */
  lemma {:induction false} WithoutOthers<V>(o: seq<Prop<V>>, key: string, other: string)
    requires other != key
    ensures ValueOf(Without(o, key), other) == ValueOf(o, other)
    decreases |o|
  {
    if o != [] {
      WithoutOthers(o[1..], key, other);
      if o[0].key != key {
        assert ([o[0]] + Without(o[1..], key))[1..] == Without(o[1..], key);
      }
    }
  }
}

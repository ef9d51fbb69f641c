/** JSON objects with a fixed list of keys, as the protocol objects are hashed. */
module JsonObjects {
  import opened Outcomes
  import opened Ordering
  import opened CanonicalJson

  predicate Distinct(keys: seq<string>)
  {
    forall i, j | 0 <= i < j < |keys| :: keys[i] != keys[j]
  }

  predicate GoodKeys(keys: seq<string>)
  {
    Distinct(keys) && forall i | 0 <= i < |keys| :: ValidString(keys[i])
  }

  /** The object that maps every key to the value at its position. */
  function Dict(keys: seq<string>, values: seq<Json>): Json
    requires Distinct(keys) && |keys| == |values|
  {
    Obj(map i | 0 <= i < |keys| :: keys[i] := values[i])
  }

  lemma DictIsValid(keys: seq<string>, values: seq<Json>)
    requires GoodKeys(keys) && |keys| == |values|
    ensures Valid(Dict(keys, values)) <==> forall i | 0 <= i < |values| :: Valid(values[i])
  {
    var m := Dict(keys, values).fields;
    assert forall i | 0 <= i < |keys| :: keys[i] in m && m[keys[i]] == values[i];
    assert forall k | k in m :: exists i :: 0 <= i < |keys| && keys[i] == k;
  }

  /** Values can be read back, so two objects with the same keys are equal only value by value. */
  lemma DictIsInjective(keys: seq<string>, values: seq<Json>, values': seq<Json>)
    requires Distinct(keys) && |keys| == |values| == |values'|
    requires Dict(keys, values) == Dict(keys, values')
    ensures values == values'
  {
    var m, m' := Dict(keys, values).fields, Dict(keys, values').fields;
    forall i | 0 <= i < |keys| ensures values[i] == values'[i] {
      assert m[keys[i]] == values[i] && m'[keys[i]] == values'[i];
    }
  }

  predicate HasField(v: Json, key: string, x: Json)
  {
    v.Obj? && key in v.fields && v.fields[key] == x
  }

  /** The object has a field for every key, and no other. */
  lemma DictFields(keys: seq<string>, values: seq<Json>)
    requires Distinct(keys) && |keys| == |values|
    ensures |Dict(keys, values).fields| == |keys| && forall i | 0 <= i < |keys| :: HasField(Dict(keys, values), keys[i], values[i])
  {
    var m := Dict(keys, values).fields;
    assert forall i | 0 <= i < |keys| :: keys[i] in m && m[keys[i]] == values[i];
    assert m.Keys == Elements(keys);
    DistinctCount(keys);
    assert |m.Keys| == |m|;
  }

  /** The values under a list of keys, if the object has exactly these keys. */
  function Fields(v: Json, keys: seq<string>): (r: Option<seq<Json>>)
    ensures r.Some? ==> |r.value| == |keys|
  {
    if v.Obj? && v.fields.Keys == Elements(keys)
    then Some(seq(|keys|, i requires 0 <= i < |keys| => v.fields[keys[i]]))
    else None
  }

  lemma FieldsOfDict(keys: seq<string>, values: seq<Json>)
    requires Distinct(keys) && |keys| == |values|
    ensures Fields(Dict(keys, values), keys) == Some(values)
  {
    var m := Dict(keys, values).fields;
    assert forall i | 0 <= i < |keys| :: keys[i] in m && m[keys[i]] == values[i];
    assert m.Keys == Elements(keys);
    assert Fields(Dict(keys, values), keys).value == values;
  }

  lemma DictUpdateIsValid(keys: seq<string>, values: seq<Json>, i: nat, v: Json)
    requires Distinct(keys) && |keys| == |values| && i < |keys| && Valid(v)
    requires Valid(Dict(keys, values))
    ensures Valid(Dict(keys, values[i := v]))
  {
    var m, m' := Dict(keys, values).fields, Dict(keys, values[i := v]).fields;
    assert forall j | 0 <= j < |keys| :: keys[j] in m && m[keys[j]] == values[j];
    forall k | k in m' ensures ValidString(k) && Valid(m'[k]) {
      var j :| 0 <= j < |keys| && keys[j] == k;
      assert m'[keys[j]] == values[i := v][j];
      assert k in m && Valid(m[k]);
    }
  }

  lemma DictOfFields(v: Json, keys: seq<string>)
    requires Distinct(keys) && Fields(v, keys).Some?
    ensures v == Dict(keys, Fields(v, keys).value)
  {
    var values := Fields(v, keys).value;
    FieldsOfDict(keys, values);
    var m := Dict(keys, values).fields;
    assert v.fields.Keys == Elements(keys) == m.Keys;
    forall k | k in m ensures m[k] == v.fields[k] {
      assert k in Elements(keys);
      var i :| 0 <= i < |keys| && keys[i] == k;
      assert m[keys[i]] == values[i];
    }
  }
}

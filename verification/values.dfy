/** The values tools exchange with the driver and return to the caller: the
    JSON-like shapes a Python `dict[str, Any]` result is built from. A fetched
    row (the driver's `dict_row`) is an ordered list of column/value fields. */
module Values {
  import opened Results

  /** A tagged value. Floats, decimals, timestamps and other driver types are
      kept opaque as `Other`: no tool inspects them. */
  datatype Value =
    | Null
    | Bool(b: bool)
    | Int(i: int)
    | Text(s: string)
    | Other(typeName: string, repr: string)
    | List(items: seq<Value>)
    | Object(fields: seq<Field>)

  /** One `key: value` entry of a dict, in insertion order. */
  datatype Field = Field(key: string, value: Value)

  /** No key occurs twice: the fields form a dict. */
  predicate DistinctKeys(fields: seq<Field>) {
    forall i, j :: 0 <= i < j < |fields| ==> fields[i].key != fields[j].key
  }

  /** A fetched row: a dict from column name to value, in the order of the query's
      columns. Being a dict, it holds each column name once. */
  type Row = fields: seq<Field> | DistinctKeys(fields) witness []

  /** `list(d.keys())`: the keys in insertion order. */
  function Keys(fields: seq<Field>): (ks: seq<string>)
    ensures |ks| == |fields|
    ensures forall i :: 0 <= i < |fields| ==> ks[i] == fields[i].key
  {
    if fields == [] then [] else [fields[0].key] + Keys(fields[1..])
  }

  /** `d[key]` when `key in d`, and `None` when the subscript would raise `KeyError`. */
  function Lookup(fields: seq<Field>, key: string): (r: Option<Value>)
    ensures r.None? <==> key !in Keys(fields)
    ensures r.Some? ==> Field(key, r.value) in fields
    ensures forall i :: 0 <= i < |fields| && fields[i].key == key && key !in Keys(fields[..i]) ==>
      r == Some(fields[i].value)
  {
    if fields == [] then None
    else if fields[0].key == key then Some(fields[0].value)
    else
      PrefixKeys(fields);
      Lookup(fields[1..], key)
  }

  /** The keys of a non-empty prefix are the first key followed by the keys of the
      matching prefix of the tail. */
  lemma PrefixKeys(fields: seq<Field>)
    requires |fields| > 0
    ensures forall i :: 0 < i <= |fields| ==> Keys(fields[..i]) == [fields[0].key] + Keys(fields[1..][..i - 1])
  {
    forall i | 0 < i <= |fields|
      ensures Keys(fields[..i]) == [fields[0].key] + Keys(fields[1..][..i - 1])
    {
      assert fields[..i][1..] == fields[1..][..i - 1];
    }
  }

  /** `d[key]` finds the field that holds `key`, when no earlier field holds it. */
  lemma {:induction false} LookupFinds(fields: seq<Field>, i: int)
    requires 0 <= i < |fields|
    requires forall j :: 0 <= j < i ==> fields[j].key != fields[i].key
    ensures Lookup(fields, fields[i].key) == Some(fields[i].value)
    decreases i
  {
    if i > 0 {
      LookupFinds(fields[1..], i - 1);
    }
  }

  /** Python truthiness of a `fetchone()` result: a row that exists and is not an empty dict. */
  predicate Truthy(row: Option<Row>) {
    row.Some? && row.value != []
  }

  /** A list of fetched rows as the value a tool returns: each row becomes a dict. */
  function RowsValue(rows: seq<Row>): (v: Value)
    ensures v.List? && |v.items| == |rows|
    ensures forall i :: 0 <= i < |rows| ==> v.items[i] == Object(rows[i])
  {
    List(seq(|rows|, i requires 0 <= i < |rows| => Object(rows[i])))
  }

  /** `RowsValue` loses nothing: the rows can be read back from it, in order. */
  lemma RowsValueInjective(a: seq<Row>, b: seq<Row>)
    requires RowsValue(a) == RowsValue(b)
    ensures a == b
  {
    assert |a| == |b|;
    forall i | 0 <= i < |a|
      ensures a[i] == b[i]
    {
      assert RowsValue(a).items[i] == RowsValue(b).items[i];
    }
  }
}

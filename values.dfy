/** The value maps the ORM hands to create/write hooks and the rows it stores. */
module Values {

  import opened Outcomes

  /** A field value as the ORM passes it around: booleans, many2one ids,
      character fields, and reference fields ("model,id"). */
  datatype Value =
    | VNone
    | VBool(b: bool)
    | VInt(i: int)
    | VStr(s: string)
    | VRef(model: string, id: int)

  /** A record's field values, or the value map of a create entry or write batch. */
  type Row = map<string, Value>

  /** Python truthiness of a field value. */
  predicate Truthy(v: Value)
  {
    match v
    case VNone => false
    case VBool(b) => b
    case VInt(i) => i != 0
    case VStr(s) => s != ""
    case VRef(_, _) => true
  }

  /** `row.get(key, default)`. */
  function Get(row: Row, key: string, default: Value): Value
  {
    if key in row then row[key] else default
  }

  /** The content of a character field; a missing or non-text value reads as "". */
  function Text(row: Row, key: string): string
  {
    match Get(row, key, VNone)
    case VStr(s) => s
    case _ => ""
  }

  /** The record id a many2one field holds, if any: `Model(v) if v else None`. */
  function RefOf(row: Row, key: string): (r: Option<nat>)
    ensures r.Some? <==> key in row && row[key].VInt? && row[key].i > 0
    ensures r.Some? ==> row[key] == VInt(r.value)
  {
    match Get(row, key, VNone)
    case VInt(i) => if i > 0 then Some(i) else None
    case _ => None
  }

  /** `d.setdefault(key, v)` on a copy of `d`: the key is added only when absent. */
  function SetDefault(d: Row, key: string, v: Value): (r: Row)
    ensures r.Keys == d.Keys + {key}
    ensures forall k :: k in d ==> r[k] == d[k]
    ensures key !in d ==> r[key] == v
  {
    if key in d then d else d[key := v]
  }

  /** A row holding two distinct keys has more than one key. */
  lemma MoreThanOneKey(d: Row, a: string, b: string)
    requires a in d && b in d && a != b
    ensures |d.Keys| > 1
  {
    var rest := d.Keys - {a};
    assert d.Keys == rest + {a};
    assert b in rest;
  }
}

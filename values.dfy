/** Parsed YAML/JSON values as the step compiler sees them: the workflow
    document has already been loaded into plain dictionaries, lists and
    scalars before a step reaches the compiler. */
module Values {

  datatype Value =
    | Null
    | Bool(b: bool)
    | Int(i: int)
    | Str(s: string)
    | List(items: seq<Value>)
    | Dict(fields: map<string, Value>)

  /** Python truthiness of a value: false, 0, "", [], {} and None are false. */
  predicate Truthy(v: Value)
  {
    match v
    case Null => false
    case Bool(b) => b
    case Int(i) => i != 0
    case Str(s) => s != ""
    case List(items) => items != []
    case Dict(fields) => fields != map[]
  }

  /** A dictionary with exactly one key (the shape of a branch step entry)
      has only that key. */
  lemma SoleKeyUnique(m: map<string, Value>)
    requires |m| == 1
    ensures forall a, b :: a in m && b in m ==> a == b
  {
    var k :| k in m;
    assert |m.Keys - {k}| == 0;
    assert m.Keys == {k};
  }

  /** The key of a one-key dictionary. */
  function SoleKey(m: map<string, Value>): (k: string)
    requires |m| == 1
    ensures k in m
    ensures forall k' :: k' in m ==> k' == k
  {
    SoleKeyUnique(m);
    var k :| k in m; k
  }
}

/**
 * The part of BSON the aggregate command looks at: an ordered list of named,
 * dynamically typed fields. Binary layout and memory ownership are not modelled.
 */
module Bson {
  import opened Results

  datatype Value =
    | Null
    | Undefined
    | Bool(b: bool)
    | Int(n: int)
    | Str(s: string)
    | Obj(fields: seq<(string, Value)>)
    | Arr(elems: seq<Value>)
    | Other(tag: string)   // a value of a type the codec never looks inside (dates, ids, ...)

  type Field = (string, Value)

  /** A BSON object: field order is kept and a name may occur more than once. */
  type Document = seq<Field>

  /** Some field of `d` is called `name`; this is what `if (cmdObj[name])` tests. */
  ghost predicate HasField(d: Document, name: string) {
    exists v :: (name, v) in d
  }

  /** `d[name]`: the value of the first field called `name`, if there is one. */
  function Lookup(d: Document, name: string): (r: Option<Value>)
    ensures r.Some? <==> HasField(d, name)
    ensures r.Some? ==> (name, r.value) in d
    ensures |d| > 0 && d[0].0 == name ==> r == Some(d[0].1)
  {
    if |d| == 0 then None
    else if d[0].0 == name then Some(d[0].1)
    else
      assert d == [d[0]] + d[1..];
      Lookup(d[1..], name)
  }

  /** The value of the last field called `name`: the one a sequence of setters leaves behind. */
  function LastOf(d: Document, name: string): (r: Option<Value>)
    ensures r.Some? <==> HasField(d, name)
    ensures r.Some? ==> (name, r.value) in d
  {
    if |d| == 0 then None
    else if d[|d| - 1].0 == name then Some(d[|d| - 1].1)
    else
      assert d == d[..|d| - 1] + [d[|d| - 1]];
      LastOf(d[..|d| - 1], name)
  }

  /** `d[name]` finds the first field called `name`. */
  lemma {:induction false} LookupFirst(d: Document, name: string, i: nat)
    requires i < |d| && d[i].0 == name
    requires forall j | 0 <= j < i :: d[j].0 != name
    ensures Lookup(d, name) == Some(d[i].1)
  {
    if i > 0 {
      assert d == [d[0]] + d[1..];
      LookupFirst(d[1..], name, i - 1);
    }
  }

  /** LastOf finds the last field called `name`. */
  lemma {:induction false} LastOfLast(d: Document, name: string, i: nat)
    requires i < |d| && d[i].0 == name
    requires forall j | i < j < |d| :: d[j].0 != name
    ensures LastOf(d, name) == Some(d[i].1)
    decreases |d|
  {
    if i < |d| - 1 {
      LastOfLast(d[..|d| - 1], name, i);
    }
  }

  /**
   * BSON's loose truthiness (`trueValue`): null, undefined, false and a zero
   * number are false; every other value is true.
   */
  function Truthy(v: Value): (r: bool)
    ensures !r <==> v == Null || v == Undefined || v == Bool(false) || v == Int(0)
  {
    match v
    case Null => false
    case Undefined => false
    case Bool(b) => b
    case Int(n) => n != 0
    case _ => true
  }
}

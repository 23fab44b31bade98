/**
  JavaScript values as the browser code sees them in tool records: the
  falsy / nullish tests behind `||`, `??` and `!!`, and `String(v)`.
*/
module Base {
  import opened Text

  datatype Option<T> = None | Some(value: T)

  /** A property value of a parsed record. Numbers are integers here and
      arrays are arrays of strings; any other object is `Obj`. */
  datatype JsVal = Undefined | Null | Bool(b: bool) | Num(n: int) | Str(s: string) | Arr(items: seq<string>) | Obj

  /** JavaScript truthiness (`!!v`). */
  predicate Truthy(v: JsVal)
  {
    match v
    case Undefined => false
    case Null => false
    case Bool(b) => b
    case Num(n) => n != 0
    case Str(s) => s != ""
    case Arr(_) => true
    case Obj => true
  }

  /** Python truthiness of a parsed JSON / YAML value (`if v:`, `v or x`).
      An object is taken as non-empty. */
  predicate PyTruthy(v: JsVal)
  {
    match v
    case Undefined => false
    case Null => false
    case Bool(b) => b
    case Num(n) => n != 0
    case Str(s) => s != ""
    case Arr(items) => items != []
    case Obj => true
  }

  predicate Nullish(v: JsVal)
  {
    v.Undefined? || v.Null?
  }

  /** `a || b` */
  function Or(a: JsVal, b: JsVal): (r: JsVal)
    ensures Truthy(a) ==> r == a
    ensures !Truthy(a) ==> r == b
  {
    if Truthy(a) then a else b
  }

  /** `a ?? b` */
  function Coalesce(a: JsVal, b: JsVal): (r: JsVal)
    ensures !Nullish(a) ==> r == a
    ensures Nullish(a) ==> r == b
  {
    if Nullish(a) then b else a
  }

  /** `String(v)`. */
  function ToStr(v: JsVal): string
  {
    match v
    case Undefined => "undefined"
    case Null => "null"
    case Bool(b) => if b then "true" else "false"
    case Num(n) => IntToString(n)
    case Str(s) => s
    case Arr(items) => Join(items, ',')
    case Obj => "[object Object]"
  }

  /** A parsed JSON / YAML record (a plain object). */
  type Record = map<string, JsVal>

  /** `r[k]`, `undefined` when absent. */
  function Get(r: Record, k: string): JsVal
  {
    if k in r then r[k] else Undefined
  }

  /** `String(v || '')`. */
  function StrOrEmpty(v: JsVal): (s: string)
    ensures !Truthy(v) ==> s == ""
  {
    if Truthy(v) then ToStr(v) else ""
  }

  /** `r[k] || []` for an array-valued property. */
  function ListOrEmpty(r: Record, k: string): seq<string>
  {
    match Get(r, k)
    case Arr(items) => items
    case _ => []
  }

  /** No element occurs twice. */
  ghost predicate Distinct<T>(s: seq<T>)
  {
    forall a, b :: 0 <= a < b < |s| ==> s[a] != s[b]
  }

  /** Appending an element not yet present keeps a sequence distinct. */
  lemma DistinctSnoc<T>(s: seq<T>, x: T)
    requires Distinct(s) && x !in s
    ensures Distinct(s + [x])
  {
    forall a, b | 0 <= a < b < |s + [x]|
      ensures (s + [x])[a] != (s + [x])[b]
    {
      assert (s + [x])[a] == s[a];
    }
  }

  /** The keys of a map listed in some order (`Object.keys`): each key
      exactly once and nothing else. */
  ghost predicate ListsKeys<V>(m: map<string, V>, order: seq<string>)
  {
    Distinct(order) && forall k :: k in m <==> k in order
  }

  /** A sequence without repeats has as many elements as its set. */
  lemma {:induction false} DistinctCount<T>(s: seq<T>)
    requires Distinct(s)
    ensures |set x | x in s| == |s|
  {
    if s != [] {
      var n := |s| - 1;
      var init := s[..n];
      DistinctCount(init);
      assert (set x | x in s) == (set x | x in init) + {s[n]};
      assert s[n] !in init;
    }
  }

  /** A listing of the keys is as long as the map. */
  lemma ListsKeysCount<V>(m: map<string, V>, order: seq<string>)
    requires ListsKeys(m, order)
    ensures |order| == |m|
  {
    DistinctCount(order);
    assert m.Keys == set x | x in order;
  }

  lemma TruthyStr(s: string)
    ensures Truthy(Str(s)) <==> s != ""
  {
  }
}

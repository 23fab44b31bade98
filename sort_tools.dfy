/**
  The tool sorter of the build scripts (utils/sort_tools.py): number the
  taxonomy nodes in pre-order, give every tool a key (category number with
  longest-prefix fallback, starred first, lower-cased name) and sort stably
  by it.
*/
module SortTools {
  import opened Base
  import opened Text
  import opened Sorting
  import opened Taxonomy
  import opened PreOrder

  /** Category number of a tool whose path matches no taxonomy node. */
  const Sentinel := 999999

  // ---------------------------------------------------------------------------
  // Category numbering
  // ---------------------------------------------------------------------------

  /** The `k`-th listed path numbered `c + k`; a path listed twice keeps the
      later number, as repeated dictionary assignment does. */
  function IndexMap(l: seq<Path>, c: int): map<Path, int>
  {
    if l == [] then map[] else IndexMap(l[..|l| - 1], c)[l[|l| - 1] := c + |l| - 1]
  }

  lemma {:induction false} IndexMapAppend(a: seq<Path>, b: seq<Path>, c: int)
    ensures IndexMap(a + b, c) == IndexMap(a, c) + IndexMap(b, c + |a|)
  {
    if b == [] {
      assert a + b == a;
    } else {
      IndexMapAppend(a, b[..|b| - 1], c);
      assert (a + b)[..|a + b| - 1] == a + b[..|b| - 1];
    }
  }

  lemma {:induction false} IndexMapRange(l: seq<Path>, c: int)
    ensures forall x :: x in IndexMap(l, c) ==> x in l && c <= IndexMap(l, c)[x] < c + |l|
  {
    if l != [] {
      IndexMapRange(l[..|l| - 1], c);
      assert forall x :: x in l[..|l| - 1] ==> x in l;
    }
  }

  lemma {:induction false} IndexMapDistinct(l: seq<Path>, c: int)
    requires Distinct(l)
    ensures forall k :: 0 <= k < |l| ==> l[k] in IndexMap(l, c) && IndexMap(l, c)[l[k]] == c + k
  {
    if l != [] {
      var init := l[..|l| - 1];
      IndexMapDistinct(init, c);
      forall k | 0 <= k < |l| - 1
        ensures l[k] != l[|l| - 1] && init[k] == l[k]
      {
      }
    }
  }

  /** `build_category_order`: the order map and the shared counter, filled by
      a recursive visit of the taxonomy. */
  class OrderBuilder {
    var orderMap: map<Path, int>
    var counter: int

    constructor ()
      ensures orderMap == map[] && counter == 0
    {
      orderMap := map[];
      counter := 0;
    }

    /** `visit(node, path)`: numbers every key of `es` and, for non-empty
        dictionary values, everything below it, in pre-order. */
    method Visit(es: seq<Entry>, path: Path)
      modifies this
      ensures counter == old(counter) + |Walk(es, path)|
      ensures orderMap == old(orderMap) + IndexMap(Walk(es, path), old(counter))
      decreases es
    {
      for i := 0 to |es|
        invariant counter == old(counter) + |Walk(es[..i], path)|
        invariant orderMap == old(orderMap) + IndexMap(Walk(es[..i], path), old(counter))
      {
        ghost var before := Walk(es[..i], path);
        ghost var m0 := orderMap;
        ghost var n := counter;
        VisitEntry(es[i], path);
        IndexMapStep(old(orderMap), before, path + [es[i].key], Below(es[i].value, path + [es[i].key]),
                     old(counter), m0, n);
        WalkStep(es, i, path);
      }
      assert es[..|es|] == es;
    }

    /** One iteration of `visit`: number the key, then visit a non-empty
        dictionary value below it. */
    method VisitEntry(e: Entry, path: Path)
      modifies this
      ensures counter == old(counter) + 1 + |Below(e.value, path + [e.key])|
      ensures orderMap == old(orderMap)[path + [e.key] := old(counter)]
                          + IndexMap(Below(e.value, path + [e.key]), old(counter) + 1)
      decreases e
    {
      var current := path + [e.key];
      var children := e.value;
      orderMap := orderMap[current := counter];
      counter := counter + 1;
      if children.Dict? && children.entries != [] {
        Visit(children.entries, current);
      } else {
        BelowLeaf(children, current);
        IndexMapEmpty(orderMap, counter);
      }
    }
  }

  lemma IndexMapStep(om: map<Path, int>, before: seq<Path>, cur: Path, below: seq<Path>, c: int,
                     m0: map<Path, int>, n: int)
    requires m0 == om + IndexMap(before, c) && n == c + |before|
    ensures m0[cur := n] + IndexMap(below, n + 1) == om + IndexMap(before + [cur] + below, c)
  {
    var a := IndexMap(before, c);
    var single := IndexMap([cur], n);
    var rest := IndexMap(below, n + 1);
    calc {
      (om + a)[cur := n] + rest;
    == { UpdateIsMerge(om + a, cur, n); IndexMapSingle(cur, n); }
      ((om + a) + single) + rest;
    == { MergeAssoc(om, a, single); }
      (om + (a + single)) + rest;
    == { MergeAssoc(om, a + single, rest); }
      om + ((a + single) + rest);
    == { IndexMapAppend(before, [cur], c); }
      om + (IndexMap(before + [cur], c) + rest);
    == { IndexMapAppend(before + [cur], below, c); }
      om + IndexMap(before + [cur] + below, c);
    }
  }

  lemma BelowLeaf(v: Node, path: Path)
    requires !(v.Dict? && v.entries != [])
    ensures Below(v, path) == []
  {
  }

  lemma IndexMapEmpty(m: map<Path, int>, c: int)
    ensures m + IndexMap([], c) == m
  {
  }

  lemma IndexMapSingle(p: Path, n: int)
    ensures IndexMap([p], n) == map[p := n]
  {
    assert [p][..|[p]| - 1] == [];
  }

  lemma UpdateIsMerge<K, V>(m: map<K, V>, k: K, v: V)
    ensures m[k := v] == m + map[k := v]
  {
  }

  lemma MergeAssoc<K, V>(a: map<K, V>, b: map<K, V>, c: map<K, V>)
    ensures (a + b) + c == a + (b + c)
  {
  }

  lemma {:induction false} WalkAppend(a: seq<Entry>, b: seq<Entry>, path: Path)
    ensures Walk(a + b, path) == Walk(a, path) + Walk(b, path)
  {
    if a != [] {
      WalkAppend(a[1..], b, path);
      assert (a + b)[1..] == a[1..] + b;
    } else {
      assert a + b == b;
    }
  }

  lemma WalkStep(es: seq<Entry>, i: int, path: Path)
    requires 0 <= i < |es|
    ensures Walk(es[..i + 1], path) == Walk(es[..i], path) + [path + [es[i].key]] + Below(es[i].value, path + [es[i].key])
  {
    assert es[..i + 1] == es[..i] + [es[i]];
    WalkAppend(es[..i], [es[i]], path);
  }

  /** `build_category_order(taxonomy)`. */
  method BuildCategoryOrder(taxonomy: Node) returns (orderMap: map<Path, int>)
    requires taxonomy.Dict?
    ensures orderMap == IndexMap(Nodes(taxonomy), 0)
  {
    var b := new OrderBuilder();
    b.Visit(taxonomy.entries, []);
    orderMap := b.orderMap;
  }

  lemma IndexMapInverse(l: seq<Path>, c: int)
    requires Distinct(l)
    ensures forall p :: p in IndexMap(l, c) ==> 0 <= IndexMap(l, c)[p] - c < |l| && l[IndexMap(l, c)[p] - c] == p
  {
    forall p | p in IndexMap(l, c)
      ensures 0 <= IndexMap(l, c)[p] - c < |l| && l[IndexMap(l, c)[p] - c] == p
    {
      IndexMapInverseAt(l, c, p);
    }
  }

  lemma IndexMapInverseAt(l: seq<Path>, c: int, p: Path)
    requires Distinct(l) && p in IndexMap(l, c)
    ensures 0 <= IndexMap(l, c)[p] - c < |l| && l[IndexMap(l, c)[p] - c] == p
  {
    var m := IndexMap(l, c);
    assert p in l by {
      IndexMapRange(l, c);
    }
    var k :| 0 <= k < |l| && l[k] == p;
    assert m[p] == c + k by {
      IndexMapDistinct(l, c);
    }
  }

  /** The numbered paths are exactly the taxonomy's nodes. */
  lemma CategoryOrderDomain(taxonomy: Node)
    requires WellFormed(taxonomy)
    ensures forall p :: p in IndexMap(Nodes(taxonomy), 0) <==> HasPath(taxonomy, p)
  {
    IndexMapRange(Nodes(taxonomy), 0);
    NodesShape(taxonomy);
    IndexMapDistinct(Nodes(taxonomy), 0);
    forall p
      ensures p in IndexMap(Nodes(taxonomy), 0) <==> HasPath(taxonomy, p)
    {
      NodesHasPath(taxonomy, p);
      if p in Nodes(taxonomy) {
        var k :| 0 <= k < |Nodes(taxonomy)| && Nodes(taxonomy)[k] == p;
      }
    }
  }

  /** The k-th node of the pre-order gets number k, so the numbers are
      exactly 0 .. N-1 for N nodes and no two nodes share one. */
  lemma CategoryOrderNumbering(taxonomy: Node)
    requires WellFormed(taxonomy)
    ensures var m := IndexMap(Nodes(taxonomy), 0);
            var l := Nodes(taxonomy);
            (forall p :: p in m ==> 0 <= m[p] < |l|) &&
            (forall k :: 0 <= k < |l| ==> l[k] in m && m[l[k]] == k) &&
            (forall p, q :: p in m && q in m && p != q ==> m[p] != m[q])
  {
    NodesShape(taxonomy);
    IndexMapDistinct(Nodes(taxonomy), 0);
    IndexMapInverse(Nodes(taxonomy), 0);
  }

  /** A node's number is below its descendants' numbers, and a node's
      subtree is numbered as one block: anything numbered between a node and
      one of its descendants is a descendant of that node too. */
  lemma CategoryOrderPreOrder(taxonomy: Node)
    requires WellFormed(taxonomy)
    ensures var m := IndexMap(Nodes(taxonomy), 0);
            (forall p, q :: p in m && q in m && p < q ==> m[p] < m[q]) &&
            (forall p, q, r :: p in m && q in m && r in m && m[p] < m[q] < m[r] && p <= r ==> p <= q)
  {
    NodesShape(taxonomy);
    NumberedAncestorsFirst(Nodes(taxonomy));
    NumberedContiguous(Nodes(taxonomy));
  }

  lemma NumberedAncestorsFirst(l: seq<Path>)
    requires Distinct(l) && AncestorsFirst(l)
    ensures var m := IndexMap(l, 0);
            forall p, q :: p in m && q in m && p < q ==> m[p] < m[q]
  {
    var m := IndexMap(l, 0);
    IndexMapInverse(l, 0);
    forall p, q | p in m && q in m && p < q
      ensures m[p] < m[q]
    {
      assert l[m[p]] == p && l[m[q]] == q;
    }
  }

  lemma NumberedContiguous(l: seq<Path>)
    requires Distinct(l) && Contiguous(l)
    ensures var m := IndexMap(l, 0);
            forall p, q, r :: p in m && q in m && r in m && m[p] < m[q] < m[r] && p <= r ==> p <= q
  {
    var m := IndexMap(l, 0);
    IndexMapInverse(l, 0);
    forall p, q, r | p in m && q in m && r in m && m[p] < m[q] < m[r] && p <= r
      ensures p <= q
    {
      assert l[m[p]] == p && l[m[q]] == q && l[m[r]] == r;
    }
  }

  // ---------------------------------------------------------------------------
  // Sort key
  // ---------------------------------------------------------------------------

  datatype SortKey = SortKey(index: int, notBest: int, name: string)

  /** Whether `get_sort_key` raises on a tool: `tuple(...)` of a truthy
      number or boolean, or `.lower()` of a truthy name that is not a
      string. A dictionary `category_path` does not raise (`tuple` takes its
      keys), and neither does a list or a string. */
  predicate KeyRaises(t: Record)
  {
    var cp := Get(t, "category_path");
    var name := Get(t, "name");
    (PyTruthy(cp) && (cp.Num? || cp.Bool?)) || (PyTruthy(name) && !name.Str?)
  }

  /** `tuple(tool.get("category_path") or [])`; a string is a tuple of its
      characters. A non-empty dictionary (`Obj`, whose keys the model does
      not hold) counts as no path, and a truthy number or boolean, on which
      `tuple` raises, is excluded by `KeyRaises`. */
  function PathTuple(v: JsVal): (p: Path)
    ensures v.Arr? ==> p == v.items
    ensures !PyTruthy(v) ==> p == []
  {
    match v
    case Arr(items) => items
    case Str(s) => seq(|s|, i requires 0 <= i < |s| => [s[i]])
    case _ => []
  }

  /** The lookups of `get_sort_key` for prefixes of length `len` down to 1. */
  function PrefixIndex(m: map<Path, int>, p: Path, len: nat): int
    requires len <= |p|
  {
    if len == 0 then Sentinel
    else if p[..len] in m then m[p[..len]]
    else PrefixIndex(m, p, len - 1)
  }

  /** The category number of a path: the full path first, then its longest
      proper non-empty prefix in the map, then the sentinel. */
  function CategoryIndex(m: map<Path, int>, p: Path): int
  {
    if p in m then m[p] else PrefixIndex(m, p, if |p| == 0 then 0 else |p| - 1)
  }

  lemma {:induction false} PrefixIndexLongest(m: map<Path, int>, p: Path, len: nat)
    requires len <= |p|
    ensures (exists l :: 1 <= l <= len && p[..l] in m) ==>
              exists l :: 1 <= l <= len && p[..l] in m && PrefixIndex(m, p, len) == m[p[..l]] &&
                          forall l' :: l < l' <= len ==> p[..l'] !in m
    ensures (forall l :: 1 <= l <= len ==> p[..l] !in m) ==> PrefixIndex(m, p, len) == Sentinel
  {
    if len > 0 && p[..len] !in m {
      PrefixIndexLongest(m, p, len - 1);
      assert PrefixIndex(m, p, len) == PrefixIndex(m, p, len - 1);
      if exists l :: 1 <= l <= len && p[..l] in m {
        var l :| 1 <= l <= len && p[..l] in m;
        assert 1 <= l <= len - 1;
        var k :| 1 <= k <= len - 1 && p[..k] in m && PrefixIndex(m, p, len - 1) == m[p[..k]] &&
                 forall l' :: k < l' <= len - 1 ==> p[..l'] !in m;
        assert forall l' :: k < l' <= len ==> p[..l'] !in m;
      }
    }
  }

  /** `get_sort_key`'s category number: the full path's number; failing that
      the number of the longest proper non-empty prefix that is a node;
      failing that (also for an empty path) 999999. */
  lemma CategoryIndexSpec(m: map<Path, int>, p: Path)
    ensures p in m ==> CategoryIndex(m, p) == m[p]
    ensures p !in m && (exists l :: 1 <= l < |p| && p[..l] in m) ==>
              exists l :: 1 <= l < |p| && p[..l] in m && CategoryIndex(m, p) == m[p[..l]] &&
                          forall l' :: l < l' < |p| ==> p[..l'] !in m
    ensures p !in m && (forall l :: 1 <= l < |p| ==> p[..l] !in m) ==> CategoryIndex(m, p) == Sentinel
  {
    PrefixIndexLongest(m, p, if |p| == 0 then 0 else |p| - 1);
  }

  /** `(tool.get("name") or "").lower()` */
  function NameKey(v: JsVal): (s: string)
    ensures v.Str? ==> s == Lower(v.s)
    ensures !PyTruthy(v) ==> s == ""
  {
    if v.Str? then Lower(v.s) else ""
  }

  /** The sort key of a tool, as `get_sort_key` computes it. */
  function KeyOf(t: Record, m: map<Path, int>): SortKey
  {
    SortKey(CategoryIndex(m, PathTuple(Get(t, "category_path"))),
            if PyTruthy(Get(t, "best_in")) then 0 else 1,
            NameKey(Get(t, "name")))
  }

  /** `get_sort_key(tool, order_map)`: `None` when it raises. */
  method GetSortKey(tool: Record, orderMap: map<Path, int>) returns (key: Option<SortKey>)
    ensures key.None? <==> KeyRaises(tool)
    ensures key.Some? ==> key.value == KeyOf(tool, orderMap)
    ensures key.Some? ==> (key.value.notBest == 0 <==> PyTruthy(Get(tool, "best_in")))
    ensures key.Some? ==> key.value.notBest == 0 || key.value.notBest == 1
  {
    if KeyRaises(tool) {
      return None;
    }
    var pathTuple := PathTuple(Get(tool, "category_path"));
    var idx: Option<int> := if pathTuple in orderMap then Some(orderMap[pathTuple]) else None;
    if idx.None? {
      var start := if |pathTuple| == 0 then 0 else |pathTuple| - 1;
      var length := start;
      while length > 0
        invariant 0 <= length <= start
        invariant idx.None?
        invariant PrefixIndex(orderMap, pathTuple, start) == PrefixIndex(orderMap, pathTuple, length)
      {
        if pathTuple[..length] in orderMap {
          idx := Some(orderMap[pathTuple[..length]]);
          break;
        }
        length := length - 1;
      }
      if idx.None? {
        idx := Some(Sentinel);
      }
    }
    var notBest := if PyTruthy(Get(tool, "best_in")) then 0 else 1;
    var name := NameKey(Get(tool, "name"));
    key := Some(SortKey(idx.value, notBest, name));
  }

  /** Tuple comparison of sort keys. */
  predicate KeyLe(a: SortKey, b: SortKey)
  {
    a.index < b.index ||
    (a.index == b.index && (a.notBest < b.notBest || (a.notBest == b.notBest && StrLe(a.name, b.name))))
  }

  lemma KeyLeTotalPreorder(m: map<Path, int>)
    ensures TotalPreorder((a: Record, b: Record) => KeyLe(KeyOf(a, m), KeyOf(b, m)))
  {
    forall a: SortKey, b: SortKey
      ensures KeyLe(a, b) || KeyLe(b, a)
    {
      StrLeTotal(a.name, b.name);
    }
    forall a: SortKey, b: SortKey, c: SortKey | KeyLe(a, b) && KeyLe(b, c)
      ensures KeyLe(a, c)
    {
      if a.index == b.index == c.index && a.notBest == b.notBest == c.notBest {
        StrLeTrans(a.name, b.name, c.name);
      }
    }
  }

  function ToolOrder(m: map<Path, int>): (Record, Record) -> bool
  {
    (a: Record, b: Record) => KeyLe(KeyOf(a, m), KeyOf(b, m))
  }

  /** `sort_tools(tools, order_map)`: `sorted` by the key. */
  function SortTools(tools: seq<Record>, m: map<Path, int>): seq<Record>
  {
    StableSort(tools, ToolOrder(m))
  }

  /** The result is a permutation of the input, non-decreasing by key, with
      tools of equal key in input order. */
  lemma SortToolsCorrect(tools: seq<Record>, m: map<Path, int>)
    ensures var r := SortTools(tools, m);
            var p := SortIndices(tools, ToolOrder(m));
            |r| == |tools| && multiset(r) == multiset(tools) &&
            IsPermutation(p, |tools|) &&
            (forall k :: 0 <= k < |r| ==> r[k] == tools[p[k]]) &&
            (forall x, y :: 0 <= x < y < |r| ==> KeyLe(KeyOf(r[x], m), KeyOf(r[y], m))) &&
            (forall x, y :: 0 <= x < y < |r| && KeyOf(r[x], m) == KeyOf(r[y], m) ==> p[x] < p[y])
  {
    KeyLeTotalPreorder(m);
    StableSortCorrect(tools, ToolOrder(m));
    var p := SortIndices(tools, ToolOrder(m));
    forall x, y | 0 <= x < y < |tools| && KeyOf(tools[p[x]], m) == KeyOf(tools[p[y]], m)
      ensures p[x] < p[y]
    {
      assert Before(tools, ToolOrder(m), p[x], p[y]);
      assert KeyLe(KeyOf(tools[p[y]], m), KeyOf(tools[p[x]], m)) by {
        StrLeTotal(KeyOf(tools[p[y]], m).name, KeyOf(tools[p[x]], m).name);
      }
    }
  }

  /** A tool matched some taxonomy node (its number is not the sentinel). */
  predicate Matched(t: Record, m: map<Path, int>)
  {
    CategoryIndex(m, PathTuple(Get(t, "category_path"))) != Sentinel
  }

  lemma {:induction false} PrefixIndexBelow(m: map<Path, int>, p: Path, len: nat)
    requires len <= |p|
    requires forall q :: q in m ==> m[q] < Sentinel
    ensures PrefixIndex(m, p, len) <= Sentinel
  {
    if len > 0 {
      PrefixIndexBelow(m, p, len - 1);
    }
  }

  /** When every number is below the sentinel (fewer than 999999 nodes),
      every tool with no matching node sorts after every tool that has one. */
  lemma UnmatchedLast(tools: seq<Record>, taxonomy: Node)
    requires WellFormed(taxonomy)
    requires |Nodes(taxonomy)| < Sentinel
    ensures var m := IndexMap(Nodes(taxonomy), 0);
            var r := SortTools(tools, m);
            forall x, y :: 0 <= x < y < |r| && Matched(r[y], m) ==> Matched(r[x], m)
  {
    var m := IndexMap(Nodes(taxonomy), 0);
    var r := SortTools(tools, m);
    IndexMapRange(Nodes(taxonomy), 0);
    SortToolsCorrect(tools, m);
    forall t: Record
      ensures CategoryIndex(m, PathTuple(Get(t, "category_path"))) <= Sentinel
    {
      var p := PathTuple(Get(t, "category_path"));
      PrefixIndexBelow(m, p, if |p| == 0 then 0 else |p| - 1);
    }
  }

  // ---------------------------------------------------------------------------
  // The input checks of `main`
  // ---------------------------------------------------------------------------

  /** The parsed tools file: a list of records or something else. */
  datatype ToolsFile = NotAList | ToolList(tools: seq<Record>)

  /** `Crashed`: `sorted` computes every key first, so one tool on which
      `get_sort_key` raises ends `main` with an uncaught exception and
      nothing is written. */
  datatype Outcome = Aborted | WroteEmptyList | Crashed | WroteSorted(sorted: seq<Record>)

  /** What `main` writes once both files are read and parsed. The tool
      checks only print warnings. */
  method RunSort(toolsFile: ToolsFile, taxonomy: Node) returns (out: Outcome)
    ensures toolsFile.NotAList? ==> out == Aborted
    ensures toolsFile.ToolList? && toolsFile.tools == [] ==> out == WroteEmptyList
    ensures toolsFile.ToolList? && toolsFile.tools != [] && (!taxonomy.Dict? || taxonomy.entries == []) ==> out == Aborted
    ensures (&& toolsFile.ToolList? && toolsFile.tools != [] && taxonomy.Dict? && taxonomy.entries != []
             && exists t :: t in toolsFile.tools && KeyRaises(t))
            ==> out == Crashed
    ensures (&& toolsFile.ToolList? && toolsFile.tools != [] && taxonomy.Dict? && taxonomy.entries != []
             && forall t :: t in toolsFile.tools ==> !KeyRaises(t))
            ==> out == WroteSorted(SortTools(toolsFile.tools, IndexMap(Nodes(taxonomy), 0)))
  {
    if toolsFile.NotAList? {
      return Aborted;
    }
    if |toolsFile.tools| == 0 {
      return WroteEmptyList;
    }
    if !taxonomy.Dict? || taxonomy.entries == [] {
      return Aborted;
    }
    var orderMap := BuildCategoryOrder(taxonomy);
    if exists t :: t in toolsFile.tools && KeyRaises(t) {
      return Crashed;
    }
    out := WroteSorted(SortTools(toolsFile.tools, orderMap));
  }
}

/**
  The client-side indices built from the tool registry (`buildIndices`):
  tools by normalised id, the category nodes keyed by their '>'-joined path
  with parent-to-child links, the ids of the tools at each leaf, and for
  every key the ids of all tools at or below it. Also the fallback used when
  the registry is not an array.
*/
module Registry {
  import opened Text
  import opened Base
  import opened Helpers

  /** An entry of `nodeIndex`: the ids pushed at this node and its children
      keys, in first-insertion order (the `Set` turned into an array). */
  datatype NodeEntry = NodeEntry(tools: seq<string>, children: seq<string>)

  datatype Indices = Indices(
    rootName: string,
    toolsById: map<string, Record>,
    nodeIndex: map<string, NodeEntry>,
    allToolsUnder: map<string, set<string>>,
    allPathKeys: seq<string>)

  /** `normalizeId(tool.id || tool.name || tool.title)`. */
  function ToolId(t: Record): string
  {
    NormalizeId(Or(Get(t, "id"), Or(Get(t, "name"), Get(t, "title"))))
  }

  /** `[rootName, ...categoryPath]`. */
  function PathSegments(t: Record): (segs: seq<string>)
    ensures |segs| >= 1 && segs[0] == RootName
    ensures segs[1..] == GetCategoryPath(t)
  {
    [RootName] + GetCategoryPath(t)
  }

  /** The key of the first `n` segments. */
  function PrefixKey(segs: seq<string>, n: nat): string
    requires n <= |segs|
  {
    CreatePathKey(segs[..n])
  }

  function LeafKey(t: Record): (key: string)
    ensures key == PrefixKey(PathSegments(t), |PathSegments(t)|)
  {
    assert PathSegments(t)[..|PathSegments(t)|] == PathSegments(t);
    CreatePathKey(PathSegments(t))
  }

  /** `{...tool, id, phase, phaseColor, path}`. */
  function Enrich(t: Record, id: string): (e: Record)
    ensures e.Keys == t.Keys + {"id", "phase", "phaseColor", "path"}
    ensures forall k :: k in t && k !in {"id", "phase", "phaseColor", "path"} ==> e[k] == t[k]
    ensures e["id"] == Str(id) && e["path"] == Arr(PathSegments(t))
    ensures e["phase"] == Str(GetPrimaryPhase(t))
    ensures e["phaseColor"] == if GetPrimaryPhase(t) == "" then Null else Str(GetPhaseColor(GetPrimaryPhase(t)))
  {
    var phase := GetPrimaryPhase(t);
    var color := if phase != "" then Str(GetPhaseColor(phase)) else Null;
    t["id" := Str(id)]["phase" := Str(phase)]["phaseColor" := color]["path" := Arr(PathSegments(t))]
  }

  // ---------------------------------------------------------------------------
  // Facts about the node index
  // ---------------------------------------------------------------------------

  /** The first `m` prefixes of `segs` are nodes, each linked from its
      parent. */
  ghost predicate Linked(ni: map<string, NodeEntry>, segs: seq<string>, m: nat)
    requires m <= |segs|
  {
    forall n :: 1 <= n <= m ==>
      PrefixKey(segs, n) in ni &&
      (n >= 2 ==> PrefixKey(segs, n - 1) in ni && PrefixKey(segs, n) in ni[PrefixKey(segs, n - 1)].children)
  }

  /** `b` keeps every node, child and leaf id of `a`. */
  ghost predicate Grows(a: map<string, NodeEntry>, b: map<string, NodeEntry>)
  {
    forall k :: k in a ==>
      k in b &&
      (forall c :: c in a[k].children ==> c in b[k].children) &&
      (forall x :: x in a[k].tools ==> x in b[k].tools)
  }

  ghost predicate ChildrenDistinct(ni: map<string, NodeEntry>)
  {
    forall k :: k in ni ==> Distinct(ni[k].children)
  }

  /** `keys` lists the nodes of `ni`, each once. */
  ghost predicate KeysList(ni: map<string, NodeEntry>, keys: seq<string>)
  {
    (forall k :: k in ni <==> k in keys) && Distinct(keys)
  }

  lemma LinkedGrows(a: map<string, NodeEntry>, b: map<string, NodeEntry>, segs: seq<string>, m: nat)
    requires m <= |segs|
    requires Linked(a, segs, m) && Grows(a, b)
    ensures Linked(b, segs, m)
  {
  }

  lemma LinkedExtend(ni: map<string, NodeEntry>, segs: seq<string>, n: nat)
    requires 1 <= n <= |segs|
    requires Linked(ni, segs, n - 1)
    requires PrefixKey(segs, n) in ni
    requires n > 1 ==> PrefixKey(segs, n - 1) in ni && PrefixKey(segs, n) in ni[PrefixKey(segs, n - 1)].children
    ensures Linked(ni, segs, n)
  {
  }

  lemma GrowsTrans(a: map<string, NodeEntry>, b: map<string, NodeEntry>, c: map<string, NodeEntry>)
    requires Grows(a, b) && Grows(b, c)
    ensures Grows(a, c)
  {
  }

  // ---------------------------------------------------------------------------
  // The loop over the prefixes of one tool's path
  // ---------------------------------------------------------------------------

  /** One pass of the inner loop of `buildIndices` for the prefix of length
      `n`: the key becomes a node (created empty when missing) and is added to
      the key list and to its parent's children. */
  method RegisterKey(ni0: map<string, NodeEntry>, keys0: seq<string>, segs: seq<string>, n: nat)
    returns (ni: map<string, NodeEntry>, keys: seq<string>)
    requires 1 <= n <= |segs|
    requires n > 1 ==> PrefixKey(segs, n - 1) in ni0
    requires KeysList(ni0, keys0) && ChildrenDistinct(ni0)
    ensures KeysList(ni, keys) && ChildrenDistinct(ni)
    ensures keys0 <= keys
    ensures Grows(ni0, ni)
    ensures PrefixKey(segs, n) in ni
    ensures n > 1 ==> PrefixKey(segs, n) in ni[PrefixKey(segs, n - 1)].children
    ensures forall k :: k in ni ==> k in ni0 || k == PrefixKey(segs, n)
    ensures forall k :: k in ni ==> forall c :: c in ni[k].children ==>
              (k in ni0 && c in ni0[k].children) || (n > 1 && k == PrefixKey(segs, n - 1) && c == PrefixKey(segs, n))
    ensures forall k :: k in ni ==> ni[k].tools == if k in ni0 then ni0[k].tools else []
  {
    var key := PrefixKey(segs, n);
    ni, keys := ni0, keys0;
    if key !in ni {
      ni := ni[key := NodeEntry([], [])];
    }
    if key !in keys {
      keys := keys + [key];
    }
    assert NodeAdded(ni0, keys0, ni, keys, key);
    if n > 1 {
      var parentKey := PrefixKey(segs, n - 1);
      ghost var mid := ni;
      var e := ni[parentKey];
      if key !in e.children {
        ni := ni[parentKey := e.(children := e.children + [key])];
      }
      LinkAdded(ni0, keys0, mid, keys, key, parentKey, ni);
    }
  }

  /** `ni`, `keys` are `ni0`, `keys0` with `key` registered as a node
      (created empty when missing) and listed once. */
  ghost predicate NodeAdded(ni0: map<string, NodeEntry>, keys0: seq<string>, ni: map<string, NodeEntry>, keys: seq<string>, key: string)
  {
    KeysList(ni, keys) && ChildrenDistinct(ni) && keys0 <= keys && key in ni &&
    (forall k :: k in ni ==> k in ni0 || k == key) &&
    (forall k :: k in ni0 ==> k in ni && ni[k] == ni0[k]) &&
    (forall k :: k in ni && k !in ni0 ==> ni[k] == NodeEntry([], []))
  }

  lemma LinkAdded(ni0: map<string, NodeEntry>, keys0: seq<string>, mid: map<string, NodeEntry>, keys: seq<string>, key: string,
                  parentKey: string, ni: map<string, NodeEntry>)
    requires NodeAdded(ni0, keys0, mid, keys, key) && parentKey in ni0
    requires ni == if key in mid[parentKey].children then mid
                   else mid[parentKey := mid[parentKey].(children := mid[parentKey].children + [key])]
    ensures KeysList(ni, keys) && ChildrenDistinct(ni)
    ensures Grows(ni0, ni) && key in ni && key in ni[parentKey].children
    ensures forall k :: k in ni ==> k in ni0 || k == key
    ensures forall k :: k in ni ==> forall c :: c in ni[k].children ==>
              (k in ni0 && c in ni0[k].children) || (k == parentKey && c == key)
    ensures forall k :: k in ni ==> ni[k].tools == if k in ni0 then ni0[k].tools else []
  {
    if key !in mid[parentKey].children {
      DistinctSnoc(mid[parentKey].children, key);
    }
    forall k | k in ni0
      ensures k in ni && ni[k].tools == ni0[k].tools && ni0[k].children <= ni[k].children
    {
      assert mid[k] == ni0[k];
    }
    forall k, c | k in ni && c in ni[k].children
      ensures (k in ni0 && c in ni0[k].children) || (k == parentKey && c == key)
    {
      if k != parentKey {
        assert ni[k] == mid[k];
      }
    }
  }

  /** Every node of `ni` is a node of `ni0` or one of the first `m` prefixes
      of `segs`. */
  ghost predicate NodesFrom(ni: map<string, NodeEntry>, ni0: map<string, NodeEntry>, segs: seq<string>, m: nat)
    requires m <= |segs|
  {
    forall k :: k in ni ==> k in ni0 || exists n :: 1 <= n <= m && k == PrefixKey(segs, n)
  }

  /** Every parent-child link of `ni` is one of `ni0` or joins two of the
      first `m` prefixes of `segs`. */
  ghost predicate ChildrenFrom(ni: map<string, NodeEntry>, ni0: map<string, NodeEntry>, segs: seq<string>, m: nat)
    requires m <= |segs|
  {
    forall k :: k in ni ==> forall c :: c in ni[k].children ==>
      (k in ni0 && c in ni0[k].children) ||
      exists n :: 2 <= n <= m && k == PrefixKey(segs, n - 1) && c == PrefixKey(segs, n)
  }

  /** The leaf ids of `ni` are those of `ni0`; new nodes have none. */
  ghost predicate SameTools(ni: map<string, NodeEntry>, ni0: map<string, NodeEntry>)
  {
    forall k :: k in ni ==> ni[k].tools == if k in ni0 then ni0[k].tools else []
  }

  lemma RegisterKeyStep(ni0: map<string, NodeEntry>, a: map<string, NodeEntry>, b: map<string, NodeEntry>, segs: seq<string>, n: nat)
    requires 1 <= n <= |segs|
    requires NodesFrom(a, ni0, segs, n - 1) && ChildrenFrom(a, ni0, segs, n - 1) && SameTools(a, ni0)
    requires forall k :: k in b ==> k in a || k == PrefixKey(segs, n)
    requires forall k :: k in b ==> forall c :: c in b[k].children ==>
               (k in a && c in a[k].children) || (n > 1 && k == PrefixKey(segs, n - 1) && c == PrefixKey(segs, n))
    requires forall k :: k in b ==> b[k].tools == if k in a then a[k].tools else []
    requires Grows(ni0, a)
    ensures NodesFrom(b, ni0, segs, n) && ChildrenFrom(b, ni0, segs, n) && SameTools(b, ni0)
  {
    forall k | k in b
      ensures k in ni0 || exists m :: 1 <= m <= n && k == PrefixKey(segs, m)
    {
      if k !in a {
        assert k == PrefixKey(segs, n);
      }
    }
    forall k, c | k in b && c in b[k].children
      ensures (k in ni0 && c in ni0[k].children) || exists m :: 2 <= m <= n && k == PrefixKey(segs, m - 1) && c == PrefixKey(segs, m)
    {
      if !(n > 1 && k == PrefixKey(segs, n - 1) && c == PrefixKey(segs, n)) {
        assert k in a && c in a[k].children;
      }
    }
  }

  /** The inner loop of `buildIndices`: every prefix key of `segs`, shortest
      first, goes through `RegisterKey`. */
  method RegisterPath(ni0: map<string, NodeEntry>, keys0: seq<string>, segs: seq<string>)
    returns (ni: map<string, NodeEntry>, keys: seq<string>)
    requires |segs| >= 1
    requires KeysList(ni0, keys0) && ChildrenDistinct(ni0)
    ensures KeysList(ni, keys) && ChildrenDistinct(ni)
    ensures keys0 <= keys
    ensures Grows(ni0, ni)
    ensures Linked(ni, segs, |segs|)
    ensures NodesFrom(ni, ni0, segs, |segs|) && ChildrenFrom(ni, ni0, segs, |segs|) && SameTools(ni, ni0)
  {
    ni, keys := ni0, keys0;
    for n := 1 to |segs| + 1
      invariant KeysList(ni, keys) && ChildrenDistinct(ni)
      invariant keys0 <= keys
      invariant Grows(ni0, ni)
      invariant Linked(ni, segs, n - 1)
      invariant NodesFrom(ni, ni0, segs, n - 1) && ChildrenFrom(ni, ni0, segs, n - 1) && SameTools(ni, ni0)
    {
      ghost var before := ni;
      ni, keys := RegisterKey(ni, keys, segs, n);
      GrowsTrans(ni0, before, ni);
      LinkedGrows(before, ni, segs, n - 1);
      LinkedExtend(ni, segs, n);
      RegisterKeyStep(ni0, before, ni, segs, n);
    }
  }

  // ---------------------------------------------------------------------------
  // The loop over the tools
  // ---------------------------------------------------------------------------

  /** The parts of a tool the first loop reads: its normalised id, its
      segments `[rootName, ...categoryPath]` and its enriched record. Kept as
      parameters so that the loop's proof does not look inside them. */
  datatype View = View(idOf: Record -> string, segsOf: Record -> seq<string>, enrich: (Record, string) -> Record)

  ghost predicate ValidView(v: View)
  {
    forall t :: |v.segsOf(t)| >= 1
  }

  function KeyOfLeaf(segs: seq<string>): (key: string)
    requires |segs| >= 1
    ensures key == PrefixKey(segs, |segs|)
  {
    assert segs[..|segs|] == segs;
    CreatePathKey(segs)
  }

  /** A key of tool `t`: some prefix of its path, when the tool is kept. */
  ghost predicate IsKeyOf(v: View, t: Record, k: string)
  {
    v.idOf(t) != "" && exists n :: 1 <= n <= |v.segsOf(t)| && k == PrefixKey(v.segsOf(t), n)
  }

  /** `c` follows `k` on the path of tool `t`, when the tool is kept. */
  ghost predicate IsChildOf(v: View, t: Record, k: string, c: string)
  {
    v.idOf(t) != "" &&
    exists n :: 2 <= n <= |v.segsOf(t)| && k == PrefixKey(v.segsOf(t), n - 1) && c == PrefixKey(v.segsOf(t), n)
  }

  /** Every kept tool among the first `i` has all its prefixes as linked
      nodes and its id among the ids of its leaf. */
  ghost predicate ToolsIndexed(v: View, tools: seq<Record>, i: nat, ni: map<string, NodeEntry>)
    requires ValidView(v) && i <= |tools|
  {
    forall j :: 0 <= j < i && v.idOf(tools[j]) != "" ==>
      Linked(ni, v.segsOf(tools[j]), |v.segsOf(tools[j])|) &&
      KeyOfLeaf(v.segsOf(tools[j])) in ni && v.idOf(tools[j]) in ni[KeyOfLeaf(v.segsOf(tools[j]))].tools
  }

  /** Every node, link and leaf id comes from one of the first `i` tools. */
  ghost predicate NoJunk(v: View, tools: seq<Record>, i: nat, ni: map<string, NodeEntry>)
    requires ValidView(v) && i <= |tools|
  {
    NodesKnown(v, tools, i, ni) && LinksKnown(v, tools, i, ni) && LeavesKnown(v, tools, i, ni)
  }

  ghost predicate NodesKnown(v: View, tools: seq<Record>, i: nat, ni: map<string, NodeEntry>)
    requires i <= |tools|
  {
    forall k :: k in ni ==> k == RootName || exists j :: 0 <= j < i && IsKeyOf(v, tools[j], k)
  }

  ghost predicate LinksKnown(v: View, tools: seq<Record>, i: nat, ni: map<string, NodeEntry>)
    requires i <= |tools|
  {
    forall k :: k in ni ==> forall c :: c in ni[k].children ==> exists j :: 0 <= j < i && IsChildOf(v, tools[j], k, c)
  }

  ghost predicate LeavesKnown(v: View, tools: seq<Record>, i: nat, ni: map<string, NodeEntry>)
    requires ValidView(v) && i <= |tools|
  {
    forall k :: k in ni ==> forall x :: x in ni[k].tools ==>
      exists j :: 0 <= j < i && v.idOf(tools[j]) != "" && v.idOf(tools[j]) == x && KeyOfLeaf(v.segsOf(tools[j])) == k
  }

  /** No tool after `j` and before `i` has the id of tool `j`. */
  ghost predicate LastOf(v: View, tools: seq<Record>, i: nat, j: nat)
    requires j < i <= |tools|
  {
    forall l :: j < l < i ==> v.idOf(tools[l]) != v.idOf(tools[j])
  }

  /** `toolsById` and the leaf key of every id: the ids are those of the kept
      tools among the first `i`, and each holds the last tool with that id. */
  ghost predicate ById(v: View, tools: seq<Record>, i: nat, byId: map<string, Record>, leafOf: map<string, string>)
    requires ValidView(v) && i <= |tools|
  {
    SameIds(byId, leafOf) && IdsKept(v, tools, i, byId) && LastStored(v, tools, i, byId, leafOf)
  }

  ghost predicate SameIds(byId: map<string, Record>, leafOf: map<string, string>)
  {
    forall id :: id in byId <==> id in leafOf
  }

  ghost predicate IdsKept(v: View, tools: seq<Record>, i: nat, byId: map<string, Record>)
    requires i <= |tools|
  {
    forall id :: id in byId <==> exists j :: 0 <= j < i && v.idOf(tools[j]) != "" && v.idOf(tools[j]) == id
  }

  ghost predicate LastStored(v: View, tools: seq<Record>, i: nat, byId: map<string, Record>, leafOf: map<string, string>)
    requires ValidView(v) && i <= |tools|
  {
    forall j :: 0 <= j < i && v.idOf(tools[j]) != "" && LastOf(v, tools, i, j) ==>
      v.idOf(tools[j]) in byId && byId[v.idOf(tools[j])] == v.enrich(tools[j], v.idOf(tools[j])) &&
      v.idOf(tools[j]) in leafOf && leafOf[v.idOf(tools[j])] == KeyOfLeaf(v.segsOf(tools[j]))
  }

  lemma ToolsIndexedStep(v: View, tools: seq<Record>, i: nat, a: map<string, NodeEntry>, b: map<string, NodeEntry>)
    requires ValidView(v) && i < |tools|
    requires ToolsIndexed(v, tools, i, a) && Grows(a, b)
    requires v.idOf(tools[i]) != "" ==>
               Linked(b, v.segsOf(tools[i]), |v.segsOf(tools[i])|) &&
               KeyOfLeaf(v.segsOf(tools[i])) in b && v.idOf(tools[i]) in b[KeyOfLeaf(v.segsOf(tools[i]))].tools
    ensures ToolsIndexed(v, tools, i + 1, b)
  {
    forall j | 0 <= j < i && v.idOf(tools[j]) != ""
      ensures Linked(b, v.segsOf(tools[j]), |v.segsOf(tools[j])|)
    {
      LinkedGrows(a, b, v.segsOf(tools[j]), |v.segsOf(tools[j])|);
    }
  }

  /** The nodes, links and leaf ids added for tool `i` come from it. */
  lemma NoJunkStep(v: View, tools: seq<Record>, i: nat, a: map<string, NodeEntry>, b: map<string, NodeEntry>, c: map<string, NodeEntry>)
    requires ValidView(v) && i < |tools| && v.idOf(tools[i]) != ""
    requires NoJunk(v, tools, i, a)
    requires NodesFrom(b, a, v.segsOf(tools[i]), |v.segsOf(tools[i])|)
    requires ChildrenFrom(b, a, v.segsOf(tools[i]), |v.segsOf(tools[i])|)
    requires SameTools(b, a)
    requires KeyOfLeaf(v.segsOf(tools[i])) in b
    requires c == b[KeyOfLeaf(v.segsOf(tools[i])) :=
                    b[KeyOfLeaf(v.segsOf(tools[i]))].(tools := b[KeyOfLeaf(v.segsOf(tools[i]))].tools + [v.idOf(tools[i])])]
    ensures NoJunk(v, tools, i + 1, c)
  {
    var leafKey := KeyOfLeaf(v.segsOf(tools[i]));
    assert forall k :: k in c ==>
      (k in b && c[k].children == b[k].children &&
       c[k].tools == if k == leafKey then b[k].tools + [v.idOf(tools[i])] else b[k].tools);
    NoJunkNodes(v, tools, i, a, b, c);
    NoJunkChildren(v, tools, i, a, b, c);
    NoJunkLeaves(v, tools, i, a, b, c);
  }

  lemma NoJunkNodes(v: View, tools: seq<Record>, i: nat, a: map<string, NodeEntry>, b: map<string, NodeEntry>, c: map<string, NodeEntry>)
    requires ValidView(v) && i < |tools| && v.idOf(tools[i]) != ""
    requires NodesKnown(v, tools, i, a)
    requires NodesFrom(b, a, v.segsOf(tools[i]), |v.segsOf(tools[i])|)
    requires forall k :: k in c ==> k in b
    ensures NodesKnown(v, tools, i + 1, c)
  {
    var segs := v.segsOf(tools[i]);
    forall k | k in c
      ensures k == RootName || exists j :: 0 <= j < i + 1 && IsKeyOf(v, tools[j], k)
    {
      if k !in a {
        var n :| 1 <= n <= |segs| && k == PrefixKey(segs, n);
        assert IsKeyOf(v, tools[i], k);
      } else if k != RootName {
        var j :| 0 <= j < i && IsKeyOf(v, tools[j], k);
      }
    }
  }

  lemma NoJunkChildren(v: View, tools: seq<Record>, i: nat, a: map<string, NodeEntry>, b: map<string, NodeEntry>, c: map<string, NodeEntry>)
    requires ValidView(v) && i < |tools| && v.idOf(tools[i]) != ""
    requires LinksKnown(v, tools, i, a)
    requires ChildrenFrom(b, a, v.segsOf(tools[i]), |v.segsOf(tools[i])|)
    requires forall k :: k in c ==> k in b && c[k].children == b[k].children
    ensures LinksKnown(v, tools, i + 1, c)
  {
    var segs := v.segsOf(tools[i]);
    forall k, x | k in c && x in c[k].children
      ensures exists j :: 0 <= j < i + 1 && IsChildOf(v, tools[j], k, x)
    {
      assert x in b[k].children;
      if !(k in a && x in a[k].children) {
        var n :| 2 <= n <= |segs| && k == PrefixKey(segs, n - 1) && x == PrefixKey(segs, n);
        assert IsChildOf(v, tools[i], k, x);
      } else {
        var j :| 0 <= j < i && IsChildOf(v, tools[j], k, x);
      }
    }
  }

  lemma NoJunkLeaves(v: View, tools: seq<Record>, i: nat, a: map<string, NodeEntry>, b: map<string, NodeEntry>, c: map<string, NodeEntry>)
    requires ValidView(v) && i < |tools| && v.idOf(tools[i]) != ""
    requires LeavesKnown(v, tools, i, a)
    requires SameTools(b, a)
    requires forall k :: k in c ==>
               (k in b && c[k].tools == if k == KeyOfLeaf(v.segsOf(tools[i])) then b[k].tools + [v.idOf(tools[i])] else b[k].tools)
    ensures LeavesKnown(v, tools, i + 1, c)
  {
    var t := tools[i];
    forall k, x | k in c && x in c[k].tools
      ensures exists j :: 0 <= j < i + 1 && v.idOf(tools[j]) != "" && v.idOf(tools[j]) == x && KeyOfLeaf(v.segsOf(tools[j])) == k
    {
      if !(k in a && x in a[k].tools) {
        assert k == KeyOfLeaf(v.segsOf(t)) && x == v.idOf(t);
      } else {
        var j :| 0 <= j < i && v.idOf(tools[j]) != "" && v.idOf(tools[j]) == x && KeyOfLeaf(v.segsOf(tools[j])) == k;
      }
    }
  }

  /** A tool without an id leaves both the coverage and the provenance of
      the node index unchanged. */
  lemma IndexSkip(v: View, tools: seq<Record>, i: nat, ni: map<string, NodeEntry>)
    requires ValidView(v) && i < |tools| && v.idOf(tools[i]) == ""
    requires ToolsIndexed(v, tools, i, ni) && NoJunk(v, tools, i, ni)
    ensures ToolsIndexed(v, tools, i + 1, ni) && NoJunk(v, tools, i + 1, ni)
  {
    SkipNodes(v, tools, i, ni);
    SkipLinks(v, tools, i, ni);
    SkipLeaves(v, tools, i, ni);
  }

  lemma SkipNodes(v: View, tools: seq<Record>, i: nat, ni: map<string, NodeEntry>)
    requires i < |tools| && NodesKnown(v, tools, i, ni)
    ensures NodesKnown(v, tools, i + 1, ni)
  {
    forall k | k in ni && k != RootName
      ensures exists j :: 0 <= j < i + 1 && IsKeyOf(v, tools[j], k)
    {
      var j :| 0 <= j < i && IsKeyOf(v, tools[j], k);
    }
  }

  lemma SkipLinks(v: View, tools: seq<Record>, i: nat, ni: map<string, NodeEntry>)
    requires i < |tools| && LinksKnown(v, tools, i, ni)
    ensures LinksKnown(v, tools, i + 1, ni)
  {
    forall k, c | k in ni && c in ni[k].children
      ensures exists j :: 0 <= j < i + 1 && IsChildOf(v, tools[j], k, c)
    {
      var j :| 0 <= j < i && IsChildOf(v, tools[j], k, c);
    }
  }

  lemma SkipLeaves(v: View, tools: seq<Record>, i: nat, ni: map<string, NodeEntry>)
    requires ValidView(v) && i < |tools| && LeavesKnown(v, tools, i, ni)
    ensures LeavesKnown(v, tools, i + 1, ni)
  {
    forall k, x | k in ni && x in ni[k].tools
      ensures exists j :: 0 <= j < i + 1 && v.idOf(tools[j]) != "" && v.idOf(tools[j]) == x && KeyOfLeaf(v.segsOf(tools[j])) == k
    {
      var j :| 0 <= j < i && v.idOf(tools[j]) != "" && v.idOf(tools[j]) == x && KeyOfLeaf(v.segsOf(tools[j])) == k;
    }
  }

  lemma ByIdStepDomain(v: View, tools: seq<Record>, i: nat, byId: map<string, Record>, byId': map<string, Record>)
    requires i < |tools| && v.idOf(tools[i]) != ""
    requires IdsKept(v, tools, i, byId)
    requires byId' == byId[v.idOf(tools[i]) := v.enrich(tools[i], v.idOf(tools[i]))]
    ensures IdsKept(v, tools, i + 1, byId')
  {
    var id := v.idOf(tools[i]);
    forall x
      ensures x in byId' <==> exists j :: 0 <= j < i + 1 && v.idOf(tools[j]) != "" && v.idOf(tools[j]) == x
    {
      if x == id {
        assert v.idOf(tools[i]) == x;
      } else if x in byId {
        var j :| 0 <= j < i && v.idOf(tools[j]) != "" && v.idOf(tools[j]) == x;
      }
    }
  }

  lemma ByIdStepLast(v: View, tools: seq<Record>, i: nat, byId: map<string, Record>, leafOf: map<string, string>,
                     byId': map<string, Record>, leafOf': map<string, string>)
    requires ValidView(v) && i < |tools| && v.idOf(tools[i]) != ""
    requires LastStored(v, tools, i, byId, leafOf)
    requires byId' == byId[v.idOf(tools[i]) := v.enrich(tools[i], v.idOf(tools[i]))]
    requires leafOf' == leafOf[v.idOf(tools[i]) := KeyOfLeaf(v.segsOf(tools[i]))]
    ensures LastStored(v, tools, i + 1, byId', leafOf')
  {
    forall j | 0 <= j < i + 1 && v.idOf(tools[j]) != "" && LastOf(v, tools, i + 1, j)
      ensures v.idOf(tools[j]) in byId' && byId'[v.idOf(tools[j])] == v.enrich(tools[j], v.idOf(tools[j])) && v.idOf(tools[j]) in leafOf' &&
              leafOf'[v.idOf(tools[j])] == KeyOfLeaf(v.segsOf(tools[j]))
    {
      if j < i {
        assert v.idOf(tools[j]) != v.idOf(tools[i]);
        assert LastOf(v, tools, i, j);
      }
    }
  }

  lemma ByIdStep(v: View, tools: seq<Record>, i: nat, byId: map<string, Record>, leafOf: map<string, string>,
                 byId': map<string, Record>, leafOf': map<string, string>)
    requires ValidView(v) && i < |tools| && v.idOf(tools[i]) != ""
    requires ById(v, tools, i, byId, leafOf)
    requires byId' == byId[v.idOf(tools[i]) := v.enrich(tools[i], v.idOf(tools[i]))]
    requires leafOf' == leafOf[v.idOf(tools[i]) := KeyOfLeaf(v.segsOf(tools[i]))]
    ensures ById(v, tools, i + 1, byId', leafOf')
  {
    ByIdStepDomain(v, tools, i, byId, byId');
    ByIdStepLast(v, tools, i, byId, leafOf, byId', leafOf');
    ByIdStepKeys(byId, leafOf, v.idOf(tools[i]), v.enrich(tools[i], v.idOf(tools[i])), KeyOfLeaf(v.segsOf(tools[i])));
  }

  lemma ByIdStepKeys(byId: map<string, Record>, leafOf: map<string, string>, id: string, r: Record, key: string)
    requires SameIds(byId, leafOf)
    ensures SameIds(byId[id := r], leafOf[id := key])
  {
  }

  lemma ByIdSkip(v: View, tools: seq<Record>, i: nat, byId: map<string, Record>, leafOf: map<string, string>)
    requires ValidView(v) && i < |tools| && v.idOf(tools[i]) == ""
    requires ById(v, tools, i, byId, leafOf)
    ensures ById(v, tools, i + 1, byId, leafOf)
  {
    ByIdSkipDomain(v, tools, i, byId);
    ByIdSkipLast(v, tools, i, byId, leafOf);
  }

  lemma ByIdSkipDomain(v: View, tools: seq<Record>, i: nat, byId: map<string, Record>)
    requires i < |tools| && v.idOf(tools[i]) == ""
    requires IdsKept(v, tools, i, byId)
    ensures IdsKept(v, tools, i + 1, byId)
  {
    forall id | id in byId
      ensures exists j :: 0 <= j < i + 1 && v.idOf(tools[j]) != "" && v.idOf(tools[j]) == id
    {
      var j :| 0 <= j < i && v.idOf(tools[j]) != "" && v.idOf(tools[j]) == id;
    }
    forall j | 0 <= j < i + 1 && v.idOf(tools[j]) != ""
      ensures v.idOf(tools[j]) in byId
    {
      assert j < i;
    }
  }

  lemma ByIdSkipLast(v: View, tools: seq<Record>, i: nat, byId: map<string, Record>, leafOf: map<string, string>)
    requires ValidView(v) && i < |tools| && v.idOf(tools[i]) == ""
    requires LastStored(v, tools, i, byId, leafOf)
    ensures LastStored(v, tools, i + 1, byId, leafOf)
  {
    forall j | 0 <= j < i + 1 && v.idOf(tools[j]) != "" && LastOf(v, tools, i + 1, j)
      ensures v.idOf(tools[j]) in byId && byId[v.idOf(tools[j])] == v.enrich(tools[j], v.idOf(tools[j])) && v.idOf(tools[j]) in leafOf &&
              leafOf[v.idOf(tools[j])] == KeyOfLeaf(v.segsOf(tools[j]))
    {
      assert j < i;
      assert LastOf(v, tools, i, j);
    }
  }

  /** The first loop of `buildIndices`: tools without an id are skipped;
      each other tool is stored under its id (a later tool with the same id
      replaces it), its path is registered, and its id is pushed at its
      leaf. */
  method IndexTools(v: View, tools: seq<Record>)
    returns (byId: map<string, Record>, ni: map<string, NodeEntry>, keys: seq<string>, leafOf: map<string, string>)
    requires ValidView(v)
    ensures RootName in ni && |keys| >= 1 && keys[0] == RootName
    ensures KeysList(ni, keys) && ChildrenDistinct(ni)
    ensures ToolsIndexed(v, tools, |tools|, ni) && NoJunk(v, tools, |tools|, ni)
    ensures ById(v, tools, |tools|, byId, leafOf)
  {
    byId := map[];
    leafOf := map[];
    ni := map[RootName := NodeEntry([], [])];
    keys := [RootName];
    for i := 0 to |tools|
      invariant RootName in ni && |keys| >= 1 && keys[0] == RootName
      invariant KeysList(ni, keys) && ChildrenDistinct(ni)
      invariant ToolsIndexed(v, tools, i, ni) && NoJunk(v, tools, i, ni)
      invariant ById(v, tools, i, byId, leafOf)
    {
      var tool := tools[i];
      var id := v.idOf(tool);
      if id == "" {
        ByIdSkip(v, tools, i, byId, leafOf);
        IndexSkip(v, tools, i, ni);
        continue;
      }
      byId, leafOf := StoreById(v, tools, i, byId, leafOf);
      ni, keys := IndexPath(v, tools, i, ni, keys);
    }
  }

  /** The enriched tool is stored under its id, replacing an earlier tool
      with the same id, and its leaf key is remembered. */
  method StoreById(v: View, tools: seq<Record>, i: nat, byId0: map<string, Record>, leafOf0: map<string, string>)
    returns (byId: map<string, Record>, leafOf: map<string, string>)
    requires ValidView(v) && i < |tools| && v.idOf(tools[i]) != ""
    requires ById(v, tools, i, byId0, leafOf0)
    ensures ById(v, tools, i + 1, byId, leafOf)
  {
    var tool := tools[i];
    var id := v.idOf(tool);
    byId := byId0[id := v.enrich(tool, id)];
    leafOf := leafOf0[id := KeyOfLeaf(v.segsOf(tool))];
    ByIdStep(v, tools, i, byId0, leafOf0, byId, leafOf);
  }

  /** The body of the first loop for a tool with an id: its path is
      registered and its id is pushed at its leaf. */
  method IndexPath(v: View, tools: seq<Record>, i: nat, ni0: map<string, NodeEntry>, keys0: seq<string>)
    returns (ni: map<string, NodeEntry>, keys: seq<string>)
    requires ValidView(v) && i < |tools| && v.idOf(tools[i]) != ""
    requires RootName in ni0 && |keys0| >= 1 && keys0[0] == RootName
    requires KeysList(ni0, keys0) && ChildrenDistinct(ni0)
    requires ToolsIndexed(v, tools, i, ni0) && NoJunk(v, tools, i, ni0)
    ensures RootName in ni && |keys| >= 1 && keys[0] == RootName
    ensures KeysList(ni, keys) && ChildrenDistinct(ni)
    ensures ToolsIndexed(v, tools, i + 1, ni) && NoJunk(v, tools, i + 1, ni)
  {
    var tool := tools[i];
    var id := v.idOf(tool);
    var pathSegments := v.segsOf(tool);
    var leafKey := KeyOfLeaf(pathSegments);
    ni, keys := RegisterPath(ni0, keys0, pathSegments);
    ghost var b := ni;
    assert leafKey in ni by {
      assert Linked(ni, pathSegments, |pathSegments|);
    }
    var leaf := ni[leafKey];
    ni := ni[leafKey := leaf.(tools := leaf.tools + [id])];
    PushLeafId(b, keys, leafKey, id);
    assert ToolsIndexed(v, tools, i + 1, ni) by {
      GrowsTrans(ni0, b, ni);
      LinkedGrows(b, ni, pathSegments, |pathSegments|);
      ToolsIndexedStep(v, tools, i, ni0, ni);
    }
    assert NoJunk(v, tools, i + 1, ni) by {
      NoJunkStep(v, tools, i, ni0, b, ni);
    }
  }

  /** Pushing an id at an existing node keeps the key list and the distinct
      children, and loses nothing. */
  lemma PushLeafId(b: map<string, NodeEntry>, keys: seq<string>, leafKey: string, id: string)
    requires leafKey in b && KeysList(b, keys) && ChildrenDistinct(b)
    ensures KeysList(b[leafKey := b[leafKey].(tools := b[leafKey].tools + [id])], keys)
    ensures ChildrenDistinct(b[leafKey := b[leafKey].(tools := b[leafKey].tools + [id])])
    ensures Grows(b, b[leafKey := b[leafKey].(tools := b[leafKey].tools + [id])])
  {
  }

  // ---------------------------------------------------------------------------
  // The loop over the leaf keys
  // ---------------------------------------------------------------------------

  /** `k` is the key of a non-empty prefix of the '>'-fields of `leafKey`. */
  ghost predicate Under(leafKey: string, k: string)
  {
    exists n :: 1 <= n <= |Split(leafKey, '>')| && k == PrefixKey(Split(leafKey, '>'), n)
  }

  /** `under` holds, for every key, exactly the ids among `done` whose leaf
      key lies below it. */
  ghost predicate Distributed(leafOf: map<string, string>, done: set<string>, under: map<string, set<string>>)
    requires done <= leafOf.Keys
  {
    DistKeys(leafOf, done, under) && DistIds(leafOf, done, under)
  }

  ghost predicate DistKeys(leafOf: map<string, string>, done: set<string>, under: map<string, set<string>>)
    requires done <= leafOf.Keys
  {
    forall k :: k in under <==> exists id :: id in done && Under(leafOf[id], k)
  }

  ghost predicate DistIds(leafOf: map<string, string>, done: set<string>, under: map<string, set<string>>)
    requires done <= leafOf.Keys
  {
    forall k, id :: k in under ==> (id in under[k] <==> id in done && Under(leafOf[id], k))
  }

  /** The keys `AddUnder` leaves for tool `t` extend a distribution over
      `done` to one over `done + {t}`. */
  lemma DistKeysStep(leafOf: map<string, string>, done: set<string>, t: string, segments: seq<string>,
                     under0: map<string, set<string>>, under: map<string, set<string>>)
    requires done <= leafOf.Keys && t in leafOf && segments == Split(leafOf[t], '>')
    requires DistKeys(leafOf, done, under0)
    requires forall k :: k in under <==> k in under0 || exists n :: 1 <= n <= |segments| && k == PrefixKey(segments, n)
    ensures DistKeys(leafOf, done + {t}, under)
  {
    forall k
      ensures k in under <==> exists id :: id in done + {t} && Under(leafOf[id], k)
    {
      if k in under0 {
        var id :| id in done && Under(leafOf[id], k);
        assert id in done + {t};
      } else if Under(leafOf[t], k) {
        assert t in done + {t};
      }
    }
  }

  /** The ids `AddUnder` leaves for tool `t` extend a distribution over
      `done` to one over `done + {t}`. */
  lemma DistIdsStep(leafOf: map<string, string>, done: set<string>, t: string, segments: seq<string>,
                    under0: map<string, set<string>>, under: map<string, set<string>>)
    requires done <= leafOf.Keys && t in leafOf && segments == Split(leafOf[t], '>')
    requires DistKeys(leafOf, done, under0) && DistIds(leafOf, done, under0)
    requires forall k, x :: k in under ==>
               (x in under[k] <==> (k in under0 && x in under0[k]) ||
                                   (x == t && exists n :: 1 <= n <= |segments| && k == PrefixKey(segments, n)))
    ensures DistIds(leafOf, done + {t}, under)
  {
    forall k, id | k in under
      ensures id in under[k] <==> id in done + {t} && Under(leafOf[id], k)
    {
      if k !in under0 {
        assert !exists x :: x in done && Under(leafOf[x], k);
      }
    }
  }

  /** The inner loop of the second pass: `id` is added under every prefix key
      of the first `n` fields. */
  method AddUnder(under0: map<string, set<string>>, id: string, segments: seq<string>)
    returns (under: map<string, set<string>>)
    ensures forall k :: k in under <==> k in under0 || exists n :: 1 <= n <= |segments| && k == PrefixKey(segments, n)
    ensures forall k, x :: k in under ==>
              (x in under[k] <==> (k in under0 && x in under0[k]) ||
                                  (x == id && exists n :: 1 <= n <= |segments| && k == PrefixKey(segments, n)))
  {
    under := under0;
    for i := 1 to |segments| + 1
      invariant forall k :: k in under <==> k in under0 || exists n :: 1 <= n < i && k == PrefixKey(segments, n)
      invariant forall k, x :: k in under ==>
                  (x in under[k] <==> (k in under0 && x in under0[k]) ||
                                      (x == id && exists n :: 1 <= n < i && k == PrefixKey(segments, n)))
    {
      var key := PrefixKey(segments, i);
      if key !in under {
        under := under[key := {}];
      }
      under := under[key := under[key] + {id}];
    }
  }

  /** The second loop of `buildIndices`: every tool id goes under each prefix
      key of its leaf key split on '>'. */
  method DistributeTools(leafOf: map<string, string>) returns (under: map<string, set<string>>)
    ensures Distributed(leafOf, leafOf.Keys, under)
  {
    under := map[];
    var todo := leafOf.Keys;
    while todo != {}
      invariant todo <= leafOf.Keys
      invariant DistKeys(leafOf, leafOf.Keys - todo, under) && DistIds(leafOf, leafOf.Keys - todo, under)
      decreases todo
    {
      var toolId :| toolId in todo;
      ghost var done := leafOf.Keys - todo;
      var segments := Split(leafOf[toolId], '>');
      ghost var under0 := under;
      under := AddUnder(under, toolId, segments);
      todo := todo - {toolId};
      DistKeysStep(leafOf, done, toolId, segments, under0, under);
      DistIdsStep(leafOf, done, toolId, segments, under0, under);
      assert leafOf.Keys - todo == done + {toolId};
    }
  }

  /** The last loop of `buildIndices`: every listed key gets an entry, empty
      when no tool lies below it (children are already arrays here). */
  method FinalizeUnder(under0: map<string, set<string>>, keys: seq<string>) returns (under: map<string, set<string>>)
    ensures forall k :: k in under <==> k in under0 || k in keys
    ensures forall k :: k in under ==> under[k] == if k in under0 then under0[k] else {}
  {
    under := under0;
    for i := 0 to |keys|
      invariant forall k :: k in under <==> k in under0 || k in keys[..i]
      invariant forall k :: k in under ==> under[k] == if k in under0 then under0[k] else {}
    {
      if keys[i] !in under {
        under := under[keys[i] := {}];
      }
      assert keys[..i + 1] == keys[..i] + [keys[i]];
    }
    assert keys[..|keys|] == keys;
  }

  // ---------------------------------------------------------------------------
  // buildIndices
  // ---------------------------------------------------------------------------

  /** Some tool `j` with the id of tool `j` comes last among the first `i`. */
  lemma {:induction false} LastExists(v: View, tools: seq<Record>, i: nat, j: nat)
    requires j < i <= |tools|
    ensures exists l :: j <= l < i && v.idOf(tools[l]) == v.idOf(tools[j]) && LastOf(v, tools, i, l)
    decreases i - j
  {
    if !LastOf(v, tools, i, j) {
      var l :| j < l < i && v.idOf(tools[l]) == v.idOf(tools[j]);
      LastExists(v, tools, i, l);
    }
  }

  /** The last tool with a given id. */
  ghost predicate LastWith(v: View, tools: seq<Record>, j: int, id: string)
  {
    0 <= j < |tools| && v.idOf(tools[j]) != "" && v.idOf(tools[j]) == id && LastOf(v, tools, |tools|, j)
  }

  /** An id lies under key `k` iff the last tool with that id has `k` among the
      prefix keys of its leaf key. */
  ghost predicate UnderSpec(v: View, tools: seq<Record>, under: map<string, set<string>>)
    requires ValidView(v)
  {
    (forall k, id :: k in under ==>
       (id in under[k] <==> exists j :: LastWith(v, tools, j, id) && Under(KeyOfLeaf(v.segsOf(tools[j])), k))) &&
    (forall j, k :: 0 <= j < |tools| && LastWith(v, tools, j, v.idOf(tools[j])) && Under(KeyOfLeaf(v.segsOf(tools[j])), k) ==> k in under)
  }

  /** An id with a leaf key has a last tool, whose leaf key it is. */
  lemma LeafOfLast(v: View, tools: seq<Record>, byId: map<string, Record>, leafOf: map<string, string>, id: string)
    returns (j: int)
    requires ValidView(v)
    requires ById(v, tools, |tools|, byId, leafOf)
    requires id in leafOf
    ensures LastWith(v, tools, j, id) && leafOf[id] == KeyOfLeaf(v.segsOf(tools[j]))
  {
    assert id in byId;
    var j0 :| 0 <= j0 < |tools| && v.idOf(tools[j0]) != "" && v.idOf(tools[j0]) == id;
    LastExists(v, tools, |tools|, j0);
    j :| j0 <= j < |tools| && v.idOf(tools[j]) == id && LastOf(v, tools, |tools|, j);
  }

  lemma UnderPairOnlyIf(v: View, tools: seq<Record>, byId: map<string, Record>, leafOf: map<string, string>,
                        under0: map<string, set<string>>, k: string, id: string)
    requires ValidView(v)
    requires ById(v, tools, |tools|, byId, leafOf)
    requires forall k, id :: k in under0 ==> (id in under0[k] <==> id in leafOf && Under(leafOf[id], k))
    requires k in under0 && id in under0[k]
    ensures exists j :: LastWith(v, tools, j, id) && Under(KeyOfLeaf(v.segsOf(tools[j])), k)
  {
    var j := LeafOfLast(v, tools, byId, leafOf, id);
    assert Under(KeyOfLeaf(v.segsOf(tools[j])), k);
  }

  lemma UnderPairIf(v: View, tools: seq<Record>, leafOf: map<string, string>,
                    under0: map<string, set<string>>, k: string, id: string, j: int)
    requires ValidView(v)
    requires forall j :: 0 <= j < |tools| && v.idOf(tools[j]) != "" && LastOf(v, tools, |tools|, j) ==>
               v.idOf(tools[j]) in leafOf && leafOf[v.idOf(tools[j])] == KeyOfLeaf(v.segsOf(tools[j]))
    requires forall k :: k in under0 <==> exists id :: id in leafOf && Under(leafOf[id], k)
    requires forall k, id :: k in under0 ==> (id in under0[k] <==> id in leafOf && Under(leafOf[id], k))
    requires LastWith(v, tools, j, id) && Under(KeyOfLeaf(v.segsOf(tools[j])), k)
    ensures k in under0 && id in under0[k]
  {
    assert id in leafOf && leafOf[id] == KeyOfLeaf(v.segsOf(tools[j]));
  }

  lemma UnderPair(v: View, tools: seq<Record>, byId: map<string, Record>, leafOf: map<string, string>,
                  under0: map<string, set<string>>, under: map<string, set<string>>, k: string, id: string)
    requires ValidView(v)
    requires ById(v, tools, |tools|, byId, leafOf)
    requires Distributed(leafOf, leafOf.Keys, under0)
    requires k in under && under[k] == if k in under0 then under0[k] else {}
    ensures id in under[k] <==> exists j :: LastWith(v, tools, j, id) && Under(KeyOfLeaf(v.segsOf(tools[j])), k)
  {
    if id in under[k] {
      UnderPairOnlyIf(v, tools, byId, leafOf, under0, k, id);
    }
    if exists j :: LastWith(v, tools, j, id) && Under(KeyOfLeaf(v.segsOf(tools[j])), k) {
      var j :| LastWith(v, tools, j, id) && Under(KeyOfLeaf(v.segsOf(tools[j])), k);
      UnderPairIf(v, tools, leafOf, under0, k, id, j);
    }
  }

  /** The entries after the last loop: for every key, the ids whose last tool
      lies below it. */
  lemma UnderFromLeaves(v: View, tools: seq<Record>, byId: map<string, Record>, leafOf: map<string, string>,
                        under0: map<string, set<string>>, under: map<string, set<string>>)
    requires ValidView(v)
    requires ById(v, tools, |tools|, byId, leafOf)
    requires Distributed(leafOf, leafOf.Keys, under0)
    requires forall k :: k in under0 ==> k in under
    requires forall k :: k in under ==> under[k] == if k in under0 then under0[k] else {}
    ensures UnderSpec(v, tools, under)
  {
    forall j, k | 0 <= j < |tools| && LastWith(v, tools, j, v.idOf(tools[j])) && Under(KeyOfLeaf(v.segsOf(tools[j])), k)
      ensures k in under
    {
      UnderPairIf(v, tools, leafOf, under0, k, v.idOf(tools[j]), j);
    }
    forall k, id | k in under
      ensures id in under[k] <==> exists j :: LastWith(v, tools, j, id) && Under(KeyOfLeaf(v.segsOf(tools[j])), k)
    {
      UnderPair(v, tools, byId, leafOf, under0, under, k, id);
    }
  }

  /** The projections `buildIndices` reads from a registry record. */
  function RegistryView(): View
  {
    View(ToolId, PathSegments, Enrich)
  }

  lemma RegistryViewValid()
    ensures ValidView(RegistryView())
  {
  }

  /** `buildIndices`. */
  method BuildIndices(tools: seq<Record>) returns (b: Indices)
    ensures b.rootName == RootName
    ensures RootName in b.nodeIndex && |b.allPathKeys| >= 1 && b.allPathKeys[0] == RootName
    ensures KeysList(b.nodeIndex, b.allPathKeys) && ChildrenDistinct(b.nodeIndex)
    ensures ValidView(RegistryView())
    ensures ToolsIndexed(RegistryView(), tools, |tools|, b.nodeIndex)
    ensures NoJunk(RegistryView(), tools, |tools|, b.nodeIndex)
    ensures forall id :: id in b.toolsById <==> exists j :: 0 <= j < |tools| && ToolId(tools[j]) != "" && ToolId(tools[j]) == id
    ensures forall j :: 0 <= j < |tools| && ToolId(tools[j]) != "" && LastOf(RegistryView(), tools, |tools|, j) ==>
              ToolId(tools[j]) in b.toolsById && b.toolsById[ToolId(tools[j])] == Enrich(tools[j], ToolId(tools[j]))
    ensures forall k :: k in b.nodeIndex ==> k in b.allToolsUnder
    ensures UnderSpec(RegistryView(), tools, b.allToolsUnder)
  {
    RegistryViewValid();
    var v := RegistryView();
    var byId, nodeIndex, keys, leafOf := IndexTools(v, tools);
    var distributed := DistributeTools(leafOf);
    var under := FinalizeUnder(distributed, keys);
    UnderFromLeaves(v, tools, byId, leafOf, distributed, under);
    b := Indices(RootName, byId, nodeIndex, under, keys);
  }

  // ---------------------------------------------------------------------------
  // What the indices promise
  // ---------------------------------------------------------------------------

  /** A prefix key of a prefix key of `leafKey` is a prefix key of it. */
  lemma UnderAncestor(leafKey: string, k: string, m: nat)
    requires Under(leafKey, k)
    requires 1 <= m <= |Split(k, '>')|
    ensures Under(leafKey, PrefixKey(Split(k, '>'), m))
  {
    var l := Split(leafKey, '>');
    var n :| 1 <= n <= |l| && k == PrefixKey(l, n);
    assert NoSep(l[..n], '>');
    SplitJoin(l[..n], '>');
    assert Split(k, '>') == l[..n];
    assert l[..n][..m] == l[..m];
    assert PrefixKey(l, m) == PrefixKey(Split(k, '>'), m);
  }

  /** `allToolsUnder` is closed upwards: an id under a key is under every
      ancestor key of it. */
  lemma UnderAncestorsClosed(v: View, tools: seq<Record>, under: map<string, set<string>>, k: string, id: string, m: nat)
    requires ValidView(v) && UnderSpec(v, tools, under)
    requires k in under && id in under[k]
    requires 1 <= m <= |Split(k, '>')|
    ensures PrefixKey(Split(k, '>'), m) in under && id in under[PrefixKey(Split(k, '>'), m)]
  {
    var j :| LastWith(v, tools, j, id) && Under(KeyOfLeaf(v.segsOf(tools[j])), k);
    UnderAncestor(KeyOfLeaf(v.segsOf(tools[j])), k, m);
  }

  /** The key of a path that starts at `Root` lies below `Root`. */
  lemma RootAboveKey(segs: seq<string>)
    requires |segs| >= 1 && segs[0] == RootName
    ensures Under(CreatePathKey(segs), RootName)
  {
    SplitJoinFirst(segs, '>');
    var l := Split(CreatePathKey(segs), '>');
    assert l[..1] == [RootName];
    assert PrefixKey(l, 1) == RootName;
  }

  /** Every leaf key of the registry lies below `Root`. */
  lemma RootAboveLeaf(t: Record)
    ensures Under(LeafKey(t), RootName)
  {
    RootAboveKey(PathSegments(t));
  }

  /** Every kept tool id is under `Root`. */
  lemma KeptUnderRoot(tools: seq<Record>, under: map<string, set<string>>, j: nat)
    requires ValidView(RegistryView()) && UnderSpec(RegistryView(), tools, under)
    requires RootName in under
    requires j < |tools| && ToolId(tools[j]) != ""
    ensures ToolId(tools[j]) in under[RootName]
  {
    var v := RegistryView();
    LastExists(v, tools, |tools|, j);
    var l :| j <= l < |tools| && v.idOf(tools[l]) == v.idOf(tools[j]) && LastOf(v, tools, |tools|, l);
    RootAboveLeaf(tools[l]);
    assert LastWith(v, tools, l, ToolId(tools[j]));
  }

  /** When no path segment holds '>', the keys ids lie under are nodes of the
      tree: the split of a leaf key gives its segments back. */
  lemma UnderIsNode(v: View, tools: seq<Record>, ni: map<string, NodeEntry>, under: map<string, set<string>>, k: string, id: string)
    requires ValidView(v)
    requires ToolsIndexed(v, tools, |tools|, ni) && UnderSpec(v, tools, under)
    requires forall j :: 0 <= j < |tools| ==> NoSep(v.segsOf(tools[j]), '>')
    requires k in under && id in under[k]
    ensures k in ni
  {
    var j :| LastWith(v, tools, j, id) && Under(KeyOfLeaf(v.segsOf(tools[j])), k);
    var segs := v.segsOf(tools[j]);
    SplitJoin(segs, '>');
    assert Linked(ni, segs, |segs|);
    var n :| 1 <= n <= |Split(KeyOfLeaf(segs), '>')| && k == PrefixKey(Split(KeyOfLeaf(segs), '>'), n);
  }

  /** A registry path has no '>' in it when its category path has none. */
  lemma RegistrySegmentsNoSep(t: Record)
    requires NoSep(GetCategoryPath(t), '>')
    ensures NoSep(RegistryView().segsOf(t), '>')
  {
    var segs := PathSegments(t);
    assert forall i :: 1 <= i < |segs| ==> segs[i] == GetCategoryPath(t)[i - 1];
  }

  // ---------------------------------------------------------------------------
  // Loading
  // ---------------------------------------------------------------------------

  /** What loading the registry produced: nothing (the fetch failed or the
      text did not parse), a value that is not an array, or an array. */
  datatype Loaded = NoData | NotArray | ToolArray(tools: seq<Record>)

  /** `applyFallback`: only `Root`, with no tools. */
  function Fallback(): (b: Indices)
    ensures b.toolsById == map[] && b.allPathKeys == [RootName]
    ensures b.nodeIndex.Keys == {RootName} && b.nodeIndex[RootName] == NodeEntry([], [])
    ensures b.allToolsUnder.Keys == {RootName} && b.allToolsUnder[RootName] == {}
  {
    Indices(RootName, map[], map[RootName := NodeEntry([], [])], map[RootName := {}], [RootName])
  }

  /** `initialize` once the registry text is fetched and parsed. */
  method Initialize(loaded: Loaded) returns (b: Indices)
    ensures !loaded.ToolArray? ==> b == Fallback()
    ensures loaded.ToolArray? ==>
              RootName in b.nodeIndex && KeysList(b.nodeIndex, b.allPathKeys) &&
              ToolsIndexed(RegistryView(), loaded.tools, |loaded.tools|, b.nodeIndex) &&
              UnderSpec(RegistryView(), loaded.tools, b.allToolsUnder)
  {
    if !loaded.ToolArray? {
      return Fallback();
    }
    b := BuildIndices(loaded.tools);
  }
}

/**
  The registry loader of the tools page (`app/js/tools-loader.js`): the
  parsed tool list, its index of tools by '/'-joined category path, the
  lookup by path, the text search and the note update.

  The buckets of the index hold the same tool objects as the list; here
  they hold positions in the list, so that a note written into a tool is
  seen through its bucket as it is in the browser.
*/
module ToolsLoader {
  import opened Base
  import opened Text

  /** What `load()` obtains: a failed fetch or parse, a parsed value that is
      not an array, or an array of tool records. */
  datatype Parsed = Failed | NotArray | Tools(items: seq<Record>)

  /** The bucket of a tool: `category_path.join('/')` when the path is an
      array (an array is always truthy), none otherwise. */
  function PathKeyOf(t: Record): Option<string>
  {
    var cp := Get(t, "category_path");
    if cp.Arr? then Some(Join(cp.items, '/')) else None
  }

  /** The index built from the first `n` tools: each path with the
      positions of its tools, in list order. */
  function Buckets(tools: seq<Record>, n: nat): map<string, seq<nat>>
    requires n <= |tools|
  {
    if n == 0 then map[]
    else
      var m := Buckets(tools, n - 1);
      match PathKeyOf(tools[n - 1])
      case None => m
      case Some(p) => m[p := (if p in m then m[p] else []) + [n - 1]]
  }

  /** Reference definition: the positions among the first `n` tools whose
      bucket is `p`, in increasing order. */
  function PositionsAt(tools: seq<Record>, n: nat, p: string): seq<nat>
    requires n <= |tools|
  {
    if n == 0 then []
    else PositionsAt(tools, n - 1, p) + (if PathKeyOf(tools[n - 1]) == Some(p) then [n - 1] else [])
  }

  /** Reference definition: the tools whose bucket is `p`, in list order. */
  function ToolsAt(tools: seq<Record>, p: string): (r: seq<Record>)
    ensures |r| <= |tools|
  {
    if tools == [] then []
    else ToolsAt(tools[..|tools| - 1], p) + (if PathKeyOf(tools[|tools| - 1]) == Some(p) then [tools[|tools| - 1]] else [])
  }

  /** The tools at the given positions; a position past the end is skipped. */
  function Gather(tools: seq<Record>, positions: seq<nat>): seq<Record>
  {
    if positions == [] then []
    else
      var last := positions[|positions| - 1];
      Gather(tools, positions[..|positions| - 1]) + (if last < |tools| then [tools[last]] else [])
  }

  lemma {:induction false} GatherAppend(tools: seq<Record>, a: seq<nat>, b: seq<nat>)
    ensures Gather(tools, a + b) == Gather(tools, a) + Gather(tools, b)
    decreases |b|
  {
    if b == [] {
      assert a + b == a;
    } else {
      var b' := b[..|b| - 1];
      assert (a + b)[..|a + b| - 1] == a + b';
      GatherAppend(tools, a, b');
    }
  }

  /** A position is in the bucket list of `p` exactly when it is a position
      among the first `n` tools and that tool's bucket is `p`. */
  lemma {:induction false} PositionsAtSpec(tools: seq<Record>, n: nat, p: string)
    requires n <= |tools|
    ensures forall i: nat :: i in PositionsAt(tools, n, p) <==> i < n && PathKeyOf(tools[i]) == Some(p)
    ensures forall j, k :: 0 <= j < k < |PositionsAt(tools, n, p)| ==> PositionsAt(tools, n, p)[j] < PositionsAt(tools, n, p)[k]
  {
    if n > 0 {
      var prev := PositionsAt(tools, n - 1, p);
      PositionsAtSpec(tools, n - 1, p);
      assert forall j :: 0 <= j < |prev| ==> prev[j] < n - 1 by {
        forall j | 0 <= j < |prev|
          ensures prev[j] < n - 1
        {
          assert prev[j] in prev;
        }
      }
    }
  }

  /** The index built from the first `n` tools holds a path exactly when
      some of those tools are in its bucket, and then exactly their
      positions: every tool with an array path is in the bucket of its
      joined path and in no other, and no other tool is in any bucket. */
  lemma {:induction false} BucketsSpec(tools: seq<Record>, n: nat)
    requires n <= |tools|
    ensures forall p :: p in Buckets(tools, n) <==> PositionsAt(tools, n, p) != []
    ensures forall p :: p in Buckets(tools, n) ==> Buckets(tools, n)[p] == PositionsAt(tools, n, p)
  {
    if n > 0 {
      BucketsSpec(tools, n - 1);
    }
  }

  /** The tools at the positions of bucket `p` are the tools of that bucket. */
  lemma {:induction false} GatherPositions(tools: seq<Record>, n: nat, p: string)
    requires n <= |tools|
    ensures Gather(tools, PositionsAt(tools, n, p)) == ToolsAt(tools[..n], p)
  {
    if n > 0 {
      GatherPositions(tools, n - 1, p);
      var extra := if PathKeyOf(tools[n - 1]) == Some(p) then [n - 1] else [];
      GatherAppend(tools, PositionsAt(tools, n - 1, p), extra);
      assert tools[..n][..n - 1] == tools[..n - 1];
      assert Gather(tools, extra) == (if PathKeyOf(tools[n - 1]) == Some(p) then [tools[n - 1]] else []) by {
        if extra != [] {
          assert extra[..0] == [];
        }
      }
    }
  }

  /** The index depends on nothing but the bucket of each tool. */
  lemma {:induction false} BucketsOnlyPaths(a: seq<Record>, b: seq<Record>, n: nat)
    requires n <= |a| == |b|
    requires forall i :: 0 <= i < |a| ==> PathKeyOf(a[i]) == PathKeyOf(b[i])
    ensures Buckets(a, n) == Buckets(b, n)
  {
    if n > 0 {
      BucketsOnlyPaths(a, b, n - 1);
    }
  }

  /** The `searchTools` test on one string property: `tool.x?.toLowerCase().includes(q)`. */
  predicate FieldHas(v: JsVal, lowerQuery: string)
  {
    v.Str? && Contains(Lower(v.s), lowerQuery)
  }

  /** The `searchTools` test on one list property: `tool.xs?.some(...)`. */
  predicate ListHas(v: JsVal, lowerQuery: string)
  {
    v.Arr? && exists k :: 0 <= k < |v.items| && Contains(Lower(v.items[k]), lowerQuery)
  }

  /** Whether a tool matches the lower-cased query in its name, description,
      kind, capabilities or phases. */
  predicate Matches(t: Record, lowerQuery: string)
  {
    || FieldHas(Get(t, "name"), lowerQuery)
    || FieldHas(Get(t, "desc"), lowerQuery)
    || FieldHas(Get(t, "kind"), lowerQuery)
    || ListHas(Get(t, "caps"), lowerQuery)
    || ListHas(Get(t, "phases"), lowerQuery)
  }

  /** `tools.filter(...)` on `Matches`. */
  function Filtered(tools: seq<Record>, lowerQuery: string): (r: seq<Record>)
    ensures |r| <= |tools|
  {
    if tools == [] then []
    else Filtered(tools[..|tools| - 1], lowerQuery) + (if Matches(tools[|tools| - 1], lowerQuery) then [tools[|tools| - 1]] else [])
  }

  /** The filter keeps order: filtering a concatenation filters each part. */
  lemma {:induction false} FilteredAppend(a: seq<Record>, b: seq<Record>, q: string)
    ensures Filtered(a + b, q) == Filtered(a, q) + Filtered(b, q)
    decreases |b|
  {
    if b == [] {
      assert a + b == a;
    } else {
      var b' := b[..|b| - 1];
      assert (a + b)[..|a + b| - 1] == a + b';
      FilteredAppend(a, b', q);
    }
  }

  /** The filter keeps exactly the matching tools. */
  lemma {:induction false} FilteredMembers(tools: seq<Record>, q: string)
    ensures forall t :: t in Filtered(tools, q) <==> t in tools && Matches(t, q)
  {
    if tools != [] {
      var init := tools[..|tools| - 1];
      FilteredMembers(init, q);
      assert tools == init + [tools[|tools| - 1]];
    }
  }

  predicate AllSpaces(s: string)
  {
    forall i :: 0 <= i < |s| ==> IsJsSpace(s[i])
  }

  /** A string is blank after `trim()` exactly when it is all whitespace. */
  lemma BlankIffSpaces(s: string)
    ensures JsTrim(s) == "" <==> AllSpaces(s)
  {
    var a := TrimStart(s, IsJsSpace);
    if AllSpaces(s) {
      assert a == [];
    }
  }

  /** Lower-casing changes no whitespace character and makes none. */
  lemma LowerCharSpace(c: char)
    ensures IsJsSpace(LowerChar(c)) <==> IsJsSpace(c)
  {
  }

  lemma LowerKeepsSpaces(s: string)
    ensures AllSpaces(Lower(s)) <==> AllSpaces(s)
  {
    var l := Lower(s);
    forall i | 0 <= i < |s|
      ensures IsJsSpace(l[i]) <==> IsJsSpace(s[i])
    {
      assert l[i] == LowerChar(s[i]);
      LowerCharSpace(s[i]);
    }
  }

  lemma LowerIdempotent(s: string)
    ensures Lower(Lower(s)) == Lower(s)
  {
  }

  /** A query as `searchTools` treats it: `None` for an empty or blank
      query, otherwise the lower-cased query. */
  function QueryKey(query: string): (k: Option<string>)
    ensures k.None? <==> JsTrim(query) == ""
  {
    if query == "" || JsTrim(query) == "" then None else Some(Lower(query))
  }

  class Loader {
    var tools: seq<Record>
    var toolsByPath: map<string, seq<nat>>

    /** The index is the one built from the current list. */
    ghost predicate Valid()
      reads this
    {
      toolsByPath == Buckets(tools, |tools|)
    }

    constructor ()
      ensures tools == [] && toolsByPath == map[]
      ensures Valid()
    {
      tools := [];
      toolsByPath := map[];
    }

    /** `load()`: the parsed array, or no tools when the parsed value is
        not an array, then the index; a failed fetch or parse returns no
        tools and changes nothing. */
    method Load(parsed: Parsed) returns (r: seq<Record>)
      modifies this
      ensures parsed.Failed? ==> r == [] && tools == old(tools) && toolsByPath == old(toolsByPath)
      ensures !parsed.Failed? ==> tools == (if parsed.Tools? then parsed.items else []) && r == tools && Valid()
    {
      if parsed.Failed? {
        return [];
      }
      tools := if parsed.Tools? then parsed.items else [];
      IndexToolsByPath();
      r := tools;
    }

    /** `_indexToolsByPath()`: the index rebuilt from empty over the list. */
    method IndexToolsByPath()
      modifies this
      ensures tools == old(tools)
      ensures toolsByPath == Buckets(tools, |tools|)
    {
      var m: map<string, seq<nat>> := map[];
      var i := 0;
      while i < |tools|
        invariant 0 <= i <= |tools|
        invariant m == Buckets(tools, i)
      {
        var cp := Get(tools[i], "category_path");
        if Truthy(cp) && cp.Arr? {
          var path := Join(cp.items, '/');
          if path !in m {
            m := m[path := []];
          }
          m := m[path := m[path] + [i]];
        }
        i := i + 1;
      }
      toolsByPath := m;
    }

    /** `getToolsByPath(pathArray)`: every tool for a missing or empty path;
        otherwise the tools of exactly that bucket, in list order, or none. */
    function GetToolsByPath(pathArray: Option<seq<string>>): (r: seq<Record>)
      reads this
      ensures pathArray.None? || pathArray.value == [] ==> r == tools
      ensures pathArray.Some? && pathArray.value != [] && Valid() ==> r == ToolsAt(tools, Join(pathArray.value, '/'))
    {
      if pathArray.None? || pathArray.value == [] then tools
      else
        var path := Join(pathArray.value, '/');
        BucketsSpec(tools, |tools|);
        GatherPositions(tools, |tools|, path);
        assert tools[..|tools|] == tools;
        if path in toolsByPath then Gather(tools, toolsByPath[path]) else []
    }

    /** `searchTools(query)`: every tool for an empty or blank query;
        otherwise the tools matching the lower-cased query, in list order. */
    function SearchTools(query: string): (r: seq<Record>)
      reads this
      ensures JsTrim(query) == "" ==> r == tools
      ensures JsTrim(query) != "" ==> forall t :: t in r <==> t in tools && Matches(t, Lower(query))
    {
      match QueryKey(query)
      case None => tools
      case Some(q) => FilteredMembers(tools, q); Filtered(tools, q)
    }

    /** `updateToolNote(toolId, newNote)`: the first tool whose id is
        `toolId` gets the note; the result says whether there was one. */
    method UpdateToolNote(toolId: JsVal, newNote: JsVal) returns (found: bool)
      modifies this
      ensures var i := FirstWithId(old(tools), toolId);
        && found == (i < |old(tools)|)
        && tools == (if found then old(tools)[i := old(tools)[i]["notes" := newNote]] else old(tools))
      ensures toolsByPath == old(toolsByPath)
      ensures old(Valid()) ==> Valid()
    {
      var i := 0;
      while i < |tools| && Get(tools[i], "id") != toolId
        invariant 0 <= i <= |tools|
        invariant forall j :: 0 <= j < i ==> Get(tools[j], "id") != toolId
      {
        i := i + 1;
      }
      FirstWithIdUnique(tools, toolId, i);
      if i == |tools| {
        return false;
      }
      var before := tools;
      tools := tools[i := tools[i]["notes" := newNote]];
      BucketsOnlyPaths(before, tools, |tools|);
      found := true;
    }
  }

  /** `tools.find(t => t.id === id)`: the position of the first tool with
      that id, or the length when there is none. */
  function FirstWithId(tools: seq<Record>, id: JsVal): (i: nat)
    ensures i <= |tools|
    ensures i < |tools| ==> Get(tools[i], "id") == id
    ensures forall j :: 0 <= j < i ==> Get(tools[j], "id") != id
  {
    if tools == [] then 0
    else if Get(tools[0], "id") == id then 0
    else 1 + FirstWithId(tools[1..], id)
  }

  /** The first position with the id is the only one meeting its contract. */
  lemma FirstWithIdUnique(tools: seq<Record>, id: JsVal, i: nat)
    requires i <= |tools|
    requires i < |tools| ==> Get(tools[i], "id") == id
    requires forall j :: 0 <= j < i ==> Get(tools[j], "id") != id
    ensures FirstWithId(tools, id) == i
  {
  }

  /** A note update changes one tool at most and the bucket of none. */
  lemma NoteKeepsPath(t: Record, note: JsVal)
    ensures PathKeyOf(t["notes" := note]) == PathKeyOf(t)
  {
  }

  /** The search depends on the query only up to case. */
  lemma SearchIgnoresQueryCase(query: string)
    ensures QueryKey(Lower(query)) == QueryKey(query)
  {
    BlankIffSpaces(query);
    BlankIffSpaces(Lower(query));
    LowerKeepsSpaces(query);
    LowerIdempotent(query);
  }
}

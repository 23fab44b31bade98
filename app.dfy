/**
  The application orchestrator (`app/js/app.js`): which tools are visible
  for the current scope, the star flag written on each of them, the order
  of the cards, and the scope state kept across `tm:scope:set` and
  `tm:reset` events.
*/
module App {
  import opened Base
  import opened Text
  import opened Sorting
  import Helpers
  import Breadcrumb

  // ---------------------------------------------------------------------------
  // computeVisibleTools
  // ---------------------------------------------------------------------------

  /** `ids.map(id => toolsById[id]).filter(Boolean)`: the known tools, in
      the order of the ids. */
  function Lookup(tb: map<string, Record>, ids: seq<string>): (tools: seq<Record>)
    ensures |tools| <= |ids|
  {
    if ids == [] then []
    else
      var last := ids[|ids| - 1];
      Lookup(tb, ids[..|ids| - 1]) + (if last in tb then [tb[last]] else [])
  }

  /** `computeVisibleTools()`: every tool, in key order, when the scope is
      "all"; otherwise the tools of the scope ids. */
  function ComputeVisibleTools(tb: map<string, Record>, order: seq<string>, scopeAll: bool,
                               scopeIds: Option<seq<string>>): seq<Record>
  {
    var baseIds := if scopeAll then order else if scopeIds.Some? then scopeIds.value else [];
    Lookup(tb, baseIds)
  }

  /** Looking up a concatenation looks up each part in turn: the order of
      the ids is kept. */
  lemma {:induction false} LookupAppend(tb: map<string, Record>, a: seq<string>, b: seq<string>)
    ensures Lookup(tb, a + b) == Lookup(tb, a) + Lookup(tb, b)
    decreases |b|
  {
    if b == [] {
      assert a + b == a;
    } else {
      var b' := b[..|b| - 1];
      assert (a + b)[..|a + b| - 1] == a + b';
      LookupAppend(tb, a, b');
    }
  }

  /** A tool is visible exactly when one of the ids names it. */
  lemma {:induction false} LookupMembers(tb: map<string, Record>, ids: seq<string>, t: Record)
    ensures t in Lookup(tb, ids) <==> exists i :: 0 <= i < |ids| && ids[i] in tb && tb[ids[i]] == t
  {
    if ids != [] {
      var n := |ids| - 1;
      LookupMembers(tb, ids[..n], t);
      if exists i :: 0 <= i < |ids| && ids[i] in tb && tb[ids[i]] == t {
        var i :| 0 <= i < |ids| && ids[i] in tb && tb[ids[i]] == t;
        if i < n {
          assert ids[..n][i] == ids[i];
        }
      }
      if t in Lookup(tb, ids[..n]) {
        var i :| 0 <= i < n && ids[..n][i] in tb && tb[ids[..n][i]] == t;
        assert ids[i] == ids[..n][i];
      }
    }
  }

  /** Ids that are all known map one to one onto their tools. */
  lemma {:induction false} LookupKnown(tb: map<string, Record>, ids: seq<string>)
    requires forall i :: 0 <= i < |ids| ==> ids[i] in tb
    ensures |Lookup(tb, ids)| == |ids|
    ensures forall i :: 0 <= i < |ids| ==> Lookup(tb, ids)[i] == tb[ids[i]]
  {
    if ids != [] {
      var n := |ids| - 1;
      assert forall i :: 0 <= i < n ==> ids[..n][i] == ids[i];
      LookupKnown(tb, ids[..n]);
    }
  }

  /** With the scope "all", the visible tools are all the tools, in the key
      order of `toolsById`. */
  lemma VisibleAll(tb: map<string, Record>, order: seq<string>, scopeIds: Option<seq<string>>)
    requires forall i :: 0 <= i < |order| ==> order[i] in tb
    ensures |ComputeVisibleTools(tb, order, true, scopeIds)| == |order|
    ensures forall i :: 0 <= i < |order| ==> ComputeVisibleTools(tb, order, true, scopeIds)[i] == tb[order[i]]
  {
    LookupKnown(tb, order);
  }

  /** When `order` is `Object.keys(toolsById)`, the scope "all" shows one
      entry per tool, and every tool at the position of its key. */
  lemma VisibleEveryTool(tb: map<string, Record>, order: seq<string>, scopeIds: Option<seq<string>>)
    requires ListsKeys(tb, order)
    ensures |ComputeVisibleTools(tb, order, true, scopeIds)| == |order| == |tb|
    ensures forall k :: k in tb ==>
              exists i :: 0 <= i < |order| && order[i] == k && ComputeVisibleTools(tb, order, true, scopeIds)[i] == tb[k]
  {
    VisibleAll(tb, order, scopeIds);
    ListsKeysCount(tb, order);
    forall k | k in tb
      ensures exists i :: 0 <= i < |order| && order[i] == k && ComputeVisibleTools(tb, order, true, scopeIds)[i] == tb[k]
    {
      var i :| 0 <= i < |order| && order[i] == k;
    }
  }

  /** Otherwise a tool is visible exactly when a scope id names it; without
      scope ids nothing is. */
  lemma VisibleScoped(tb: map<string, Record>, order: seq<string>, scopeIds: Option<seq<string>>, t: Record)
    ensures scopeIds.None? ==> ComputeVisibleTools(tb, order, false, scopeIds) == []
    ensures scopeIds.Some? ==>
              (t in ComputeVisibleTools(tb, order, false, scopeIds) <==>
               exists i :: 0 <= i < |scopeIds.value| && scopeIds.value[i] in tb && tb[scopeIds.value[i]] == t)
  {
    if scopeIds.Some? {
      LookupMembers(tb, scopeIds.value, t);
    }
  }

  // ---------------------------------------------------------------------------
  // applyStarredState
  // ---------------------------------------------------------------------------

  /** `tool.id`, as the key of the stars map. */
  function ToolId(t: Record): string
  {
    ToStr(Get(t, "id"))
  }

  /** The star shown for a tool: the local star when the map has the id,
      otherwise the registry's `best_in` flag. */
  function StarredOf(t: Record, stars: map<string, JsVal>): bool
  {
    if ToolId(t) in stars then Truthy(stars[ToolId(t)]) else Helpers.ReadBestInFlag(t)
  }

  /** The tool with `_starred` written. */
  function WithStarred(t: Record, stars: map<string, JsVal>): Record
  {
    t["_starred" := Bool(StarredOf(t, stars))]
  }

  /** Writing the flag does not change what it is computed from, so applying
      the stars again changes nothing. */
  lemma WithStarredIdempotent(t: Record, stars: map<string, JsVal>)
    ensures StarredOf(WithStarred(t, stars), stars) == StarredOf(t, stars)
    ensures WithStarred(WithStarred(t, stars), stars) == WithStarred(t, stars)
  {
    var w := WithStarred(t, stars);
    assert Get(w, "id") == Get(t, "id");
    assert Helpers.BestInValues(w) == Helpers.BestInValues(t);
    Helpers.ReadBestInFlagSpec(w);
    Helpers.ReadBestInFlagSpec(t);
  }

  /** The local star wins over the registry; without a local entry the flag
      is the first spelling of `best_in` that is set, or false. */
  lemma StarredOfSpec(t: Record, stars: map<string, JsVal>)
    ensures ToolId(t) in stars ==> StarredOf(t, stars) == Truthy(stars[ToolId(t)])
    ensures ToolId(t) !in stars ==> StarredOf(t, stars) == Truthy(Helpers.FirstNonNullish(Helpers.BestInValues(t)))
  {
    Helpers.ReadBestInFlagSpec(t);
  }

  /** `applyStarredState(tools)`: `_starred` written on every tool. */
  method ApplyStarredState(tools: array<Record>, stars: map<string, JsVal>)
    modifies tools
    ensures forall i :: 0 <= i < tools.Length ==> tools[i] == WithStarred(old(tools[i]), stars)
  {
    for i := 0 to tools.Length
      invariant forall j :: 0 <= j < i ==> tools[j] == WithStarred(old(tools[j]), stars)
      invariant forall j :: i <= j < tools.Length ==> tools[j] == old(tools[j])
    {
      tools[i] := WithStarred(tools[i], stars);
    }
  }

  // ---------------------------------------------------------------------------
  // sortTools
  // ---------------------------------------------------------------------------

  /** `a._starred ? 0 : 1`. */
  function StarRank(t: Record): int
  {
    if Truthy(Get(t, "_starred")) then 0 else 1
  }

  /** What the comparator looks at, in order. */
  datatype SortKey = SortKey(num: int, str: string, star: int, name: string)

  function KeyOf(t: Record): SortKey
  {
    var k := Helpers.GetPhaseGroupKey(t);
    SortKey(k.num, k.str, StarRank(t), Helpers.GetName(t))
  }

  /** `localeCompare` returns 0: the strings are equivalent under the
      locale order `loc`. */
  predicate Same(loc: (string, string) -> bool, x: string, y: string)
  {
    loc(x, y) && loc(y, x)
  }

  /** The comparator of `sortTools` returns a value <= 0; `loc(x, y)` stands
      for `x.localeCompare(y, undefined, {sensitivity: 'base'}) <= 0`. */
  predicate KeyLe(loc: (string, string) -> bool, x: SortKey, y: SortKey)
  {
    if x.num != y.num then x.num < y.num
    else if x.str != y.str && !Same(loc, x.str, y.str) then loc(x.str, y.str)
    else if x.star != y.star then x.star < y.star
    else loc(x.name, y.name)
  }

  function ToolLe(loc: (string, string) -> bool): (Record, Record) -> bool
  {
    (a: Record, b: Record) => KeyLe(loc, KeyOf(a), KeyOf(b))
  }

  /** The comparator orders by phase number, then phase name, then starred
      first, then name, each level deciding only on a tie of the one
      before. */
  lemma KeyLeLevels(loc: (string, string) -> bool, x: SortKey, y: SortKey)
    requires TotalPreorder(loc) && KeyLe(loc, x, y)
    ensures x.num <= y.num
    ensures x.num == y.num ==> loc(x.str, y.str)
    ensures x.num == y.num && Same(loc, x.str, y.str) ==> x.star <= y.star
    ensures x.num == y.num && Same(loc, x.str, y.str) && x.star == y.star ==> loc(x.name, y.name)
  {
    assert loc(x.str, x.str);
  }

  lemma KeyLeTotal(loc: (string, string) -> bool, x: SortKey, y: SortKey)
    requires TotalPreorder(loc)
    ensures KeyLe(loc, x, y) || KeyLe(loc, y, x)
  {
    assert loc(x.str, y.str) || loc(y.str, x.str);
    assert loc(x.name, y.name) || loc(y.name, x.name);
  }

  lemma KeyLeTrans(loc: (string, string) -> bool, x: SortKey, y: SortKey, z: SortKey)
    requires TotalPreorder(loc) && KeyLe(loc, x, y) && KeyLe(loc, y, z)
    ensures KeyLe(loc, x, z)
  {
    KeyLeLevels(loc, x, y);
    KeyLeLevels(loc, y, z);
    if x.num == y.num && y.num == z.num {
      assert loc(x.str, z.str);
      if Same(loc, x.str, y.str) && Same(loc, y.str, z.str) {
        assert Same(loc, x.str, z.str);
        if x.star == y.star && y.star == z.star {
          assert loc(x.name, z.name);
        }
      }
    }
  }

  /** The comparator is a total preorder whenever the locale order is. */
  lemma ToolLeTotal(loc: (string, string) -> bool)
    requires TotalPreorder(loc)
    ensures TotalPreorder(ToolLe(loc))
  {
    var le := ToolLe(loc);
    forall a, b
      ensures le(a, b) || le(b, a)
    {
      KeyLeTotal(loc, KeyOf(a), KeyOf(b));
    }
    forall a, b, c | le(a, b) && le(b, c)
      ensures le(a, c)
    {
      KeyLeTrans(loc, KeyOf(a), KeyOf(b), KeyOf(c));
    }
  }

  /** `sortTools(tools)`: the array sorted in place. */
  method SortTools(tools: array<Record>, loc: (string, string) -> bool)
    modifies tools
    ensures tools[..] == StableSort(old(tools[..]), ToolLe(loc))
  {
    var sorted := StableSort(tools[..], ToolLe(loc));
    forall i | 0 <= i < tools.Length {
      tools[i] := sorted[i];
    }
  }

  /** Tool `a` may precede tool `b` in the cards: a smaller phase number,
      or the same number and a phase name not after, or the same phase and
      not unstarred before starred, or all that equal and a name not after. */
  ghost predicate InCardOrder(loc: (string, string) -> bool, a: Record, b: Record)
  {
    var x, y := KeyOf(a), KeyOf(b);
    && x.num <= y.num
    && (x.num == y.num ==> loc(x.str, y.str))
    && (x.num == y.num && Same(loc, x.str, y.str) ==> StarRank(a) <= StarRank(b))
    && (x.num == y.num && Same(loc, x.str, y.str) && x.star == y.star ==> loc(Helpers.GetName(a), Helpers.GetName(b)))
  }

  /** The sorted tools are a permutation of the input: by phase number, then
      phase name, then starred first, then name; tools equal on all four
      keep their input order. */
  lemma SortToolsSpec(loc: (string, string) -> bool, tools: seq<Record>)
    requires TotalPreorder(loc)
    ensures var s := StableSort(tools, ToolLe(loc));
            var p := SortIndices(tools, ToolLe(loc));
      && multiset(s) == multiset(tools)
      && IsPermutation(p, |tools|)
      && (forall k :: 0 <= k < |s| ==> s[k] == tools[p[k]])
      && (forall x, y :: 0 <= x < y < |s| ==> InCardOrder(loc, s[x], s[y]))
      && (forall x, y :: 0 <= x < y < |s| && KeyLe(loc, KeyOf(s[y]), KeyOf(s[x])) ==> p[x] < p[y])
  {
    var le := ToolLe(loc);
    ToolLeTotal(loc);
    StableSortCorrect(tools, le);
    var s := StableSort(tools, le);
    var p := SortIndices(tools, le);
    forall x, y | 0 <= x < y < |s|
      ensures InCardOrder(loc, s[x], s[y])
      ensures KeyLe(loc, KeyOf(s[y]), KeyOf(s[x])) ==> p[x] < p[y]
    {
      assert le(s[x], s[y]);
      KeyLeLevels(loc, KeyOf(s[x]), KeyOf(s[y]));
      assert Before(tools, le, p[x], p[y]);
    }
  }

  /** What `render()` shows: the visible tools with their stars, sorted. */
  method VisibleSorted(tb: map<string, Record>, order: seq<string>, scopeAll: bool, scopeIds: Option<seq<string>>,
                       stars: map<string, JsVal>, loc: (string, string) -> bool) returns (shown: seq<Record>)
    ensures |shown| == |ComputeVisibleTools(tb, order, scopeAll, scopeIds)|
    ensures shown == StableSort(StarAll(ComputeVisibleTools(tb, order, scopeAll, scopeIds), stars), ToolLe(loc))
  {
    var visible := ComputeVisibleTools(tb, order, scopeAll, scopeIds);
    var tools := new Record[|visible|](i requires 0 <= i < |visible| => visible[i]);
    ApplyStarredState(tools, stars);
    assert tools[..] == StarAll(visible, stars);
    SortTools(tools, loc);
    shown := tools[..];
  }

  /** Every tool with `_starred` written. */
  function StarAll(tools: seq<Record>, stars: map<string, JsVal>): (r: seq<Record>)
    ensures |r| == |tools|
    ensures forall i :: 0 <= i < |tools| ==> r[i] == WithStarred(tools[i], stars)
  {
    seq(|tools|, i requires 0 <= i < |tools| => WithStarred(tools[i], stars))
  }

  // ---------------------------------------------------------------------------
  // Scope state
  // ---------------------------------------------------------------------------

  /** `event.detail` of `tm:scope:set`: `ids` is `None` when absent or
      null (an array, even an empty one, is truthy). */
  datatype ScopeDetail = ScopeDetail(all: JsVal, ids: Option<seq<string>>, pathKey: JsVal)

  /** The path key opens a phase: its first segment after an optional
      leading "root" exists. */
  predicate VisitsPhase(pathKey: JsVal)
  {
    Truthy(pathKey) && pathKey.Str? && FirstPhase(pathKey.s) != ""
  }

  /** `first`: the segment after a leading "root", else the first segment;
      "" when there is none. */
  function FirstPhase(pathKey: string): string
  {
    var parts := NonEmpty(Split(pathKey, '>'));
    if |parts| > 0 && Lower(parts[0]) == "root" then (if |parts| > 1 then parts[1] else "")
    else if |parts| > 0 then parts[0] else ""
  }

  /** A phase is visited exactly when the breadcrumb shows a segment for the
      key. */
  lemma VisitsPhaseIffSegments(pathKey: JsVal)
    ensures VisitsPhase(pathKey) <==> Breadcrumb.SplitPathKey(pathKey) != []
  {
    if Truthy(pathKey) && pathKey.Str? {
      var parts := NonEmpty(Split(pathKey.s, '>'));
      if |parts| > 1 {
        assert parts[1] in parts;
      }
      if |parts| > 0 {
        assert parts[0] in parts;
      }
    }
  }

  /** `tools.map(t => t.id)`. */
  function Ids(tools: seq<Record>): (ids: seq<string>)
    ensures |ids| == |tools|
    ensures forall i :: 0 <= i < |tools| ==> ids[i] == ToolId(tools[i])
  {
    seq(|tools|, i requires 0 <= i < |tools| => ToolId(tools[i]))
  }

  /** The default `sort()` order on strings. */
  function CodeOrder(): (string, string) -> bool
  {
    (a: string, b: string) => StrLe(a, b)
  }

  /** `tools.map(t => t.id).sort().join(',')`. */
  function IdsKey(tools: seq<Record>): string
  {
    Join(StableSort(Ids(tools), CodeOrder()), ',')
  }

  lemma CodeOrderTotal()
    ensures TotalPreorder(CodeOrder())
  {
    forall a, b
      ensures StrLe(a, b) || StrLe(b, a)
    {
      StrLeTotal(a, b);
    }
    forall a, b, c | StrLe(a, b) && StrLe(b, c)
      ensures StrLe(a, c)
    {
      StrLeTrans(a, b, c);
    }
  }

  /** The key lists the visible ids, each as often as it is visible, in
      code-point order. */
  lemma IdsKeySorted(tools: seq<Record>)
    ensures var s := StableSort(Ids(tools), CodeOrder());
      multiset(s) == multiset(Ids(tools)) && forall x, y :: 0 <= x < y < |s| ==> StrLe(s[x], s[y])
  {
    CodeOrderTotal();
    StableSortCorrect(Ids(tools), CodeOrder());
  }

  class AppState {
    var scopeAll: bool
    var scopeIds: Option<seq<string>>
    var pathKey: JsVal
    var isResetting: bool
    var hasVisitedAnyPhase: bool
    var previousToolIds: string

    /** The state at load: every tool in scope. */
    constructor ()
      ensures scopeAll && scopeIds.None? && pathKey == Null && !isResetting
      ensures !hasVisitedAnyPhase && previousToolIds == ""
    {
      scopeAll := true;
      scopeIds := None;
      pathKey := Null;
      isResetting := false;
      hasVisitedAnyPhase := false;
      previousToolIds := "";
    }

    /** The tools the state makes visible. */
    function Visible(tb: map<string, Record>, order: seq<string>): seq<Record>
      reads this
    {
      ComputeVisibleTools(tb, order, scopeAll, scopeIds)
    }

    /** `handleScopeSet(event)`: ignored during a reset unless it sets the
        scope to "all"; otherwise the scope is taken from the detail, a
        visited phase is remembered, and a render is scheduled exactly when
        the sorted visible ids changed. */
    method HandleScopeSet(detail: ScopeDetail, tb: map<string, Record>, order: seq<string>) returns (scheduled: bool)
      modifies this
      ensures old(isResetting) && !Truthy(detail.all) ==>
                !scheduled && scopeAll == old(scopeAll) && scopeIds == old(scopeIds) && pathKey == old(pathKey) &&
                hasVisitedAnyPhase == old(hasVisitedAnyPhase) && previousToolIds == old(previousToolIds)
      ensures !(old(isResetting) && !Truthy(detail.all)) ==>
                && scopeAll == (Truthy(detail.all) || (detail.ids.None? && !Truthy(detail.pathKey)))
                && scopeIds == detail.ids
                && pathKey == Or(detail.pathKey, Null)
                && hasVisitedAnyPhase == (old(hasVisitedAnyPhase) || VisitsPhase(detail.pathKey))
                && previousToolIds == IdsKey(Visible(tb, order))
                && scheduled == (IdsKey(Visible(tb, order)) != old(previousToolIds))
      ensures isResetting == old(isResetting)
    {
      scheduled := false;
      if isResetting && !Truthy(detail.all) {
        return;
      }
      scopeAll := Truthy(detail.all) || (detail.ids.None? && !Truthy(detail.pathKey));
      scopeIds := detail.ids;
      pathKey := Or(detail.pathKey, Null);
      if Truthy(pathKey) && pathKey.Str? {
        var first := FirstPhase(pathKey.s);
        if first != "" {
          hasVisitedAnyPhase := true;
        }
      }
      var tools := ComputeVisibleTools(tb, order, scopeAll, scopeIds);
      var currentToolIds := IdsKey(tools);
      if currentToolIds != previousToolIds {
        previousToolIds := currentToolIds;
        scheduled := true;
      }
    }

    /** `handleReset()`: back to every tool in scope, unless a reset is
        already in progress. */
    method HandleReset()
      modifies this
      ensures old(isResetting) ==>
                scopeAll == old(scopeAll) && scopeIds == old(scopeIds) && pathKey == old(pathKey) &&
                hasVisitedAnyPhase == old(hasVisitedAnyPhase) && previousToolIds == old(previousToolIds)
      ensures !old(isResetting) ==>
                scopeAll && scopeIds.None? && pathKey == Null && !hasVisitedAnyPhase && previousToolIds == ""
      ensures isResetting == old(isResetting)
    {
      if isResetting {
        return;
      }
      scopeAll := true;
      scopeIds := None;
      pathKey := Null;
      hasVisitedAnyPhase := false;
      previousToolIds := "";
    }
  }
}

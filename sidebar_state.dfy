/**
  The sidebar's per-phase memory (`SidebarState`): for every phase the
  active '/'-path and the set of expanded paths; and the two lookups that
  turn a '/'-path into a registry key with its tool ids and a phase into a
  colour.
*/
module SidebarState {
  import opened Text
  import opened Base
  import opened Sorting
  import opened Helpers

  /** `{activePathSlash, expanded}`; the `Set` of expanded paths is kept in
      insertion order, as JavaScript iterates it. */
  datatype PhaseEntry = PhaseEntry(activePathSlash: Option<string>, expanded: seq<string>)

  const FreshEntry := PhaseEntry(None, [])

  type Memory = map<string, PhaseEntry>

  // ---------------------------------------------------------------------------
  // The memory as values
  // ---------------------------------------------------------------------------

  /** `ensurePhase`: a missing phase gets a fresh entry. */
  function Ensured(m: Memory, ph: string): (r: Memory)
    ensures ph in r && r.Keys == m.Keys + {ph}
  {
    if ph in m then m else m[ph := FreshEntry]
  }

  function SetActive(m: Memory, ph: string, fullSlash: string): (r: Memory)
  {
    var e := Ensured(m, ph)[ph];
    Ensured(m, ph)[ph := e.(activePathSlash := Some(fullSlash))]
  }

  /** `activePathSlash || null`. */
  function ActiveOf(m: Memory, ph: string): (r: Option<string>)
  {
    var e := Ensured(m, ph)[ph];
    if e.activePathSlash.Some? && e.activePathSlash.value != "" then e.activePathSlash else None
  }

  /** `Set.add`: appended unless already there. */
  function AddPath(xs: seq<string>, path: string): (r: seq<string>)
  {
    if path in xs then xs else xs + [path]
  }

  /** `expandBranch`: the path is added to the phase's expanded set. */
  function Expand(m: Memory, ph: string, path: string): (r: Memory)
  {
    var e := Ensured(m, ph)[ph];
    Ensured(m, ph)[ph := e.(expanded := AddPath(e.expanded, path))]
  }

  /** `p === prefix || p.startsWith(prefix + '/')`. */
  predicate InSubtree(prefix: string, p: string)
  {
    p == prefix || StartsWith(p, prefix + "/")
  }

  /** The paths that survive collapsing `prefix`, in their order. */
  function Collapse(xs: seq<string>, prefix: string): (r: seq<string>)
    ensures |r| <= |xs|
  {
    if xs == [] then []
    else if InSubtree(prefix, xs[|xs| - 1]) then Collapse(xs[..|xs| - 1], prefix)
    else Collapse(xs[..|xs| - 1], prefix) + [xs[|xs| - 1]]
  }

  function CollapseIn(m: Memory, ph: string, prefix: string): (r: Memory)
  {
    var e := Ensured(m, ph)[ph];
    Ensured(m, ph)[ph := e.(expanded := Collapse(e.expanded, prefix))]
  }

  /** Fewer or as many '/'-fields. */
  function DepthLe(): (string, string) -> bool
  {
    (a: string, b: string) => SegmentCount(a, '/') <= SegmentCount(b, '/')
  }

  /** `[...expanded].sort` by number of '/'-fields (a stable sort). */
  function ExpandedOrder(xs: seq<string>): seq<string>
  {
    StableSort(xs, DepthLe())
  }

  function Reset(m: Memory): (r: Memory)
  {
    map k | k in m :: FreshEntry
  }

  // ---------------------------------------------------------------------------
  // What the memory promises
  // ---------------------------------------------------------------------------

  /** `ensurePhase` never alters an existing entry and adds at most the one
      asked for. */
  lemma EnsuredKeeps(m: Memory, ph: string)
    ensures forall k :: k in m ==> Ensured(m, ph)[k] == m[k]
    ensures ph !in m ==> Ensured(m, ph)[ph] == FreshEntry
  {
  }

  /** The active path reads back as set, or null when set to ''; an unset
      phase reads as null. */
  lemma ActiveAfterSet(m: Memory, ph: string, other: string, fullSlash: string)
    ensures ActiveOf(SetActive(m, ph, fullSlash), ph) == if fullSlash == "" then None else Some(fullSlash)
    ensures other != ph ==> ActiveOf(SetActive(m, ph, fullSlash), other) == ActiveOf(m, other)
    ensures ph !in m ==> ActiveOf(m, ph) == None
  {
  }

  /** After `expandBranch(ph, p)`, `p` is expanded in `ph`, nothing else is
      added and other phases are unchanged. */
  lemma ExpandSpec(m: Memory, ph: string, path: string)
    ensures path in Expand(m, ph, path)[ph].expanded
    ensures forall x :: x in Expand(m, ph, path)[ph].expanded <==> x == path || x in Ensured(m, ph)[ph].expanded
    ensures Expand(m, ph, path)[ph].activePathSlash == Ensured(m, ph)[ph].activePathSlash
    ensures forall k :: k in m && k != ph ==> k in Expand(m, ph, path) && Expand(m, ph, path)[k] == m[k]
  {
  }

  /** Collapsing removes exactly `prefix` and the paths below it and keeps the
      order of the rest. */
  lemma {:induction false} CollapseSpec(xs: seq<string>, prefix: string)
    ensures forall x :: x in Collapse(xs, prefix) <==> x in xs && !InSubtree(prefix, x)
    ensures Distinct(xs) ==> Distinct(Collapse(xs, prefix))
  {
    if xs != [] {
      var init := xs[..|xs| - 1];
      CollapseSpec(init, prefix);
      assert forall x :: x in xs <==> x in init || x == xs[|xs| - 1];
      if Distinct(xs) {
        assert Distinct(init);
      }
    }
  }

  /** A sibling whose name only starts like the prefix survives: collapsing
      "A/B" keeps "A/Bx". */
  lemma CollapseKeepsSibling()
    ensures !InSubtree("A/B", "A/Bx")
    ensures InSubtree("A/B", "A/B/c")
  {
    assert "A/B/" <= "A/B/c";
    assert "A/Bx"[3] != "A/B/"[3];
  }

  /** The expanded paths come out as a permutation, parents (fewer fields)
      before children, ties in insertion order. */
  lemma ExpandedOrderSpec(xs: seq<string>)
    ensures multiset(ExpandedOrder(xs)) == multiset(xs)
    ensures forall a, b :: 0 <= a < b < |xs| ==>
              SegmentCount(ExpandedOrder(xs)[a], '/') <= SegmentCount(ExpandedOrder(xs)[b], '/')
    ensures IsPermutation(SortIndices(xs, DepthLe()), |xs|) && SortedBy(xs, DepthLe(), SortIndices(xs, DepthLe()))
  {
    StableSortCorrect(xs, DepthLe());
  }

  /** After a reset every phase is still there, with no active path and no
      expanded branch. */
  lemma ResetSpec(m: Memory)
    ensures Reset(m).Keys == m.Keys
    ensures forall k :: k in Reset(m) ==> ActiveOf(Reset(m), k) == None && Reset(m)[k].expanded == []
  {
  }

  // ---------------------------------------------------------------------------
  // The memory object
  // ---------------------------------------------------------------------------

  /** `phaseMemory` and the functions that update it. */
  class PhaseMemory {
    var mem: Memory

    ghost predicate Valid()
      reads this
    {
      forall ph :: ph in mem ==> Distinct(mem[ph].expanded)
    }

    /** One fresh entry per taxonomy phase. */
    constructor (phases: seq<string>)
      ensures Valid()
      ensures forall ph :: ph in mem <==> ph in phases
      ensures forall ph :: ph in mem ==> mem[ph] == FreshEntry
    {
      mem := map ph | ph in phases :: FreshEntry;
    }

    method EnsurePhase(ph: string) returns (e: PhaseEntry)
      requires Valid()
      modifies this
      ensures Valid()
      ensures mem == Ensured(old(mem), ph) && e == mem[ph]
    {
      if ph !in mem {
        mem := mem[ph := FreshEntry];
      }
      e := mem[ph];
    }

    method SetActivePathSlash(ph: string, fullSlash: string)
      requires Valid()
      modifies this
      ensures Valid()
      ensures mem == SetActive(old(mem), ph, fullSlash)
    {
      var e := EnsurePhase(ph);
      mem := mem[ph := e.(activePathSlash := Some(fullSlash))];
    }

    method GetActivePathSlash(ph: string) returns (r: Option<string>)
      requires Valid()
      modifies this
      ensures Valid()
      ensures mem == Ensured(old(mem), ph)
      ensures r == ActiveOf(old(mem), ph)
    {
      var e := EnsurePhase(ph);
      r := if e.activePathSlash.Some? && e.activePathSlash.value != "" then e.activePathSlash else None;
    }

    method ExpandBranch(ph: string, path: string)
      requires Valid()
      modifies this
      ensures Valid()
      ensures mem == Expand(old(mem), ph, path)
    {
      var e := EnsurePhase(ph);
      if path !in e.expanded {
        mem := mem[ph := e.(expanded := e.expanded + [path])];
      }
    }

    /** Every path of a snapshot of the set is examined and the matching ones
        are deleted, which keeps the others in their order. */
    method CollapseSubtree(ph: string, prefix: string)
      requires Valid()
      modifies this
      ensures Valid()
      ensures mem == CollapseIn(old(mem), ph, prefix)
    {
      var e := EnsurePhase(ph);
      var snapshot := e.expanded;
      var kept := [];
      for i := 0 to |snapshot|
        invariant kept == Collapse(snapshot[..i], prefix)
      {
        assert snapshot[..i + 1][..i] == snapshot[..i];
        if !InSubtree(prefix, snapshot[i]) {
          kept := kept + [snapshot[i]];
        }
      }
      assert snapshot[..|snapshot|] == snapshot;
      CollapseSpec(snapshot, prefix);
      mem := mem[ph := e.(expanded := kept)];
    }

    method GetExpandedPaths(ph: string) returns (paths: seq<string>)
      requires Valid()
      modifies this
      ensures Valid()
      ensures mem == Ensured(old(mem), ph)
      ensures paths == ExpandedOrder(mem[ph].expanded)
    {
      var e := EnsurePhase(ph);
      paths := ExpandedOrder(e.expanded);
    }

    method ResetPhaseMemory()
      requires Valid()
      modifies this
      ensures Valid()
      ensures mem == Reset(old(mem))
    {
      var todo := mem.Keys;
      while todo != {}
        invariant todo <= mem.Keys && mem.Keys == old(mem).Keys
        invariant forall k :: k in mem ==> mem[k] == if k in todo then old(mem)[k] else FreshEntry
        decreases todo
      {
        var k :| k in todo;
        mem := mem[k := FreshEntry];
        todo := todo - {k};
      }
    }
  }

  // ---------------------------------------------------------------------------
  // From a '/'-path to a registry key and its tools
  // ---------------------------------------------------------------------------

  /** `(registry && (registry.name || registry.title)) || 'Root'`. */
  function RootOf(registry: Option<Record>): (root: string)
    ensures registry.None? ==> root == RootName
  {
    if registry.None? then RootName
    else
      var v := Or(Get(registry.value, "name"), Get(registry.value, "title"));
      if Truthy(v) then ToStr(v) else RootName
  }

  /** The key test of the fallback scan, as written. */
  predicate KeyMatches(k: string, suffix: string)
  {
    k == suffix || EndsWith(k, ">" + suffix) || EndsWith(k, suffix)
  }

  /** The scan of the registry's node keys: a matching key replaces the best
      so far when that is still unset ("" stands for null, both falsy) or
      shorter, so the first of the longest matches wins. */
  function LongestMatch(keys: seq<string>, suffix: string): (best: string)
  {
    if keys == [] then ""
    else
      var b := LongestMatch(keys[..|keys| - 1], suffix);
      var k := keys[|keys| - 1];
      if KeyMatches(k, suffix) && (b == "" || |k| > |b|) then k else b
  }

  /** `{pathKey, ids}`; the ids are the registry's set, in no order. */
  datatype Resolved = Resolved(pathKey: string, ids: set<string>)

  /** `resolveToolIdsForSlashPath` on a given registry view. */
  function Resolve(root: string, slashPath: string, keys: seq<string>, under: map<string, set<string>>): (r: Resolved)
  {
    var suffix := ReplaceChar(slashPath, '/', '>');
    var cand := if suffix in under then suffix else if root + ">" + suffix in under then root + ">" + suffix else "";
    var best := if cand != "" then cand else LongestMatch(keys, suffix);
    if best == "" then Resolved(root + ">" + suffix, {})
    else Resolved(best, if best in under then under[best] else {})
  }

  /** The first two tests of the key scan add nothing: a key matches exactly
      when it ends with the suffix, '>' boundary or not. */
  lemma KeyMatchesIsEndsWith(k: string, suffix: string)
    ensures KeyMatches(k, suffix) <==> EndsWith(k, suffix)
  {
    if EndsWith(k, ">" + suffix) {
      assert k[|k| - |suffix|..] == (">" + suffix)[1..];
    }
  }

  /** The scan's result is unset or a matching key of the list. */
  lemma {:induction false} LongestMatchFound(keys: seq<string>, suffix: string)
    ensures LongestMatch(keys, suffix) != "" ==> LongestMatch(keys, suffix) in keys && EndsWith(LongestMatch(keys, suffix), suffix)
  {
    if keys != [] {
      LongestMatchFound(keys[..|keys| - 1], suffix);
      KeyMatchesIsEndsWith(keys[|keys| - 1], suffix);
    }
  }

  /** No non-empty key ending with the suffix is longer than the result. */
  lemma {:induction false} LongestMatchLongest(keys: seq<string>, suffix: string)
    ensures forall k :: k in keys && k != "" && EndsWith(k, suffix) ==> LongestMatch(keys, suffix) != "" && |k| <= |LongestMatch(keys, suffix)|
  {
    if keys != [] {
      var init := keys[..|keys| - 1];
      LongestMatchLongest(init, suffix);
      KeyMatchesIsEndsWith(keys[|keys| - 1], suffix);
      assert forall x :: x in keys ==> x in init || x == keys[|keys| - 1];
    }
  }

  /** Of the longest matches the first wins: a key ending with the suffix
      and as long as the result has the result at or before it. */
  lemma {:induction false} LongestMatchFirst(keys: seq<string>, suffix: string, i: nat)
    requires i < |keys| && keys[i] != "" && EndsWith(keys[i], suffix)
    requires |keys[i]| == |LongestMatch(keys, suffix)|
    ensures LongestMatch(keys, suffix) in keys[..i + 1]
  {
    var init := keys[..|keys| - 1];
    var k := keys[|keys| - 1];
    KeyMatchesIsEndsWith(k, suffix);
    if i < |init| {
      assert keys[i] == init[i];
      LongestMatchLongest(init, suffix);
      assert keys[i] in init;
      if LongestMatch(keys, suffix) == LongestMatch(init, suffix) {
        LongestMatchFirst(init, suffix, i);
        assert keys[..i + 1] == init[..i + 1];
      }
    } else {
      assert keys[..i + 1] == keys;
      LongestMatchFound(keys, suffix);
    }
  }

  /** What the lookup answers: a registry candidate when one is registered,
      else the longest node key ending with the path, else the synthesized
      key with no tools; the tools are always the registered set of the key
      chosen, or none. */
  lemma ResolveSpec(root: string, slashPath: string, keys: seq<string>, under: map<string, set<string>>)
    ensures var r := Resolve(root, slashPath, keys, under);
            var suffix := ReplaceChar(slashPath, '/', '>');
            && (r.ids != {} ==> r.pathKey in under && r.ids == under[r.pathKey])
            && (r.pathKey in under && r.pathKey != root + ">" + suffix ==> r.ids == under[r.pathKey])
            && (r.pathKey !in under ==> r.ids == {})
            && (suffix != "" && suffix in under ==> r.pathKey == suffix)
            && (suffix !in under && root + ">" + suffix in under ==> r.pathKey == root + ">" + suffix)
            && (suffix !in under && root + ">" + suffix !in under ==>
                  (r.pathKey in keys && EndsWith(r.pathKey, suffix)
                   && forall k :: k in keys && EndsWith(k, suffix) ==> |k| <= |r.pathKey|)
                  || (r.pathKey == root + ">" + suffix && r.ids == {}
                      && forall k :: k in keys && k != "" ==> !EndsWith(k, suffix)))
  {
    var suffix := ReplaceChar(slashPath, '/', '>');
    LongestMatchFound(keys, suffix);
    LongestMatchLongest(keys, suffix);
    assert |root + ">" + suffix| > 0;
  }

  /** `resolveToolIdsForSlashPath`: the candidates first, then the scan of the
      node keys. */
  method ResolveToolIds(registry: Option<Record>, slashPath: string, keys: seq<string>, under: map<string, set<string>>)
    returns (r: Resolved)
    ensures r == Resolve(RootOf(registry), slashPath, keys, under)
  {
    var root := RootOf(registry);
    var suffix := ReplaceChar(slashPath, '/', '>');
    var candidates := [suffix, root + ">" + suffix];
    assert candidates[0] == suffix && candidates[1] == root + ">" + suffix;
    var bestKey := "";
    var found := false;
    var c := 0;
    while c < |candidates| && !found
      invariant 0 <= c <= |candidates|
      invariant !found ==> bestKey == "" && forall j :: 0 <= j < c ==> candidates[j] !in under
      invariant found ==> 1 <= c && bestKey == candidates[c - 1] && candidates[c - 1] in under
                          && forall j :: 0 <= j < c - 1 ==> candidates[j] !in under
    {
      if candidates[c] in under {
        bestKey := candidates[c];
        found := true;
      }
      c := c + 1;
    }
    assert bestKey == if suffix in under then suffix else if root + ">" + suffix in under then root + ">" + suffix else "";
    if bestKey == "" {
      for i := 0 to |keys|
        invariant bestKey == LongestMatch(keys[..i], suffix)
      {
        assert keys[..i + 1][..i] == keys[..i];
        var k := keys[i];
        if k == suffix || EndsWith(k, ">" + suffix) || EndsWith(k, suffix) {
          if bestKey == "" || |k| > |bestKey| {
            bestKey := k;
          }
        }
      }
      assert keys[..|keys|] == keys;
    }
    var ids := if bestKey != "" && bestKey in under then under[bestKey] else {};
    if bestKey == "" {
      bestKey := root + ">" + suffix;
    }
    r := Resolved(bestKey, ids);
  }

  // ---------------------------------------------------------------------------
  // A phase's colour
  // ---------------------------------------------------------------------------

  /** The first truthy `phaseColor` among the tools of `ids` that are known. */
  function FirstColor(ids: seq<string>, toolsById: map<string, Record>): (c: Option<JsVal>)
  {
    if ids == [] then None
    else if ids[0] in toolsById && Truthy(Get(toolsById[ids[0]], "phaseColor")) then Some(Get(toolsById[ids[0]], "phaseColor"))
    else FirstColor(ids[1..], toolsById)
  }

  /** The colour found is a tool's own, and nothing earlier had one; with
      none, every listed tool lacks a colour. */
  lemma {:induction false} FirstColorSpec(ids: seq<string>, toolsById: map<string, Record>)
    ensures FirstColor(ids, toolsById).Some? ==>
              exists i :: 0 <= i < |ids| && ids[i] in toolsById && FirstColor(ids, toolsById).value == Get(toolsById[ids[i]], "phaseColor")
                && Truthy(FirstColor(ids, toolsById).value)
                && forall j :: 0 <= j < i && ids[j] in toolsById ==> !Truthy(Get(toolsById[ids[j]], "phaseColor"))
    ensures FirstColor(ids, toolsById).None? ==>
              forall j :: 0 <= j < |ids| && ids[j] in toolsById ==> !Truthy(Get(toolsById[ids[j]], "phaseColor"))
  {
    if ids != [] && !(ids[0] in toolsById && Truthy(Get(toolsById[ids[0]], "phaseColor"))) {
      FirstColorSpec(ids[1..], toolsById);
      if FirstColor(ids, toolsById).Some? {
        var i :| 0 <= i < |ids[1..]| && ids[1..][i] in toolsById && FirstColor(ids[1..], toolsById).value == Get(toolsById[ids[1..][i]], "phaseColor")
                 && Truthy(FirstColor(ids[1..], toolsById).value)
                 && forall j :: 0 <= j < i && ids[1..][j] in toolsById ==> !Truthy(Get(toolsById[ids[1..][j]], "phaseColor"));
        assert ids[i + 1] == ids[1..][i];
        forall j | 0 <= j < i + 1 && ids[j] in toolsById
          ensures !Truthy(Get(toolsById[ids[j]], "phaseColor"))
        {
          if j > 0 {
            assert ids[j] == ids[1..][j - 1];
          }
        }
      } else {
        forall j | 0 <= j < |ids| && ids[j] in toolsById
          ensures !Truthy(Get(toolsById[ids[j]], "phaseColor"))
        {
          if j > 0 {
            assert ids[j] == ids[1..][j - 1];
          }
        }
      }
    }
  }

  /** `derivePhaseColor`: a tool's own colour, else the phase's. */
  function PhaseColor(phaseKey: string, ids: seq<string>, toolsById: map<string, Record>): (c: JsVal)
  {
    match FirstColor(ids, toolsById)
    case Some(v) => v
    case None => Str(GetPhaseColor(phaseKey))
  }

  /** A colour is always produced; with no coloured tool it is the phase's
      palette entry or the accent. */
  lemma PhaseColorSpec(phaseKey: string, ids: seq<string>, toolsById: map<string, Record>)
    ensures Truthy(PhaseColor(phaseKey, ids, toolsById))
    ensures FirstColor(ids, toolsById).None? && phaseKey in PhaseColors ==>
              PhaseColor(phaseKey, ids, toolsById) == Str(PhaseColors[phaseKey])
    ensures FirstColor(ids, toolsById).None? && phaseKey !in PhaseColors ==>
              PhaseColor(phaseKey, ids, toolsById) == Str(DefaultPhaseColor)
  {
    FirstColorSpec(ids, toolsById);
  }

  /** The loop of `derivePhaseColor`: the first tool colour, if any. */
  method FirstToolColor(ids: seq<string>, toolsById: map<string, Record>) returns (c: Option<JsVal>)
    ensures c == FirstColor(ids, toolsById)
  {
    for i := 0 to |ids|
      invariant FirstColor(ids, toolsById) == FirstColor(ids[i..], toolsById)
    {
      var id := ids[i];
      if id in toolsById && Truthy(Get(toolsById[id], "phaseColor")) {
        return Some(Get(toolsById[id], "phaseColor"));
      }
      assert ids[i..][1..] == ids[i + 1..];
    }
    c := None;
  }

  /** `derivePhaseColor`: a tool's own colour, else the phase's. */
  method DerivePhaseColor(phaseKey: string, ids: seq<string>, toolsById: map<string, Record>) returns (c: JsVal)
    ensures c == PhaseColor(phaseKey, ids, toolsById)
  {
    var found := FirstToolColor(ids, toolsById);
    c := if found.Some? then found.value else Str(GetPhaseColor(phaseKey));
  }
}

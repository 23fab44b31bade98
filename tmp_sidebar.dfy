/**
  The draft sidebar's phase memory (`TmpSidebar`): per phase the active
  path, a `visited` tree of every path activated (without its phase), and
  the expanded paths.
*/
module TmpSidebar {
  import opened Text
  import opened Base
  import opened Taxonomy
  import opened SidebarState

  datatype TmpEntry = TmpEntry(activePath: Option<string>, visited: Node, expanded: seq<string>)

  const FreshTmp := TmpEntry(None, Dict([]), [])

  type TmpMemory = map<string, TmpEntry>

  function EnsuredTmp(m: TmpMemory, ph: string): (r: TmpMemory)
    ensures ph in r && r.Keys == m.Keys + {ph}
  {
    if ph in m then m else m[ph := FreshTmp]
  }

  /** `fullPath.split('/').slice(1)`: the path without its phase. */
  function BelowPhase(fullPath: string): (parts: seq<string>)
  {
    Split(fullPath, '/')[1..]
  }

  /** `setActivePath`: the path becomes active and its segments below the
      phase are added to the visited tree. */
  function SetActiveTmp(m: TmpMemory, ph: string, fullPath: string): (r: TmpMemory)
    requires forall k :: k in m ==> AllDict(m[k].visited)
  {
    var e := EnsuredTmp(m, ph)[ph];
    EnsuredTmp(m, ph)[ph := e.(activePath := Some(fullPath), visited := Insert(e.visited, BelowPhase(fullPath)))]
  }

  function ActiveTmp(m: TmpMemory, ph: string): (r: Option<string>)
  {
    var e := EnsuredTmp(m, ph)[ph];
    if e.activePath.Some? && e.activePath.value != "" then e.activePath else None
  }

  /** The paths of a list that are not in `drop`, in order. */
  function Without(xs: seq<string>, drop: seq<string>): (r: seq<string>)
  {
    if xs == [] then []
    else if xs[|xs| - 1] in drop then Without(xs[..|xs| - 1], drop)
    else Without(xs[..|xs| - 1], drop) + [xs[|xs| - 1]]
  }

  // ---------------------------------------------------------------------------
  // What the memory promises
  // ---------------------------------------------------------------------------

  /** The visited tree holds exactly what it held plus the prefixes of the
      new path below its phase: no branch is ever deleted. */
  lemma VisitedSpec(m: TmpMemory, ph: string, fullPath: string, q: Path)
    requires forall k :: k in m ==> AllDict(m[k].visited)
    ensures HasPath(SetActiveTmp(m, ph, fullPath)[ph].visited, q) <==>
              (ph in m && HasPath(m[ph].visited, q)) || IsNodeOf(q, BelowPhase(fullPath))
    ensures SetActiveTmp(m, ph, fullPath)[ph].activePath == Some(fullPath)
    ensures forall k :: k in m && k != ph ==> SetActiveTmp(m, ph, fullPath)[k] == m[k]
  {
    var e := EnsuredTmp(m, ph)[ph];
    InsertHasPath(e.visited, BelowPhase(fullPath), q);
    if ph !in m {
      EmptyHasNoPath(q);
    }
  }

  /** A phase that was never set has no active path; after a set it reads
      back, unless it was set to ''. */
  lemma ActiveTmpSpec(m: TmpMemory, ph: string, fullPath: string)
    requires forall k :: k in m ==> AllDict(m[k].visited)
    ensures ph !in m ==> ActiveTmp(m, ph) == None
    ensures ActiveTmp(SetActiveTmp(m, ph, fullPath), ph) == if fullPath == "" then None else Some(fullPath)
  {
  }

  lemma {:induction false} WithoutNothing(xs: seq<string>)
    ensures Without(xs, []) == xs
  {
    if xs != [] {
      WithoutNothing(xs[..|xs| - 1]);
    }
  }

  lemma {:induction false} WithoutAppend(xs: seq<string>, drop: seq<string>, x: string)
    ensures Without(Without(xs, drop), [x]) == Without(xs, drop + [x])
  {
    if xs != [] {
      var init := xs[..|xs| - 1];
      WithoutAppend(init, drop, x);
      var w := Without(init, drop);
      var last := xs[|xs| - 1];
      if last !in drop {
        assert (w + [last])[..|w + [last]| - 1] == w;
      }
    }
  }

  /** Dropping exactly the subtree's paths is collapsing the subtree. */
  lemma {:induction false} WithoutIsCollapse(xs: seq<string>, drop: seq<string>, prefix: string)
    requires forall x :: x in xs ==> (x in drop <==> InSubtree(prefix, x))
    ensures Without(xs, drop) == Collapse(xs, prefix)
  {
    if xs != [] {
      WithoutIsCollapse(xs[..|xs| - 1], drop, prefix);
    }
  }

  // ---------------------------------------------------------------------------
  // The memory object
  // ---------------------------------------------------------------------------

  class TmpPhaseMemory {
    var mem: TmpMemory

    ghost predicate Valid()
      reads this
    {
      forall ph :: ph in mem ==> AllDict(mem[ph].visited)
    }

    constructor (phases: seq<string>)
      ensures Valid()
      ensures forall ph :: ph in mem <==> ph in phases
      ensures forall ph :: ph in mem ==> mem[ph] == FreshTmp
    {
      mem := map ph | ph in phases :: FreshTmp;
    }

    method EnsurePhase(ph: string) returns (e: TmpEntry)
      requires Valid()
      modifies this
      ensures Valid()
      ensures mem == EnsuredTmp(old(mem), ph) && e == mem[ph]
    {
      if ph !in mem {
        mem := mem[ph := FreshTmp];
      }
      e := mem[ph];
    }

    /** The nested walk that extends `visited` in place is the `setdefault`
        walk `Insert`. */
    method SetActivePath(ph: string, fullPath: string)
      requires Valid()
      modifies this
      ensures Valid()
      ensures mem == SetActiveTmp(old(mem), ph, fullPath)
    {
      var e := EnsurePhase(ph);
      var parts := Split(fullPath, '/')[1..];
      mem := mem[ph := e.(activePath := Some(fullPath), visited := Insert(e.visited, parts))];
    }

    method GetActivePath(ph: string) returns (r: Option<string>)
      requires Valid()
      modifies this
      ensures Valid()
      ensures mem == EnsuredTmp(old(mem), ph)
      ensures r == ActiveTmp(old(mem), ph)
    {
      var e := EnsurePhase(ph);
      r := if e.activePath.Some? && e.activePath.value != "" then e.activePath else None;
    }

    method ExpandBranch(ph: string, path: string)
      requires Valid()
      modifies this
      ensures Valid()
      ensures mem == EnsuredTmp(old(mem), ph)[ph := EnsuredTmp(old(mem), ph)[ph].(expanded := AddPath(EnsuredTmp(old(mem), ph)[ph].expanded, path))]
    {
      var e := EnsurePhase(ph);
      if path !in e.expanded {
        mem := mem[ph := e.(expanded := e.expanded + [path])];
      }
    }

    /** The paths to drop are collected first, then deleted one by one. */
    method CollapseSubtree(ph: string, prefix: string)
      requires Valid()
      modifies this
      ensures Valid()
      ensures mem == EnsuredTmp(old(mem), ph)[ph := EnsuredTmp(old(mem), ph)[ph].(expanded := Collapse(EnsuredTmp(old(mem), ph)[ph].expanded, prefix))]
    {
      var e := EnsurePhase(ph);
      var xs := e.expanded;
      var toDrop := [];
      for i := 0 to |xs|
        invariant forall x :: x in toDrop <==> x in xs[..i] && InSubtree(prefix, x)
        invariant mem == EnsuredTmp(old(mem), ph) && Valid()
      {
        assert xs[..i + 1] == xs[..i] + [xs[i]];
        if InSubtree(prefix, xs[i]) {
          toDrop := toDrop + [xs[i]];
        }
      }
      assert xs[..|xs|] == xs;
      var kept := xs;
      WithoutNothing(xs);
      for j := 0 to |toDrop|
        invariant kept == Without(xs, toDrop[..j])
        invariant mem == EnsuredTmp(old(mem), ph) && Valid()
      {
        WithoutAppend(xs, toDrop[..j], toDrop[j]);
        assert toDrop[..j + 1] == toDrop[..j] + [toDrop[j]];
        kept := Without(kept, [toDrop[j]]);
      }
      assert toDrop[..|toDrop|] == toDrop;
      WithoutIsCollapse(xs, toDrop, prefix);
      mem := mem[ph := e.(expanded := kept)];
    }

    method GetExpandedPaths(ph: string) returns (paths: seq<string>)
      requires Valid()
      modifies this
      ensures Valid()
      ensures mem == EnsuredTmp(old(mem), ph)
      ensures paths == ExpandedOrder(mem[ph].expanded)
    {
      var e := EnsurePhase(ph);
      paths := ExpandedOrder(e.expanded);
    }
  }
}

/**
  The category taxonomy: a nested dictionary whose keys are category
  segments, in insertion order. Leaves are empty dictionaries when built by
  the scripts; a parsed file may also hold `null` or scalar values.

  `Insert` is the `setdefault` walk that adds one category path, and
  `InsertAll` folds it over a list of paths, which is how every script
  builds the tree.
*/
module Taxonomy {
  import opened Base

  type Path = seq<string>

  datatype Node = Dict(entries: seq<Entry>) | Null | Leaf
  datatype Entry = Entry(key: string, value: Node)

  function Keys(es: seq<Entry>): (ks: seq<string>)
    ensures |ks| == |es|
    ensures forall i :: 0 <= i < |es| ==> ks[i] == es[i].key
  {
    if es == [] then [] else [es[0].key] + Keys(es[1..])
  }

  /** First position of `k` in `ks`, or -1. */
  function IndexOf(ks: seq<string>, k: string): (i: int)
    ensures -1 <= i < |ks|
    ensures i >= 0 ==> ks[i] == k && forall j :: 0 <= j < i ==> ks[j] != k
    ensures i < 0 <==> k !in ks
  {
    if ks == [] then -1
    else if ks[0] == k then 0
    else
      var j := IndexOf(ks[1..], k);
      if j < 0 then -1 else j + 1
  }

  /** Position of the entry with key `k` (`k in d`), or -1. */
  function Find(es: seq<Entry>, k: string): (i: int)
    ensures -1 <= i < |es|
    ensures i >= 0 ==> es[i].key == k
    ensures i < 0 <==> k !in Keys(es)
  {
    IndexOf(Keys(es), k)
  }

  ghost predicate UniqueKeys(es: seq<Entry>)
  {
    forall i, j :: 0 <= i < j < |es| ==> es[i].key != es[j].key
  }

  /** A dictionary value: no key twice, at any depth. */
  ghost predicate WellFormed(n: Node)
    decreases n
  {
    n.Dict? ==> UniqueKeys(n.entries) && forall i :: 0 <= i < |n.entries| ==> WellFormed(n.entries[i].value)
  }

  /** Every value is itself a dictionary, as in the trees the scripts build. */
  ghost predicate AllDict(n: Node)
    decreases n
  {
    n.Dict? && forall i :: 0 <= i < |n.entries| ==> AllDict(n.entries[i].value)
  }

  /** The value reached by following `p` through nested dictionaries. */
  function At(n: Node, p: Path): (r: Option<Node>)
    decreases |p|
  {
    if p == [] then Some(n)
    else if !n.Dict? then None
    else
      var i := Find(n.entries, p[0]);
      if i < 0 then None else At(n.entries[i].value, p[1..])
  }

  /** `p` names a node of the tree. */
  ghost predicate HasPath(n: Node, p: Path)
  {
    p != [] && At(n, p).Some?
  }

  /** One `setdefault` walk: every segment of `p` is looked up and created as
      an empty dictionary when missing. */
  function Insert(n: Node, p: Path): (r: Node)
    requires AllDict(n)
    ensures AllDict(r)
    decreases |p|
  {
    if p == [] then n
    else
      var es := n.entries;
      var i := Find(es, p[0]);
      if i < 0 then
        Dict(es + [Entry(p[0], Insert(Dict([]), p[1..]))])
      else
        Dict(es[i := Entry(p[0], Insert(es[i].value, p[1..]))])
  }

  /** The paths inserted one after the other. */
  function InsertAll(t: Node, ps: seq<Path>): (r: Node)
    requires AllDict(t)
    ensures AllDict(r)
  {
    if ps == [] then t else Insert(InsertAll(t, ps[..|ps| - 1]), ps[|ps| - 1])
  }

  /** The tree of a list of paths, built from an empty dictionary. */
  function Tree(ps: seq<Path>): (r: Node)
    ensures AllDict(r)
  {
    InsertAll(Dict([]), ps)
  }

  /** `q` is a non-empty prefix of `p`. */
  predicate IsNodeOf(q: Path, p: Path)
  {
    0 < |q| <= |p| && q == p[..|q|]
  }

  // ---------------------------------------------------------------------------
  // Lookups in updated entry lists
  // ---------------------------------------------------------------------------

  lemma FindSameKeys(es: seq<Entry>, i: int, e: Entry, k: string)
    requires 0 <= i < |es| && e.key == es[i].key
    ensures Keys(es[i := e]) == Keys(es)
    ensures Find(es[i := e], k) == Find(es, k)
  {
    assert Keys(es[i := e]) == Keys(es);
  }

  lemma {:induction false} IndexOfAppend(ks: seq<string>, x: string, k: string)
    requires x !in ks
    ensures IndexOf(ks + [x], k) == (if k == x then |ks| else IndexOf(ks, k))
  {
    if ks != [] {
      IndexOfAppend(ks[1..], x, k);
      assert (ks + [x])[1..] == ks[1..] + [x];
    }
  }

  lemma KeysAppend(es: seq<Entry>, e: Entry)
    ensures Keys(es + [e]) == Keys(es) + [e.key]
  {
    var a := Keys(es + [e]);
    var b := Keys(es) + [e.key];
    assert |a| == |b|;
    forall j | 0 <= j < |a|
      ensures a[j] == b[j]
    {
      if j < |es| {
        assert (es + [e])[j] == es[j];
      }
    }
  }

  lemma FindAppend(es: seq<Entry>, e: Entry, k: string)
    requires e.key !in Keys(es)
    ensures Keys(es + [e]) == Keys(es) + [e.key]
    ensures Find(es + [e], k) == (if k == e.key then |es| else Find(es, k))
  {
    KeysAppend(es, e);
    IndexOfAppend(Keys(es), e.key, k);
  }

  lemma EmptyHasNoPath(q: Path)
    ensures !HasPath(Dict([]), q)
  {
  }

  // ---------------------------------------------------------------------------
  // What Insert adds
  // ---------------------------------------------------------------------------

  /** After inserting `p`, a node exists iff it existed before or is a
      non-empty prefix of `p`. */
  lemma {:induction false} InsertHasPath(n: Node, p: Path, q: Path)
    requires AllDict(n)
    ensures HasPath(Insert(n, p), q) <==> HasPath(n, q) || IsNodeOf(q, p)
    decreases |p|
  {
    if p != [] && q != [] {
      var es := n.entries;
      var i := Find(es, p[0]);
      var r := Insert(n, p);
      if i < 0 {
        var e := Entry(p[0], Insert(Dict([]), p[1..]));
        FindAppend(es, e, q[0]);
        if q[0] == p[0] {
          assert Find(r.entries, q[0]) == |es|;
          assert At(r, q) == At(e.value, q[1..]);
          assert !HasPath(n, q);
          InsertHasPath(Dict([]), p[1..], q[1..]);
          EmptyHasNoPath(q[1..]);
          PrefixStep(q, p);
        } else {
          assert At(r, q) == At(n, q);
        }
      } else {
        var e := Entry(p[0], Insert(es[i].value, p[1..]));
        FindSameKeys(es, i, e, q[0]);
        if q[0] == p[0] {
          assert At(r, q) == At(e.value, q[1..]);
          assert At(n, q) == At(es[i].value, q[1..]);
          InsertHasPath(es[i].value, p[1..], q[1..]);
          PrefixStep(q, p);
        } else {
          assert At(r, q) == At(n, q);
        }
      }
    }
  }

  lemma PrefixStep(q: Path, p: Path)
    requires q != [] && p != [] && q[0] == p[0]
    ensures IsNodeOf(q, p) <==> |q| == 1 || IsNodeOf(q[1..], p[1..])
  {
    if |q| > 1 && IsNodeOf(q[1..], p[1..]) {
      assert q == [q[0]] + q[1..];
      assert p[..|q|] == [p[0]] + p[1..][..|q| - 1];
    }
  }

  /** Inserting a path that is already present changes nothing. */
  lemma {:induction false} InsertPresent(n: Node, p: Path)
    requires AllDict(n)
    requires p == [] || HasPath(n, p)
    ensures Insert(n, p) == n
    decreases |p|
  {
    if p != [] {
      var es := n.entries;
      var i := Find(es, p[0]);
      if |p| > 1 {
        InsertPresent(es[i].value, p[1..]);
      }
      assert es[i := Entry(p[0], es[i].value)] == es;
    }
  }

  /** `setdefault` reuses existing children: the key list of the top level
      grows by the new segment at the end, or not at all. */
  lemma InsertKeys(n: Node, p: Path)
    requires AllDict(n) && p != []
    ensures p[0] in Keys(n.entries) ==> Keys(Insert(n, p).entries) == Keys(n.entries)
    ensures p[0] !in Keys(n.entries) ==> Keys(Insert(n, p).entries) == Keys(n.entries) + [p[0]]
  {
    var es := n.entries;
    var i := Find(es, p[0]);
    if i < 0 {
      FindAppend(es, Entry(p[0], Insert(Dict([]), p[1..])), p[0]);
    } else {
      FindSameKeys(es, i, Entry(p[0], Insert(es[i].value, p[1..])), p[0]);
    }
  }

  /** Insert never creates a duplicate key. */
  lemma {:induction false} InsertWellFormed(n: Node, p: Path)
    requires AllDict(n) && WellFormed(n)
    ensures WellFormed(Insert(n, p))
    decreases |p|
  {
    if p != [] {
      var es := n.entries;
      var i := Find(es, p[0]);
      var r := Insert(n, p);
      if i < 0 {
        InsertWellFormed(Dict([]), p[1..]);
        assert forall j :: 0 <= j < |es| ==> es[j].key in Keys(es);
      } else {
        InsertWellFormed(es[i].value, p[1..]);
      }
    }
  }

  // ---------------------------------------------------------------------------
  // Folding a list of paths
  // ---------------------------------------------------------------------------

  lemma {:induction false} InsertAllHasPath(t: Node, ps: seq<Path>, q: Path)
    requires AllDict(t)
    ensures HasPath(InsertAll(t, ps), q) <==> HasPath(t, q) || exists p :: p in ps && IsNodeOf(q, p)
  {
    if ps != [] {
      var init := ps[..|ps| - 1];
      InsertAllHasPath(t, init, q);
      InsertHasPath(InsertAll(t, init), ps[|ps| - 1], q);
      assert ps == init + [ps[|ps| - 1]];
    }
  }

  /** The tree of `ps` has a node for `q` iff `q` is a non-empty prefix of
      some path of `ps`. */
  lemma TreeHasPath(ps: seq<Path>, q: Path)
    ensures HasPath(Tree(ps), q) <==> exists p :: p in ps && IsNodeOf(q, p)
  {
    InsertAllHasPath(Dict([]), ps, q);
    EmptyHasNoPath(q);
  }

  lemma {:induction false} InsertAllWellFormed(t: Node, ps: seq<Path>)
    requires AllDict(t) && WellFormed(t)
    ensures WellFormed(InsertAll(t, ps))
  {
    if ps != [] {
      InsertAllWellFormed(t, ps[..|ps| - 1]);
      InsertWellFormed(InsertAll(t, ps[..|ps| - 1]), ps[|ps| - 1]);
    }
  }

  lemma {:induction false} InsertAllAppend(t: Node, a: seq<Path>, b: seq<Path>)
    requires AllDict(t)
    ensures InsertAll(t, a + b) == InsertAll(InsertAll(t, a), b)
  {
    if b == [] {
      assert a + b == a;
    } else {
      InsertAllAppend(t, a, b[..|b| - 1]);
      assert (a + b)[..|a + b| - 1] == a + b[..|b| - 1];
      assert (a + b)[|a + b| - 1] == b[|b| - 1];
    }
  }

  /** Inserting paths that are all present already changes nothing. */
  lemma {:induction false} InsertAllPresent(t: Node, ps: seq<Path>)
    requires AllDict(t)
    requires forall p :: p in ps ==> p == [] || HasPath(t, p)
    ensures InsertAll(t, ps) == t
  {
    if ps != [] {
      InsertAllPresent(t, ps[..|ps| - 1]);
      assert ps[|ps| - 1] in ps;
      InsertPresent(t, ps[|ps| - 1]);
    }
  }

  /** Building from the same paths twice gives the same tree. */
  lemma TreeTwice(ps: seq<Path>)
    ensures Tree(ps + ps) == Tree(ps)
  {
    InsertAllAppend(Dict([]), ps, ps);
    forall p | p in ps && p != []
      ensures HasPath(Tree(ps), p)
    {
      TreeHasPath(ps, p);
      assert IsNodeOf(p, p);
    }
    InsertAllPresent(Tree(ps), ps);
  }

  /** Adding paths only extends the tree. */
  lemma TreeGrows(ps: seq<Path>, more: seq<Path>, q: Path)
    requires HasPath(Tree(ps), q)
    ensures HasPath(Tree(ps + more), q)
  {
    TreeHasPath(ps, q);
    TreeHasPath(ps + more, q);
    var p :| p in ps && IsNodeOf(q, p);
    assert p in ps + more;
  }

  lemma TreeWellFormed(ps: seq<Path>)
    ensures WellFormed(Tree(ps))
  {
    InsertAllWellFormed(Dict([]), ps);
  }
}

/**
  The nodes of a taxonomy in pre-order: each key is listed, then the
  subtree under it (when its value is a dictionary), then its next sibling.
  Both the category numbering of the sort script and the icon map of the
  sidebar visit the taxonomy in this order.
*/
module PreOrder {
  import opened Base
  import opened Taxonomy

  function Walk(es: seq<Entry>, path: Path): seq<Path>
    decreases es
  {
    if es == [] then []
    else
      var cur := path + [es[0].key];
      [cur] + Below(es[0].value, cur) + Walk(es[1..], path)
  }

  function Below(v: Node, path: Path): seq<Path>
    decreases v
  {
    if v.Dict? then Walk(v.entries, path) else []
  }

  /** The paths of all nodes of `n`, in pre-order. */
  function Nodes(n: Node): seq<Path>
  {
    Below(n, [])
  }

  /** A node is listed after every one of its ancestors. */
  ghost predicate AncestorsFirst(l: seq<Path>)
  {
    forall i, j :: 0 <= i < |l| && 0 <= j < |l| && l[i] < l[j] ==> i < j
  }

  /** The descendants of a node directly follow it: whatever is listed
      between a node and one of its descendants is a descendant too. */
  ghost predicate Contiguous(l: seq<Path>)
  {
    forall i, j, k :: 0 <= i < j < k < |l| && l[i] <= l[k] ==> l[i] <= l[j]
  }

  /** Every listed path extends `path` by a key of `es`. */
  lemma {:induction false} WalkExtends(es: seq<Entry>, path: Path)
    ensures forall q :: q in Walk(es, path) ==> |q| > |path| && q[..|path|] == path && q[|path|] in Keys(es)
    decreases es, 1
  {
    if es != [] {
      var cur := path + [es[0].key];
      var below := Below(es[0].value, cur);
      var rest := Walk(es[1..], path);
      assert Walk(es, path) == [cur] + below + rest;
      BelowExtends(es, path);
      WalkExtends(es[1..], path);
      assert Keys(es)[1..] == Keys(es[1..]);
      forall q | q in [cur] + below + rest
        ensures |q| > |path| && q[..|path|] == path && q[|path|] in Keys(es)
      {
        if q !in rest {
          assert q[|path|] == es[0].key == Keys(es)[0];
        }
      }
    }
  }

  /** Every path below the first key extends `path` by that key. */
  lemma {:induction false} BelowExtends(es: seq<Entry>, path: Path)
    requires es != []
    ensures forall q :: q in [path + [es[0].key]] + Below(es[0].value, path + [es[0].key]) ==>
              |q| > |path| && q[..|path|] == path && q[|path|] == es[0].key
    decreases es, 0
  {
    var cur := path + [es[0].key];
    var v := es[0].value;
    if v.Dict? {
      WalkExtends(v.entries, cur);
      forall q | q in Walk(v.entries, cur)
        ensures q[..|path|] == path && q[|path|] == es[0].key
      {
        assert q[..|cur|] == cur;
        assert q[..|path|] == cur[..|path|];
        assert q[|path|] == q[..|cur|][|path|] == cur[|path|];
      }
    }
  }

  lemma DistinctConcat(a: seq<Path>, b: seq<Path>)
    requires Distinct(a) && Distinct(b)
    requires forall x :: x in a ==> x !in b
    ensures Distinct(a + b)
  {
    var l := a + b;
    forall i, j | 0 <= i < j < |l|
      ensures l[i] != l[j]
    {
      if i < |a| && j >= |a| {
        assert l[i] in a && l[j] == b[j - |a|];
      }
    }
  }

  lemma AncestorsFirstConcat(a: seq<Path>, b: seq<Path>)
    requires AncestorsFirst(a) && AncestorsFirst(b)
    requires forall x, y :: 0 <= x < |a| && 0 <= y < |b| ==> !(b[y] < a[x])
    ensures AncestorsFirst(a + b)
  {
    var l := a + b;
    forall i, j | 0 <= i < |l| && 0 <= j < |l| && l[i] < l[j]
      ensures i < j
    {
      if i < |a| && j < |a| {
        assert l[i] == a[i] && l[j] == a[j];
      } else if i >= |a| && j >= |a| {
        assert l[i] == b[i - |a|] && l[j] == b[j - |a|];
      }
    }
  }

  lemma ContiguousConcat(a: seq<Path>, b: seq<Path>)
    requires Contiguous(a) && Contiguous(b)
    requires forall x, y :: 0 <= x < |a| && 0 <= y < |b| ==> !(a[x] <= b[y])
    ensures Contiguous(a + b)
  {
    var l := a + b;
    forall i, j, k | 0 <= i < j < k < |l| && l[i] <= l[k]
      ensures l[i] <= l[j]
    {
      if k < |a| {
        assert l[i] == a[i] && l[j] == a[j] && l[k] == a[k];
      } else if i >= |a| {
        assert l[i] == b[i - |a|] && l[j] == b[j - |a|] && l[k] == b[k - |a|];
      }
    }
  }

  lemma ContiguousCons(x: Path, b: seq<Path>)
    requires Contiguous(b)
    requires forall y :: y in b ==> x <= y
    ensures Contiguous([x] + b)
  {
    var l := [x] + b;
    forall i, j, k | 0 <= i < j < k < |l| && l[i] <= l[k]
      ensures l[i] <= l[j]
    {
      if i == 0 {
        assert l[j] in b;
      } else {
        assert l[i] == b[i - 1] && l[j] == b[j - 1] && l[k] == b[k - 1];
      }
    }
  }

  /** With unique keys, the walk lists no path twice, lists ancestors before
      descendants, and lists each subtree as one block. */
  lemma {:induction false} WalkShape(es: seq<Entry>, path: Path)
    requires WellFormed(Dict(es))
    ensures Distinct(Walk(es, path))
    ensures AncestorsFirst(Walk(es, path))
    ensures Contiguous(Walk(es, path))
    decreases es, 2
  {
    if es != [] {
      var head := [path + [es[0].key]] + Below(es[0].value, path + [es[0].key]);
      var rest := Walk(es[1..], path);
      assert Walk(es, path) == head + rest;
      HeadKeyUnique(es);
      WalkShape(es[1..], path);
      WalkExtends(es[1..], path);
      HeadShape(es, path);
      Apart(head, rest, |path|, es[0].key, Keys(es[1..]));
      DistinctConcat(head, rest);
      AncestorsFirstConcat(head, rest);
      ContiguousConcat(head, rest);
    }
  }

  /** Paths that differ at position `d` are distinct and neither is a
      prefix of the other. */
  lemma Apart(a: seq<Path>, b: seq<Path>, d: nat, k: string, ks: seq<string>)
    requires forall x :: x in a ==> |x| > d && x[d] == k
    requires forall y :: y in b ==> |y| > d && y[d] in ks
    requires k !in ks
    ensures forall x :: x in a ==> x !in b
    ensures forall x, y :: 0 <= x < |a| && 0 <= y < |b| ==> !(b[y] < a[x])
    ensures forall x, y :: 0 <= x < |a| && 0 <= y < |b| ==> !(a[x] <= b[y])
  {
    forall x, y | 0 <= x < |a| && 0 <= y < |b|
      ensures a[x] != b[y] && !(b[y] < a[x]) && !(a[x] <= b[y])
    {
      assert a[x] in a && b[y] in b;
      assert a[x][d] != b[y][d];
    }
    forall x | x in a
      ensures x !in b
    {
      assert |x| > d && x[d] == k;
    }
  }

  /** The first key and its subtree: well shaped, and every path in it has
      the first key right after `path`. */
  lemma {:induction false} HeadShape(es: seq<Entry>, path: Path)
    requires es != [] && WellFormed(Dict(es))
    ensures var head := [path + [es[0].key]] + Below(es[0].value, path + [es[0].key]);
            Distinct(head) && AncestorsFirst(head) && Contiguous(head) &&
            forall x :: x in head ==> |x| > |path| && x[|path|] == es[0].key
    decreases es, 1
  {
    var k0 := es[0].key;
    var cur := path + [k0];
    var b := Below(es[0].value, cur);
    BelowShape(es, cur);
    ConsShape(cur, b);
    forall x | x in [cur] + b
      ensures |x| > |path| && x[|path|] == k0
    {
      if x != cur {
        assert x in b;
        assert x[|path|] == x[..|cur|][|path|];
      }
    }
  }

  /** The subtree under the first key: well shaped and below `cur`. */
  lemma {:induction false} BelowShape(es: seq<Entry>, cur: Path)
    requires es != [] && WellFormed(Dict(es))
    ensures var b := Below(es[0].value, cur);
            Distinct(b) && AncestorsFirst(b) && Contiguous(b) &&
            forall x :: x in b ==> |x| > |cur| && x[..|cur|] == cur
    decreases es, 0
  {
    var v := es[0].value;
    if v.Dict? {
      assert WellFormed(v);
      WalkShape(v.entries, cur);
      WalkExtends(v.entries, cur);
    }
  }

  /** A path followed by a well-shaped list of its descendants is well
      shaped. */
  lemma ConsShape(cur: Path, b: seq<Path>)
    requires Distinct(b) && AncestorsFirst(b) && Contiguous(b)
    requires forall x :: x in b ==> |x| > |cur| && x[..|cur|] == cur
    ensures Distinct([cur] + b) && AncestorsFirst([cur] + b) && Contiguous([cur] + b)
  {
    forall x | x in b
      ensures cur <= x && x != cur
    {
    }
    DistinctConcat([cur], b);
    forall x, y | 0 <= x < 1 && 0 <= y < |b|
      ensures !(b[y] < [cur][x])
    {
      assert b[y] in b;
    }
    AncestorsFirstConcat([cur], b);
    ContiguousCons(cur, b);
  }

  /** The pre-order of a well-formed taxonomy is a list of distinct paths,
      ancestors first, each subtree in one block. */
  lemma NodesShape(n: Node)
    requires WellFormed(n)
    ensures Distinct(Nodes(n)) && AncestorsFirst(Nodes(n)) && Contiguous(Nodes(n))
  {
    if n.Dict? {
      WalkShape(n.entries, []);
    }
  }

  lemma {:induction false} FindTail(es: seq<Entry>, k: string)
    requires es != [] && es[0].key != k
    ensures Find(es, k) == (if Find(es[1..], k) < 0 then -1 else Find(es[1..], k) + 1)
  {
    assert Keys(es)[1..] == Keys(es[1..]);
  }

  lemma HeadKeyUnique(es: seq<Entry>)
    requires es != [] && UniqueKeys(es)
    ensures es[0].key !in Keys(es[1..])
    ensures WellFormed(Dict(es)) ==> WellFormed(Dict(es[1..]))
  {
    forall j | 0 <= j < |es[1..]|
      ensures Keys(es[1..])[j] != es[0].key
    {
      assert es[1..][j] == es[j + 1];
    }
    assert forall i :: 0 <= i < |es[1..]| ==> es[1..][i] == es[i + 1];
  }

  ghost predicate Extends(q: Path, path: Path)
  {
    |q| > |path| && q[..|path|] == path
  }

  /** The walk lists exactly the paths of the nodes below `path`. */
  lemma {:induction false} WalkHasPath(es: seq<Entry>, path: Path, q: Path)
    requires WellFormed(Dict(es))
    ensures q in Walk(es, path) <==> Extends(q, path) && HasPath(Dict(es), q[|path|..])
    decreases es, 1
  {
    WalkExtends(es, path);
    if es != [] && Extends(q, path) {
      if q[|path|] == es[0].key {
        WalkHeadHasPath(es, path, q);
      } else {
        WalkTailHasPath(es, path, q);
      }
    }
  }

  lemma {:induction false} WalkHeadHasPath(es: seq<Entry>, path: Path, q: Path)
    requires es != [] && WellFormed(Dict(es))
    requires Extends(q, path) && q[|path|] == es[0].key
    ensures q in Walk(es, path) <==> HasPath(Dict(es), q[|path|..])
    decreases es, 0
  {
    var k0 := es[0].key;
    var cur := path + [k0];
    var v := es[0].value;
    var s := q[|path|..];
    HeadKeyUnique(es);
    WalkExtends(es[1..], path);
    assert q !in Walk(es[1..], path);
    assert Find(es, k0) == 0;
    assert At(Dict(es), s) == At(v, s[1..]);
    if |s| == 1 {
      assert q == cur;
    } else {
      assert q != cur;
      assert Extends(q, cur) && q[|cur|..] == s[1..];
      if v.Dict? {
        assert WellFormed(v);
        WalkHasPath(v.entries, cur, q);
      }
    }
  }

  lemma {:induction false} WalkTailHasPath(es: seq<Entry>, path: Path, q: Path)
    requires es != [] && WellFormed(Dict(es))
    requires Extends(q, path) && q[|path|] != es[0].key
    ensures q in Walk(es, path) <==> HasPath(Dict(es), q[|path|..])
    decreases es, 0
  {
    var k0 := es[0].key;
    var cur := path + [k0];
    var v := es[0].value;
    var s := q[|path|..];
    HeadKeyUnique(es);
    WalkHasPath(es[1..], path, q);
    if v.Dict? {
      WalkExtends(v.entries, cur);
      forall x | x in Walk(v.entries, cur)
        ensures x != q
      {
        assert x[..|cur|] == cur;
        assert x[|path|] == x[..|cur|][|path|];
      }
    }
    assert q != cur;
    FindTail(es, s[0]);
    assert At(Dict(es), s) == At(Dict(es[1..]), s);
  }

  /** A path is listed in the pre-order iff it names a node of the taxonomy. */
  lemma NodesHasPath(n: Node, q: Path)
    requires WellFormed(n)
    ensures q in Nodes(n) <==> HasPath(n, q)
  {
    if n.Dict? {
      WalkHasPath(n.entries, [], q);
      assert q[..0] == [] && q[0..] == q;
    }
  }
}

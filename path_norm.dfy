/**
  The category paths of the registry scripts. Each tool of `registry.yml`
  may carry a `category_path`; the scripts normalise it (every segment is
  turned into a string and stripped, empty segments are dropped), keep the
  first occurrence of every non-empty path, and build the nested
  dictionary of categories from the kept paths.
*/
module PathNorm {
  import opened Base
  import opened Text
  import opened Taxonomy

  /** A YAML scalar as loaded by `yaml.safe_load`. Floats are not modelled. */
  datatype Scalar = SNone | SBool(b: bool) | SInt(i: int) | SStr(s: string)

  /** A YAML value: a scalar, a list of scalars, or a mapping (given by its
      keys in document order, which is what iterating it yields). */
  datatype PyVal = Scalar(v: Scalar) | PList(items: seq<Scalar>) | PDict(keys: seq<string>)

  /** A tool record of the registry. */
  type PyTool = map<string, PyVal>

  /** Python `str(x)` of a scalar. */
  function PyStr(x: Scalar): (r: string)
    ensures x.SStr? ==> r == x.s
    ensures x.SInt? ==> r == IntToString(x.i)
  {
    match x
    case SNone => "None"
    case SBool(b) => if b then "True" else "False"
    case SInt(i) => IntToString(i)
    case SStr(s) => s
  }

  /** Python truthiness of a YAML value. */
  predicate Truthy(v: PyVal)
  {
    match v
    case Scalar(x) =>
      (match x
       case SNone => false
       case SBool(b) => b
       case SInt(i) => i != 0
       case SStr(s) => s != "")
    case PList(items) => items != []
    case PDict(keys) => keys != []
  }

  /** `tool.get("category_path")`. */
  function CategoryPath(t: PyTool): (v: PyVal)
    ensures "category_path" !in t ==> v == Scalar(SNone)
  {
    if "category_path" in t then t["category_path"] else Scalar(SNone)
  }

  /** The items `for s in (cp or [])` iterates over; `None` when `cp` is a
      truthy number or boolean, which Python refuses to iterate. */
  function Iterate(v: PyVal): (r: Option<seq<Scalar>>)
    ensures !Truthy(v) ==> r == Some([])
    ensures r.None? <==> Truthy(v) && v.Scalar? && !v.v.SStr?
  {
    if !Truthy(v) then Some([])
    else match v
      case Scalar(x) => if x.SStr? then Some(seq(|x.s|, i requires 0 <= i < |x.s| => SStr([x.s[i]]))) else None
      case PList(items) => Some(items)
      case PDict(keys) => Some(seq(|keys|, i requires 0 <= i < |keys| => SStr(keys[i])))
  }

  /** A segment that normalisation keeps unchanged: stripped and not empty. */
  predicate Clean(s: string)
  {
    s != "" && PyStrip(s) == s
  }

  /** `str(s).strip()` for every item. */
  function StripAll(items: seq<Scalar>): (r: seq<string>)
    ensures |r| == |items|
  {
    seq(|items|, i requires 0 <= i < |items| => PyStrip(PyStr(items[i])))
  }

  /** `[str(s).strip() for s in items if str(s).strip()]` */
  function NormItems(items: seq<Scalar>): (r: Path)
    ensures |r| <= |items|
    ensures forall x :: x in r <==> x in StripAll(items) && x != ""
  {
    NonEmpty(StripAll(items))
  }

  /** Every normalised segment is clean. */
  lemma NormItemsClean(items: seq<Scalar>)
    ensures forall i :: 0 <= i < |NormItems(items)| ==> Clean(NormItems(items)[i])
  {
    var r := NormItems(items);
    forall i | 0 <= i < |r|
      ensures Clean(r[i])
    {
      assert r[i] in StripAll(items);
      var j :| 0 <= j < |items| && StripAll(items)[j] == r[i];
      TrimIdempotent(PyStr(items[j]), IsPySpace);
    }
  }

  /** The segments as YAML strings. */
  function AsScalars(p: Path): (r: seq<Scalar>)
    ensures |r| == |p|
  {
    seq(|p|, i requires 0 <= i < |p| => SStr(p[i]))
  }

  /** Normalising a path of clean segments gives it back. */
  lemma NormItemsOfClean(p: Path)
    requires forall i :: 0 <= i < |p| ==> Clean(p[i])
    ensures NormItems(AsScalars(p)) == p
  {
    assert StripAll(AsScalars(p)) == p;
    NonEmptyClean(p);
  }

  /** Normalisation is idempotent. */
  lemma NormItemsIdempotent(items: seq<Scalar>)
    ensures NormItems(AsScalars(NormItems(items))) == NormItems(items)
  {
    NormItemsClean(items);
    NormItemsOfClean(NormItems(items));
  }

  /** `norm(cp)`: the normalised path, or `None` when it cannot be iterated. */
  function Norm(v: PyVal): (r: Option<Path>)
    ensures r.None? <==> Iterate(v).None?
    ensures !Truthy(v) ==> r == Some([])
  {
    match Iterate(v)
    case None => None
    case Some(items) => Some(NormItems(items))
  }

  /** A list of clean segments is its own normal form. */
  lemma NormClean(p: Path)
    requires forall i :: 0 <= i < |p| ==> Clean(p[i])
    ensures Norm(PList(AsScalars(p))) == Some(p)
  {
    if p != [] {
      NormItemsOfClean(p);
    }
  }

  /** The normalised category path of one tool. */
  function ToolPath(t: PyTool): (r: Option<Path>)
    ensures r.None? <==> Iterate(CategoryPath(t)).None?
  {
    Norm(CategoryPath(t))
  }

  /** `f` applied to every element, or `None` as soon as it fails on one. */
  function MapAll<A, B>(f: A -> Option<B>, xs: seq<A>): (r: Option<seq<B>>)
  {
    if xs == [] then Some([])
    else
      match MapAll(f, xs[..|xs| - 1])
      case None => None
      case Some(ys) =>
        match f(xs[|xs| - 1])
        case None => None
        case Some(y) => Some(ys + [y])
  }

  /** `MapAll` fails iff `f` fails on some element, and otherwise lists the
      results in order. */
  lemma {:induction false} MapAllAt<A, B>(f: A -> Option<B>, xs: seq<A>)
    ensures MapAll(f, xs).Some? <==> forall i :: 0 <= i < |xs| ==> f(xs[i]).Some?
    ensures MapAll(f, xs).Some? ==> |MapAll(f, xs).value| == |xs|
    ensures MapAll(f, xs).Some? ==> forall i :: 0 <= i < |xs| ==> MapAll(f, xs).value[i] == f(xs[i]).value
  {
    if xs != [] {
      var init := xs[..|xs| - 1];
      var last := xs[|xs| - 1];
      MapAllAt(f, init);
      if MapAll(f, init).None? {
        var i :| 0 <= i < |init| && f(init[i]).None?;
        assert xs[i] == init[i];
      } else if f(last).Some? {
        var r := MapAll(f, init).value + [f(last).value];
        assert MapAll(f, xs) == Some(r);
        forall i | 0 <= i < |xs|
          ensures r[i] == f(xs[i]).value && f(xs[i]).Some?
        {
          if i < |init| {
            assert xs[i] == init[i];
          }
        }
      }
    }
  }

  /** A normalised tool path is made of clean segments. */
  lemma ToolPathClean(t: PyTool)
    requires ToolPath(t).Some?
    ensures forall i :: 0 <= i < |ToolPath(t).value| ==> Clean(ToolPath(t).value[i])
  {
    NormItemsClean(Iterate(CategoryPath(t)).value);
  }

  /** The normalised category paths of all tools, or `None` as soon as one of
      them cannot be iterated. */
  function NormTools(tools: seq<PyTool>): (r: Option<seq<Path>>)
  {
    MapAll(ToolPath, tools)
  }

  /** The normalisation fails iff one tool's path cannot be iterated, and
      otherwise lists every tool's normalised path in order. */
  lemma NormToolsAt(tools: seq<PyTool>)
    ensures NormTools(tools).Some? <==> forall i :: 0 <= i < |tools| ==> ToolPath(tools[i]).Some?
    ensures NormTools(tools).Some? ==> |NormTools(tools).value| == |tools|
    ensures NormTools(tools).Some? ==>
              forall i :: 0 <= i < |tools| ==> NormTools(tools).value[i] == ToolPath(tools[i]).value
  {
    MapAllAt(ToolPath, tools);
  }

  lemma NormToolsStep(tools: seq<PyTool>, i: int)
    requires 0 <= i < |tools|
    requires NormTools(tools[..i]).Some? && ToolPath(tools[i]).Some?
    ensures NormTools(tools[..i + 1]) == Some(NormTools(tools[..i]).value + [ToolPath(tools[i]).value])
  {
    assert tools[..i + 1][..i] == tools[..i];
  }

  /** The paths kept by the loop `if cp and tuple(cp) not in seen`: each
      non-empty path not in `seen` at its first occurrence. */
  function Dedup(seen: set<Path>, ps: seq<Path>): (r: seq<Path>)
  {
    if ps == [] then []
    else
      var d := Dedup(seen, ps[..|ps| - 1]);
      var p := ps[|ps| - 1];
      if p != [] && p !in seen && p !in d then d + [p] else d
  }

  /** The position of the first occurrence of `p` in `ps`. */
  function FirstIndex(ps: seq<Path>, p: Path): (i: int)
    ensures -1 <= i < |ps|
    ensures i >= 0 ==> ps[i] == p && forall j :: 0 <= j < i ==> ps[j] != p
    ensures i < 0 <==> p !in ps
  {
    if ps == [] then -1
    else if ps[0] == p then 0
    else
      var j := FirstIndex(ps[1..], p);
      if j < 0 then -1 else j + 1
  }

  /** The kept paths are exactly the non-empty paths of `ps` not in `seen`,
      each kept once, and there are at most as many as in `ps`. */
  lemma {:induction false} DedupMembers(seen: set<Path>, ps: seq<Path>)
    ensures forall p :: p in Dedup(seen, ps) <==> p in ps && p != [] && p !in seen
    ensures forall i, j :: 0 <= i < j < |Dedup(seen, ps)| ==> Dedup(seen, ps)[i] != Dedup(seen, ps)[j]
    ensures |Dedup(seen, ps)| <= |ps|
  {
    if ps != [] {
      var init := ps[..|ps| - 1];
      DedupMembers(seen, init);
      assert ps == init + [ps[|ps| - 1]];
    }
  }

  lemma FirstIndexSnoc(ps: seq<Path>, p: Path, q: Path)
    requires q in ps
    ensures FirstIndex(ps + [p], q) == FirstIndex(ps, q)
  {
    var i := FirstIndex(ps, q);
    assert (ps + [p])[i] == q;
    assert forall j :: 0 <= j < i ==> (ps + [p])[j] == ps[j];
  }

  /** The kept paths appear in the order of their first occurrence. */
  lemma {:induction false} DedupFirstSeen(seen: set<Path>, ps: seq<Path>)
    ensures forall x, y :: 0 <= x < y < |Dedup(seen, ps)| ==>
              FirstIndex(ps, Dedup(seen, ps)[x]) < FirstIndex(ps, Dedup(seen, ps)[y])
  {
    if ps != [] {
      var init := ps[..|ps| - 1];
      var d := Dedup(seen, init);
      var p := ps[|ps| - 1];
      DedupFirstSeen(seen, init);
      DedupMembers(seen, init);
      assert ps == init + [p];
      forall q | q in d
        ensures FirstIndex(ps, q) == FirstIndex(init, q)
      {
        FirstIndexSnoc(init, p, q);
      }
      if p != [] && p !in seen && p !in d {
        assert p !in init;
        assert FirstIndex(ps, p) == |init|;
        var r := d + [p];
        forall x, y | 0 <= x < y < |r|
          ensures FirstIndex(ps, r[x]) < FirstIndex(ps, r[y])
        {
          assert r[x] == d[x] && r[x] in d;
          if y < |d| {
            assert r[y] == d[y] && r[y] in d;
          }
        }
      }
    }
  }

  /** Appending a path to the input appends it to the kept paths exactly
      when it is new. */
  lemma DedupSnoc(seen: set<Path>, ps: seq<Path>, p: Path)
    ensures Dedup(seen, ps + [p]) ==
            if p != [] && p !in seen && p !in Dedup(seen, ps) then Dedup(seen, ps) + [p] else Dedup(seen, ps)
  {
    assert (ps + [p])[..|ps|] == ps;
  }

  /** The set of a sequence of paths. */
  function SetOf(ps: seq<Path>): (s: set<Path>)
    ensures forall p :: p in s <==> p in ps
  {
    set p | p in ps
  }

  /** The loop over the tools shared by the three scripts: the paths start as
      `initial`, `seen` as the set of `initial`, and every normalised tool
      path that is not empty and not seen is appended and marked seen. The
      scripts stop with an exception when a category path cannot be
      iterated. */
  method CollectPaths(initial: seq<Path>, tools: seq<PyTool>) returns (r: Option<seq<Path>>)
    ensures r.None? <==> NormTools(tools).None?
    ensures r.Some? ==> r.value == initial + Dedup(SetOf(initial), NormTools(tools).value)
  {
    var seen0 := SetOf(initial);
    var paths := initial;
    var seen := seen0;
    for i := 0 to |tools|
      invariant NormTools(tools[..i]).Some?
      invariant paths == initial + Dedup(seen0, NormTools(tools[..i]).value)
      invariant forall p :: p in seen <==> p in seen0 || p in Dedup(seen0, NormTools(tools[..i]).value)
    {
      var ns := NormTools(tools[..i]).value;
      var cp := ToolPath(tools[i]);
      if cp.None? {
        NormToolsAt(tools);
        return None;
      }
      NormToolsStep(tools, i);
      DedupSnoc(seen0, ns, cp.value);
      ghost var d := Dedup(seen0, ns);
      if cp.value != [] && cp.value !in seen {
        assert Dedup(seen0, ns + [cp.value]) == d + [cp.value];
        AppendAssoc(initial, d, [cp.value]);
        paths := paths + [cp.value];
        seen := seen + {cp.value};
      } else {
        assert Dedup(seen0, ns + [cp.value]) == d;
      }
    }
    assert tools[..|tools|] == tools;
    r := Some(paths);
  }

  /** The tree loop: for every path, walk down from the root creating each
      missing segment as an empty dictionary (`setdefault`, or `if segment
      not in current`). */
  method BuildTree(paths: seq<Path>) returns (root: Node)
    ensures root == Tree(paths)
  {
    root := Dict([]);
    for i := 0 to |paths|
      invariant root == InsertAll(Dict([]), paths[..i])
    {
      assert paths[..i + 1][..i] == paths[..i];
      root := Insert(root, paths[i]);
    }
    assert paths[..|paths|] == paths;
  }
}

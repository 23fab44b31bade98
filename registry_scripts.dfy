/**
  The two registry scripts. `build_taxonomy_from_registry.py` writes the
  distinct normalised category paths of the registry as the `paths` list of
  `taxonomy.yml`; its copy under `utils/` also folds them into the nested
  category dictionary written to `taxonomy.js`.
*/
module RegistryScripts {
  import opened Base
  import opened Taxonomy
  import opened PathNorm

  /** The document `{"paths": paths}`. */
  datatype PathsDocument = PathsDocument(paths: seq<Path>)

  /** The paths both scripts collect: `seen` starts empty. */
  function RegistryPaths(ns: seq<Path>): seq<Path>
  {
    Dedup({}, ns)
  }

  /** The root script. It stops with an exception when a category path
      cannot be iterated. */
  method WritePathsDocument(tools: seq<PyTool>) returns (doc: Option<PathsDocument>)
    ensures doc.None? <==> NormTools(tools).None?
    ensures doc.Some? ==> doc.value == PathsDocument(RegistryPaths(NormTools(tools).value))
  {
    var collected := CollectPaths([], tools);
    assert SetOf([]) == {};
    if collected.None? {
      return None;
    }
    doc := Some(PathsDocument(collected.value));
  }

  /** The `utils/` script: the paths, and the tree built from them. */
  method BuildTaxonomy(tools: seq<PyTool>) returns (out: Option<(seq<Path>, Node)>)
    ensures out.None? <==> NormTools(tools).None?
    ensures out.Some? ==> out.value.0 == RegistryPaths(NormTools(tools).value)
    ensures out.Some? ==> out.value.1 == Tree(out.value.0)
  {
    var collected := CollectPaths([], tools);
    assert SetOf([]) == {};
    if collected.None? {
      return None;
    }
    var taxonomy := BuildTree(collected.value);
    out := Some((collected.value, taxonomy));
  }

  /** The written paths are the distinct non-empty normalised category paths
      of the tools, in the order they first occur, each made of stripped
      non-empty segments. */
  lemma {:induction false} RegistryPathsSpec(tools: seq<PyTool>)
    requires NormTools(tools).Some?
    ensures var ps := RegistryPaths(NormTools(tools).value);
            (forall p :: p in ps <==> p != [] && exists i :: 0 <= i < |tools| && ToolPath(tools[i]) == Some(p)) &&
            (forall x, y :: 0 <= x < y < |ps| ==> ps[x] != ps[y]) &&
            (forall x, y :: 0 <= x < y < |ps| ==>
               FirstIndex(NormTools(tools).value, ps[x]) < FirstIndex(NormTools(tools).value, ps[y])) &&
            (forall x, j :: 0 <= x < |ps| && 0 <= j < |ps[x]| ==> Clean(ps[x][j])) &&
            |ps| <= |tools|
  {
    var ns := NormTools(tools).value;
    var ps := RegistryPaths(ns);
    DedupMembers({}, ns);
    DedupFirstSeen({}, ns);
    NormPathsFrom(tools);
    RegistryPathsClean(tools);
    forall p
      ensures p in ps <==> p != [] && exists i :: 0 <= i < |tools| && ToolPath(tools[i]) == Some(p)
    {
      assert p in ps <==> p in ns && p != [];
    }
  }

  /** The normalised paths are those of the tools. */
  lemma NormPathsFrom(tools: seq<PyTool>)
    requires NormTools(tools).Some?
    ensures forall p :: p in NormTools(tools).value <==> exists i :: 0 <= i < |tools| && ToolPath(tools[i]) == Some(p)
    ensures |NormTools(tools).value| == |tools|
  {
    var ns := NormTools(tools).value;
    NormToolsAt(tools);
    forall p | p in ns
      ensures exists i :: 0 <= i < |tools| && ToolPath(tools[i]) == Some(p)
    {
      var i :| 0 <= i < |ns| && ns[i] == p;
      assert ToolPath(tools[i]) == Some(p);
    }
    forall i | 0 <= i < |tools|
      ensures ToolPath(tools[i]).value in ns
    {
      assert ns[i] == ToolPath(tools[i]).value;
    }
  }

  /** Every segment of a written path is stripped and non-empty. */
  lemma RegistryPathsClean(tools: seq<PyTool>)
    requires NormTools(tools).Some?
    ensures var ps := RegistryPaths(NormTools(tools).value);
            forall x, j :: 0 <= x < |ps| && 0 <= j < |ps[x]| ==> Clean(ps[x][j])
  {
    var ns := NormTools(tools).value;
    var ps := RegistryPaths(ns);
    NormToolsAt(tools);
    DedupMembers({}, ns);
    forall x, j | 0 <= x < |ps| && 0 <= j < |ps[x]|
      ensures Clean(ps[x][j])
    {
      assert ps[x] in ns;
      var i :| 0 <= i < |ns| && ns[i] == ps[x];
      ToolPathClean(tools[i]);
    }
  }

  /** The taxonomy of the `utils/` script has a node for exactly the
      non-empty prefixes of the tools' normalised category paths, and no
      dictionary in it repeats a key. */
  lemma {:induction false} RegistryTaxonomyNodes(ns: seq<Path>, q: Path)
    ensures HasPath(Tree(RegistryPaths(ns)), q) <==> exists p :: p in ns && IsNodeOf(q, p)
    ensures WellFormed(Tree(RegistryPaths(ns)))
  {
    var ps := RegistryPaths(ns);
    TreeHasPath(ps, q);
    TreeWellFormed(ps);
    DedupMembers({}, ns);
    if exists p :: p in ns && IsNodeOf(q, p) {
      var p :| p in ns && IsNodeOf(q, p);
      assert p in ps;
    }
  }
}

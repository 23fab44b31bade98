/**
  The dashboard generator: it merges the paths of `taxonomy.yml` with the
  normalised category paths of the tools, builds the category tree from
  them, and gives every tool a `notes` string, completing the notes that
  stop right after the heading "Utilizzo principale:" with an example.
*/
module GenerateTemplate {
  import opened Base
  import opened Text
  import opened Taxonomy
  import opened PathNorm

  const Marker := "Utilizzo principale:"
  const Example := "\n```bash\n# Esempi di utilizzo\ndirsearch -u https://target.com -e php,html,js\n```"

  /** A note that, once stripped, ends with the usage heading. */
  predicate Incomplete(v: PyVal)
  {
    v.Scalar? && v.v.SStr? && EndsWith(PyStrip(v.v.s), Marker)
  }

  /** The `notes` field after the fix-up loop. */
  function FixNote(t: PyTool): (r: PyTool)
    ensures "notes" in r && r["notes"] != Scalar(SNone)
  {
    var t1 := if "notes" !in t || t["notes"] == Scalar(SNone) then t["notes" := Scalar(SStr(""))] else t;
    if Incomplete(t1["notes"]) then t1["notes" := Scalar(SStr(t1["notes"].v.s + Example))] else t1
  }

  /** A missing or null note becomes the empty string, an incomplete note
      gets the example appended, any other note is kept, and no other field
      of the tool changes. */
  lemma FixNoteSpec(t: PyTool)
    ensures forall k :: k in FixNote(t) && k != "notes" ==> k in t && FixNote(t)[k] == t[k]
    ensures forall k :: k in t ==> k in FixNote(t)
    ensures "notes" !in t || t["notes"] == Scalar(SNone) ==> FixNote(t)["notes"] == Scalar(SStr(""))
    ensures "notes" in t && Incomplete(t["notes"]) ==> FixNote(t)["notes"] == Scalar(SStr(t["notes"].v.s + Example))
    ensures "notes" in t && t["notes"] != Scalar(SNone) && !Incomplete(t["notes"]) ==> FixNote(t)["notes"] == t["notes"]
  {
    if "notes" !in t || t["notes"] == Scalar(SNone) {
      assert PyStrip("") == "";
    }
  }

  /** A completed note no longer ends with the heading. */
  lemma CompletedNote(s: string)
    ensures !Incomplete(Scalar(SStr(s + Example)))
  {
    var u := s + Example;
    assert u[|u| - 1] == '`';
    TrimKeepsLast(u, IsPySpace);
    assert Marker[|Marker| - 1] == ':';
  }

  /** After the fix-up every tool has a note that is not incomplete, and a
      second pass changes nothing. */
  lemma FixNoteIdempotent(t: PyTool)
    ensures !Incomplete(FixNote(t)["notes"])
    ensures FixNote(FixNote(t)) == FixNote(t)
  {
    var r := FixNote(t);
    assert !Incomplete(r["notes"]) by {
      if "notes" in t && Incomplete(t["notes"]) {
        CompletedNote(t["notes"].v.s);
      } else if "notes" !in t || t["notes"] == Scalar(SNone) {
        assert PyStrip("") == "";
      }
    }
    FixNoteKeeps(r);
  }

  /** A tool whose note is set and complete is left as it is. */
  lemma FixNoteKeeps(t: PyTool)
    requires "notes" in t && t["notes"] != Scalar(SNone) && !Incomplete(t["notes"])
    ensures FixNote(t) == t
  {
  }

  /** The loop over the tools that fixes their notes in place. */
  method FixNotes(tools: array<PyTool>)
    modifies tools
    ensures forall i :: 0 <= i < tools.Length ==> tools[i] == FixNote(old(tools[i]))
  {
    for i := 0 to tools.Length
      invariant forall j :: 0 <= j < i ==> tools[j] == FixNote(old(tools[j]))
      invariant forall j :: i <= j < tools.Length ==> tools[j] == old(tools[j])
    {
      tools[i] := FixNote(tools[i]);
    }
  }

  /** What the generator embeds in the dashboard page. */
  datatype Dashboard = Dashboard(tools: seq<PyTool>, tree: Node, paths: seq<Path>)

  /** The paths of the dashboard: the taxonomy's paths as given, then the new
      normalised tool paths in first-seen order. */
  function MergedPaths(taxPaths: seq<Path>, ns: seq<Path>): seq<Path>
  {
    taxPaths + Dedup(SetOf(taxPaths), ns)
  }

  /** `main()`: nothing is generated when a tool's category path cannot be
      iterated (the exception is caught and reported); otherwise the tree is
      built from the merged paths and the notes are fixed. */
  method Generate(taxPaths: seq<Path>, tools: array<PyTool>) returns (out: Option<Dashboard>)
    modifies tools
    ensures out.None? <==> NormTools(old(tools[..])).None?
    ensures out.None? ==> tools[..] == old(tools[..])
    ensures out.Some? ==>
              var paths := MergedPaths(taxPaths, NormTools(old(tools[..])).value);
              out.value == Dashboard(tools[..], Tree(paths), paths)
    ensures out.Some? ==> forall i :: 0 <= i < tools.Length ==> tools[i] == FixNote(old(tools[i]))
  {
    var collected := CollectPaths(taxPaths, tools[..]);
    if collected.None? {
      return None;
    }
    var paths := collected.value;
    var tree := BuildTree(paths);
    FixNotes(tools);
    out := Some(Dashboard(tools[..], tree, paths));
  }

  /** The dashboard tree has a node for exactly the non-empty prefixes of
      the taxonomy's paths and of the tools' normalised paths. */
  lemma {:induction false} MergedTreeNodes(taxPaths: seq<Path>, ns: seq<Path>, q: Path)
    ensures HasPath(Tree(MergedPaths(taxPaths, ns)), q) <==>
            exists p :: (p in taxPaths || p in ns) && IsNodeOf(q, p)
  {
    var paths := MergedPaths(taxPaths, ns);
    TreeHasPath(paths, q);
    DedupMembers(SetOf(taxPaths), ns);
    if exists p :: (p in taxPaths || p in ns) && IsNodeOf(q, p) {
      var p :| (p in taxPaths || p in ns) && IsNodeOf(q, p);
      assert p in paths;
    }
  }

  /** The merged paths never lose a taxonomy path and add each new tool path
      exactly once. */
  lemma MergedPathsMembers(taxPaths: seq<Path>, ns: seq<Path>)
    ensures forall p :: p in MergedPaths(taxPaths, ns) <==> p in taxPaths || (p in ns && p != [])
    ensures |MergedPaths(taxPaths, ns)| <= |taxPaths| + |ns|
  {
    DedupMembers(SetOf(taxPaths), ns);
  }
}

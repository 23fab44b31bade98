/**
  The path helpers of the sidebar (`SidebarConstants`): '/'-separated
  paths split into segments, the phase of a path, the subtree reached by a
  path in the taxonomy object, and label formatting.
*/
module SidebarConstants {
  import opened Text
  import opened Base
  import opened Taxonomy

  /** `splitPath`: [] for a non-string or '', else the '/'-fields that are
      not empty. */
  function SplitPath(v: JsVal): (segs: seq<string>)
    ensures !v.Str? || v.s == "" ==> segs == []
    ensures forall i :: 0 <= i < |segs| ==> segs[i] != "" && '/' !in segs[i]
    ensures v.Str? ==> forall x :: x in segs <==> x in Split(v.s, '/') && x != ""
  {
    if v.Str? && v.s != "" then
      var r := NonEmpty(Split(v.s, '/'));
      assert forall i :: 0 <= i < |r| ==> r[i] in r;
      r
    else []
  }

  /** A path joined from non-empty segments without '/' splits back into
      them. */
  lemma SplitPathJoin(segs: seq<string>)
    requires |segs| >= 1
    requires forall i :: 0 <= i < |segs| ==> segs[i] != "" && '/' !in segs[i]
    ensures SplitPath(Str(Join(segs, '/'))) == segs
  {
    SplitJoin(segs, '/');
    NonEmptyClean(segs);
    if |segs| > 1 {
      assert Join(segs, '/') == segs[0] + ['/'] + Join(segs[1..], '/');
    }
    assert |Join(segs, '/')| >= |segs[0]| > 0;
  }

  /** `getPhaseFromPath`: the first '/'-field, or null when the value is not
      a non-empty string or that field is empty. */
  function PhaseFromPath(v: JsVal): (phase: Option<string>)
    ensures phase.Some? ==> v.Str? && phase.value != "" && '/' !in phase.value && phase.value <= v.s
    ensures v.Str? && v.s != "" && v.s[0] != '/' ==> phase.Some?
    ensures !v.Str? || v.s == "" || v.s[0] == '/' ==> phase.None?
  {
    if !(v.Str? && v.s != "") then None
    else
      var first := Split(v.s, '/')[0];
      FirstFieldPrefix(v.s, '/');
      if first == "" then None else Some(first)
  }

  /** The first field of a split is a prefix of the string, empty exactly
      when the string is empty or starts with the separator. */
  lemma {:induction false} FirstFieldPrefix(s: string, sep: char)
    ensures Split(s, sep)[0] <= s
    ensures Split(s, sep)[0] == "" <==> s == "" || s[0] == sep
  {
    if s != [] {
      FirstFieldPrefix(s[1..], sep);
    }
  }

  /** For a non-empty path not starting with '/', the phase is the first
      segment of the split. */
  lemma PhaseIsFirstSegment(s: string)
    requires s != "" && s[0] != '/'
    ensures SplitPath(Str(s)) != [] && PhaseFromPath(Str(s)) == Some(SplitPath(Str(s))[0])
  {
    FirstFieldPrefix(s, '/');
    var f := Split(s, '/');
    assert f[0] != "";
    assert NonEmpty(f) == [f[0]] + NonEmpty(f[1..]);
  }

  /** `v && typeof v === "object" && !Array.isArray(v)`: a dictionary. */
  predicate IsObject(n: Node)
  {
    n.Dict?
  }

  /** `hasChildrenNode`. */
  predicate HasChildrenNode(n: Node)
  {
    IsObject(n) && |n.entries| > 0
  }

  /** A node has children iff it is a dictionary with a first key. */
  lemma HasChildrenSpec(n: Node)
    ensures HasChildrenNode(n) <==> exists k :: n.Dict? && k in Keys(n.entries)
  {
    if HasChildrenNode(n) {
      assert n.entries[0].key in Keys(n.entries);
    }
  }

  /** One step of the `reduce` in `getNodeByPath`: the value under `k`
      unless it is null or missing, or unless nothing was found before. */
  function Step(acc: Option<Node>, k: string): (r: Option<Node>)
    ensures r.Some? ==> r.value != Node.Null
  {
    if acc.None? || !acc.value.Dict? then None
    else
      var i := Find(acc.value.entries, k);
      if i < 0 || acc.value.entries[i].value.Null? then None else Some(acc.value.entries[i].value)
  }

  function Reduce(acc: Option<Node>, ks: seq<string>): Option<Node>
    decreases |ks|
  {
    if ks == [] then acc else Reduce(Step(acc, ks[0]), ks[1..])
  }

  /** `getNodeByPath(obj, path)`: every '/'-field, empty ones included, is
      looked up in turn. */
  function NodeByPath(obj: Node, path: string): Option<Node>
  {
    Reduce(Some(obj), Split(path, '/'))
  }

  /** Once a lookup fails the result stays undefined. */
  lemma {:induction false} ReduceStaysNone(ks: seq<string>)
    ensures Reduce(None, ks) == None
  {
    if ks != [] {
      ReduceStaysNone(ks[1..]);
    }
  }

  /** The reduce follows the taxonomy walk `At`, except that it reports a
      null value as not found. */
  lemma {:induction false} ReduceAt(n: Node, ks: seq<string>)
    requires n != Node.Null
    ensures Reduce(Some(n), ks) == if At(n, ks) == Some(Node.Null) then None else At(n, ks)
  {
    if ks != [] {
      if !n.Dict? {
        ReduceStaysNone(ks[1..]);
      } else {
        var i := Find(n.entries, ks[0]);
        if i < 0 {
          ReduceStaysNone(ks[1..]);
        } else if n.entries[i].value.Null? {
          ReduceStaysNone(ks[1..]);
          if ks[1..] != [] {
            assert At(Node.Null, ks[1..]) == None;
          }
        } else {
          ReduceAt(n.entries[i].value, ks[1..]);
        }
      }
    }
  }

  /** `getNodeByPath` finds exactly the non-null nodes the taxonomy walk
      reaches along the '/'-fields of the path. */
  lemma NodeByPathSpec(obj: Node, path: string)
    requires obj.Dict?
    ensures NodeByPath(obj, path) == if At(obj, Split(path, '/')) == Some(Node.Null) then None else At(obj, Split(path, '/'))
  {
    ReduceAt(obj, Split(path, '/'));
  }

  /** `/^\d+_/`: a run of digits then '_'. */
  function StripNumberPrefix(s: string): (r: string)
    ensures r == s || (1 <= DigitRun(s) < |s| && s[DigitRun(s)] == '_' && r == s[DigitRun(s) + 1..])
  {
    var n := DigitRun(s);
    if n >= 1 && n < |s| && s[n] == '_' then s[n + 1..] else s
  }

  /** `formatLabel` as written: underscores become spaces first, so the
      number prefix pattern never finds its '_'. */
  function FormatLabel(v: JsVal): (shown: string)
    ensures forall i :: 0 <= i < |shown| ==> shown[i] != '_'
  {
    StripNumberPrefix(ReplaceChar(ToStr(v), '_', ' '))
  }

  /** The number prefix stays: the label is the text with spaces for
      underscores ("01_Information_Gathering" shows as
      "01 Information Gathering"). */
  lemma FormatLabelKeepsNumber(s: string)
    ensures FormatLabel(Str(s)) == ReplaceChar(s, '_', ' ')
  {
    var r := ReplaceChar(s, '_', ' ');
    var n := DigitRun(r);
    if n >= 1 && n < |r| {
      assert r[n] != '_';
    }
  }

  /** The label with the number prefix removed before the underscores are
      replaced. */
  function FormatLabelFixed(v: JsVal): (shown: string)
    ensures forall i :: 0 <= i < |shown| ==> shown[i] != '_'
  {
    ReplaceChar(StripNumberPrefix(ToStr(v)), '_', ' ')
  }

  /** The corrected label drops a leading `digits_` and keeps the rest with
      spaces for underscores. */
  lemma FormatLabelFixedDropsNumber(d: string, rest: string)
    requires d != [] && forall i :: 0 <= i < |d| ==> IsDigit(d[i])
    ensures FormatLabelFixed(Str(d + "_" + rest)) == ReplaceChar(rest, '_', ' ')
  {
    var s := d + "_" + rest;
    assert forall i :: 0 <= i < |d| ==> s[i] == d[i];
    assert s[|d|] == '_';
    assert DigitRun(s) == |d|;
    assert s[|d| + 1..] == rest;
  }
}

/**
  The older single-file sidebar (`LegacySidebar`). Its label formatting, icon
  choice, icon map, phase memory, path resolution and node lookup are the
  same code as the split sidebar modules and are modelled there; what differs
  is its own five-phase colour table, and it adds the depth of a path.
*/
module LegacySidebar {
  import opened Text
  import opened Base
  import opened SidebarState

  /** The colour table of `phaseToColor`. */
  const LegacyPhaseColors: map<string, string> := map[
    "00_Common" := "var(--color-common)",
    "01_Information_Gathering" := "var(--color-info)",
    "02_Exploitation" := "var(--color-exploit)",
    "03_Post_Exploitation" := "var(--color-post)",
    "04_Miscellaneous" := "var(--color-misc)"
  ]

  const LegacyDefaultColor := "var(--accent-2)"

  /** `map[phase] || 'var(--accent-2)'`. */
  function PhaseToColor(phase: string): (c: string)
    ensures phase in LegacyPhaseColors ==> c == LegacyPhaseColors[phase]
    ensures phase !in LegacyPhaseColors ==> c == LegacyDefaultColor
    ensures c != ""
  {
    if phase in LegacyPhaseColors && LegacyPhaseColors[phase] != "" then LegacyPhaseColors[phase] else LegacyDefaultColor
  }

  /** The two tables disagree: the older one has no Red Team or Forensics
      entry and names CSS variables instead of colours. */
  lemma TablesDiffer()
    ensures PhaseToColor("04_Red_Team") == LegacyDefaultColor
    ensures PhaseToColor("04_Miscellaneous") == "var(--color-misc)"
  {
    assert "04_Red_Team" !in LegacyPhaseColors;
  }

  /** `derivePhaseColor` of the older sidebar. */
  function LegacyPhaseColor(phaseKey: string, ids: seq<string>, toolsById: map<string, Record>): (c: JsVal)
  {
    match FirstColor(ids, toolsById)
    case Some(v) => v
    case None => Str(PhaseToColor(phaseKey))
  }

  /** A colour is always produced, and a tool's own colour wins over the
      table. */
  lemma LegacyPhaseColorSpec(phaseKey: string, ids: seq<string>, toolsById: map<string, Record>)
    ensures Truthy(LegacyPhaseColor(phaseKey, ids, toolsById))
    ensures FirstColor(ids, toolsById).Some? ==> LegacyPhaseColor(phaseKey, ids, toolsById) == FirstColor(ids, toolsById).value
    ensures FirstColor(ids, toolsById).None? ==> LegacyPhaseColor(phaseKey, ids, toolsById) == Str(PhaseToColor(phaseKey))
  {
    FirstColorSpec(ids, toolsById);
  }

  method DerivePhaseColor(phaseKey: string, ids: seq<string>, toolsById: map<string, Record>) returns (c: JsVal)
    ensures c == LegacyPhaseColor(phaseKey, ids, toolsById)
  {
    var found := FirstToolColor(ids, toolsById);
    c := if found.Some? then found.value else Str(PhaseToColor(phaseKey));
  }

  /** `Math.max(0, path.split('/').length - 1)`; a split has at least one
      field, so the `max` never applies. */
  function DepthFromPath(path: string): (d: nat)
  {
    SegmentCount(path, '/') - 1
  }

  /** The depth of a '/'-joined path is its number of segments minus one: a
      phase is at depth 0. */
  lemma DepthOfJoin(segs: seq<string>)
    requires |segs| >= 1 && NoSep(segs, '/')
    ensures DepthFromPath(Join(segs, '/')) == |segs| - 1
  {
    SplitJoin(segs, '/');
  }

  /** One more segment, one level deeper. */
  lemma DepthChild(path: string, k: string)
    requires '/' !in k
    ensures DepthFromPath(path + "/" + k) == DepthFromPath(path) + 1
  {
    JoinSplit(path, '/');
    var parts := Split(path, '/');
    SplitJoin(parts + [k], '/');
    JoinAppend(parts, [k], '/');
  }
}

/**
  The breadcrumb bar (`app/js/breadcrumb-manager.js`): the label and path
  helpers, the case-insensitive common prefix and suffix that the query
  animation keeps, the frames it shows, and the breadcrumb state with its
  render decisions.
*/
module Breadcrumb {
  import opened Base
  import opened Text
  import SidebarConstants

  // ---------------------------------------------------------------------------
  // Utils
  // ---------------------------------------------------------------------------

  /** `formatLabel(text)`: `String(text || '')`, one leading `digits_`
      removed, then every underscore a space. */
  function FormatLabel(text: JsVal): (lbl: string)
  {
    var str := if Truthy(text) then ToStr(text) else "";
    ReplaceChar(SidebarConstants.StripNumberPrefix(str), '_', ' ')
  }

  /** The label of a segment `digits_rest` is `rest` with spaces for
      underscores. */
  lemma FormatLabelDropsNumber(d: string, rest: string)
    requires d != [] && forall i :: 0 <= i < |d| ==> IsDigit(d[i])
    ensures FormatLabel(Str(d + "_" + rest)) == ReplaceChar(rest, '_', ' ')
  {
    SidebarConstants.FormatLabelFixedDropsNumber(d, rest);
  }

  /** The breadcrumb's label is the intended sidebar label (the number
      prefix removed before the underscores are replaced), and "" for a
      falsy value. */
  lemma FormatLabelIsFixed(text: JsVal)
    ensures Truthy(text) ==> FormatLabel(text) == SidebarConstants.FormatLabelFixed(text)
    ensures !Truthy(text) ==> FormatLabel(text) == ""
  {
    if !Truthy(text) {
      assert SidebarConstants.StripNumberPrefix("") == "";
    }
  }

  /** A label holds no underscore, so formatting it again changes nothing. */
  lemma FormatLabelIdempotent(text: JsVal)
    ensures FormatLabel(Str(FormatLabel(text))) == FormatLabel(text)
  {
    var l := FormatLabel(text);
    assert forall i :: 0 <= i < |l| ==> l[i] != '_';
    if l != "" {
      var n := DigitRun(l);
      assert !(n >= 1 && n < |l| && l[n] == '_');
      assert SidebarConstants.StripNumberPrefix(l) == l;
      ReplaceCharAbsent(l, '_', ' ');
    }
  }

  /** `s.replace(/^Root\//, '')`. */
  function DropRootSlash(s: string): string
  {
    if StartsWith(s, "Root/") then s[5..] else s
  }

  /** `convertPathToSlash(pathKey)`: null for an empty key, otherwise the key
      with '/' for '>' and a leading "Root/" removed. */
  function ConvertPathToSlash(pathKey: string): (slash: Option<string>)
    ensures slash.None? <==> pathKey == ""
    ensures slash.Some? ==> '>' !in slash.value
  {
    if pathKey == "" then None
    else
      var r := ReplaceChar(pathKey, '>', '/');
      assert '>' !in r;
      Some(DropRootSlash(r))
  }

  /** `parts.slice(1)` when the first part is "root" in any case. */
  function DropRoot(parts: seq<string>): seq<string>
  {
    if |parts| > 0 && Lower(parts[0]) == "root" then parts[1..] else parts
  }

  /** `splitPathKey(pathKey)`: [] for a falsy or non-string key; otherwise
      the non-empty '>'-fields, without a leading "root". */
  function SplitPathKey(pathKey: JsVal): (parts: seq<string>)
  {
    if !Truthy(pathKey) || !pathKey.Str? then [] else DropRoot(NonEmpty(Split(pathKey.s, '>')))
  }

  /** Every part of a split key is a non-empty string without '>'. */
  lemma SplitPathKeyClean(pathKey: JsVal)
    ensures forall i :: 0 <= i < |SplitPathKey(pathKey)| ==> SplitPathKey(pathKey)[i] != "" && '>' !in SplitPathKey(pathKey)[i]
  {
    if Truthy(pathKey) && pathKey.Str? {
      var f := Split(pathKey.s, '>');
      var ne := NonEmpty(f);
      forall i | 0 <= i < |ne|
        ensures ne[i] != "" && '>' !in ne[i]
      {
        assert ne[i] in ne;
      }
    }
  }

  /** Parts that make a clean key: non-empty, without '>'. */
  ghost predicate CleanParts(parts: seq<string>)
  {
    forall i :: 0 <= i < |parts| ==> parts[i] != "" && '>' !in parts[i]
  }

  lemma LowerRoot()
    ensures Lower("Root") == "root"
  {
    var l := Lower("Root");
    assert l[0] == 'r' && l[1] == 'o' && l[2] == 'o' && l[3] == 't';
  }

  /** The parts of a clean key. */
  lemma SplitCleanKey(parts: seq<string>)
    requires |parts| >= 1 && CleanParts(parts)
    ensures NonEmpty(Split(Join(parts, '>'), '>')) == parts
  {
    SplitJoin(parts, '>');
    NonEmptyClean(parts);
  }

  /** `splitPathKey` undoes the sidebar's key: the segments of
      "Root>a>b" are [a, b]. */
  lemma SplitPathKeyRoot(parts: seq<string>)
    requires CleanParts(parts)
    ensures SplitPathKey(Str(Join(["Root"] + parts, '>'))) == parts
  {
    var full := ["Root"] + parts;
    assert CleanParts(full) by {
      assert forall i :: 1 <= i < |full| ==> full[i] == parts[i - 1];
    }
    SplitCleanKey(full);
    LowerRoot();
    assert full[1..] == parts;
  }

  /** A key without the root segment splits into its parts. */
  lemma SplitPathKeyPlain(parts: seq<string>)
    requires CleanParts(parts) && (parts == [] || Lower(parts[0]) != "root")
    ensures SplitPathKey(Str(Join(parts, '>'))) == parts
  {
    if parts != [] {
      SplitCleanKey(parts);
    }
  }

  /** Replacing the separator of a join joins with the new separator. */
  lemma {:induction false} JoinReplace(parts: seq<string>, a: char, b: char)
    requires NoSep(parts, a)
    ensures ReplaceChar(Join(parts, a), a, b) == Join(parts, b)
  {
    if |parts| == 1 {
      ReplaceCharAbsent(parts[0], a, b);
    } else if |parts| > 1 {
      JoinReplace(parts[1..], a, b);
      ReplaceCharAbsent(parts[0], a, b);
      ReplaceCharConcat(parts[0] + [a], Join(parts[1..], a), a, b);
      ReplaceCharConcat(parts[0], [a], a, b);
    }
  }

  /** The copied path of "Root>a>b" is "a/b": the '/'-join of the segments
      the breadcrumb shows. */
  lemma ConvertMatchesSegments(parts: seq<string>)
    requires parts != [] && CleanParts(parts)
    ensures ConvertPathToSlash(Join(["Root"] + parts, '>')) == Some(Join(parts, '/'))
    ensures ConvertPathToSlash(Join(["Root"] + parts, '>')) == Some(Join(SplitPathKey(Str(Join(["Root"] + parts, '>'))), '/'))
  {
    var full := ["Root"] + parts;
    assert full[1..] == parts;
    assert NoSep(full, '>') by {
      assert forall i :: 1 <= i < |full| ==> full[i] == parts[i - 1];
    }
    JoinReplace(full, '>', '/');
    var slash := Join(full, '/');
    assert slash == "Root" + "/" + Join(parts, '/');
    assert StartsWith(slash, "Root/");
    assert slash[5..] == Join(parts, '/');
    SplitPathKeyRoot(parts);
  }

  /** `visibleParts.slice(0, takeCount)`. */
  function Take(xs: seq<string>, n: int): (r: seq<string>)
    ensures r <= xs
  {
    if n < 0 then xs[..if |xs| + n < 0 then 0 else |xs| + n]
    else xs[..if n < |xs| then n else |xs|]
  }

  /** The last key began with a "root" segment (any case). */
  predicate RootLed(lastPathKey: JsVal)
  {
    Truthy(lastPathKey) && lastPathKey.Str? &&
    var raw := NonEmpty(Split(lastPathKey.s, '>'));
    |raw| > 0 && Lower(raw[0]) == "root"
  }

  /** `rebuildFullParts(visibleParts, takeCount)`. */
  function RebuildFullParts(lastPathKey: JsVal, visibleParts: seq<string>, takeCount: int): seq<string>
  {
    (if RootLed(lastPathKey) then ["Root"] else []) + Take(visibleParts, takeCount)
  }

  /** The key "Root>p1>…>pn" is led by the root segment and shows p1 … pn. */
  lemma RootKeyParts(parts: seq<string>)
    requires CleanParts(parts)
    ensures RootLed(Str(Join(["Root"] + parts, '>')))
    ensures SplitPathKey(Str(Join(["Root"] + parts, '>'))) == parts
  {
    var full := ["Root"] + parts;
    var k := Join(full, '>');
    assert CleanParts(full) by {
      assert forall i :: 1 <= i < |full| ==> full[i] == parts[i - 1];
    }
    SplitCleanKey(full);
    LowerRoot();
    assert full[0] == "Root";
    assert k != "" by {
      if |full| == 1 {
        assert k == "Root";
      } else {
        assert k == "Root" + ['>'] + Join(full[1..], '>');
      }
    }
    SplitPathKeyRoot(parts);
  }

  /** Clicking the `t`th segment of the breadcrumb of "Root>p1>…>pn" asks
      for the ancestor key "Root>p1>…>pt". */
  lemma SegmentClickIsAncestor(parts: seq<string>, t: int)
    requires CleanParts(parts) && 1 <= t <= |parts|
    ensures var key := Str(Join(["Root"] + parts, '>'));
      Join(RebuildFullParts(key, SplitPathKey(key), t), '>') == Join(["Root"] + parts[..t], '>')
  {
    var k := Join(["Root"] + parts, '>');
    RootKeyParts(parts);
    assert Take(parts, t) == parts[..t];
    assert RebuildFullParts(Str(k), SplitPathKey(Str(k)), t) == ["Root"] + parts[..t];
  }

  /** The same for a key without the root segment. */
  lemma SegmentClickIsAncestorPlain(parts: seq<string>, t: int)
    requires CleanParts(parts) && 1 <= t <= |parts| && Lower(parts[0]) != "root"
    ensures var key := Str(Join(parts, '>'));
      Join(RebuildFullParts(key, SplitPathKey(key), t), '>') == Join(parts[..t], '>')
  {
    var k := Join(parts, '>');
    SplitCleanKey(parts);
    SplitPathKeyPlain(parts);
    assert !RootLed(Str(k));
    assert Take(parts, t) == parts[..t];
    assert RebuildFullParts(Str(k), SplitPathKey(Str(k)), t) == [] + parts[..t];
    assert [] + parts[..t] == parts[..t];
  }

  // ---------------------------------------------------------------------------
  // animateTextChange
  // ---------------------------------------------------------------------------

  function Min(a: int, b: int): int
  {
    if a < b then a else b
  }

  /** The first `n` characters agree up to case. */
  ghost predicate SamePrefix(a: string, b: string, n: int)
  {
    0 <= n <= |a| && n <= |b| && forall i :: 0 <= i < n ==> LowerChar(a[i]) == LowerChar(b[i])
  }

  /** The `i`th character from the end. */
  function Back(s: string, i: int): char
    requires 0 <= i < |s|
  {
    s[|s| - 1 - i]
  }

  /** The last `n` characters agree up to case. */
  ghost predicate SameSuffix(a: string, b: string, n: int)
  {
    0 <= n <= |a| && n <= |b| && forall i :: 0 <= i < n ==> LowerChar(Back(a, i)) == LowerChar(Back(b, i))
  }

  /** The common prefix and suffix of the animation: the prefix as long as
      possible, the suffix as long as possible in what the prefix leaves. */
  ghost predicate Affixes(oldText: string, newText: string, prefixLen: int, suffixLen: int)
  {
    var minLen := Min(|oldText|, |newText|);
    SamePrefix(oldText, newText, prefixLen) && SameSuffix(oldText, newText, suffixLen) &&
    prefixLen + suffixLen <= minLen &&
    (prefixLen == minLen || LowerChar(oldText[prefixLen]) != LowerChar(newText[prefixLen])) &&
    (prefixLen == minLen ==> suffixLen == 0) &&
    (prefixLen < minLen && prefixLen + suffixLen < minLen ==>
       LowerChar(Back(oldText, suffixLen)) != LowerChar(Back(newText, suffixLen)))
  }

  /** The two `for … break` loops of `animateTextChange`. */
  method CommonAffixes(oldText: string, newText: string) returns (prefixLen: int, suffixLen: int)
    ensures Affixes(oldText, newText, prefixLen, suffixLen)
  {
    var minLen := Min(|oldText|, |newText|);
    prefixLen := 0;
    var i := 0;
    while i < minLen
      invariant 0 <= i <= minLen && prefixLen == i
      invariant SamePrefix(oldText, newText, prefixLen)
    {
      if LowerChar(oldText[i]) == LowerChar(newText[i]) {
        prefixLen := i + 1;
      } else {
        break;
      }
      i := i + 1;
    }
    suffixLen := 0;
    if prefixLen < minLen {
      var j := 0;
      while j < minLen - prefixLen
        invariant 0 <= j <= minLen - prefixLen && suffixLen == j
        invariant SameSuffix(oldText, newText, suffixLen)
      {
        if LowerChar(oldText[|oldText| - 1 - j]) == LowerChar(newText[|newText| - 1 - j]) {
          suffixLen := j + 1;
        } else {
          break;
        }
        j := j + 1;
      }
    }
  }

  /** The text shown once the animation has run: the old prefix, the new
      middle and the old suffix. */
  function FinalText(oldText: string, newText: string, prefixLen: int, suffixLen: int): string
    requires 0 <= prefixLen && 0 <= suffixLen && prefixLen + suffixLen <= Min(|oldText|, |newText|)
  {
    oldText[..prefixLen] + newText[prefixLen..|newText| - suffixLen] + oldText[|oldText| - suffixLen..]
  }

  /** The final text is the new query up to letter case. */
  lemma FinalTextMatches(oldText: string, newText: string, prefixLen: int, suffixLen: int)
    requires Affixes(oldText, newText, prefixLen, suffixLen)
    ensures |FinalText(oldText, newText, prefixLen, suffixLen)| == |newText|
    ensures Lower(FinalText(oldText, newText, prefixLen, suffixLen)) == Lower(newText)
  {
    var n := |newText|;
    var A, B, C := oldText[..prefixLen], newText[prefixLen..n - suffixLen], oldText[|oldText| - suffixLen..];
    var f := A + B + C;
    assert f == FinalText(oldText, newText, prefixLen, suffixLen);
    forall k | 0 <= k < n
      ensures LowerChar(f[k]) == LowerChar(newText[k])
    {
      if k < prefixLen {
        assert f[k] == A[k] == oldText[k];
      } else if k < n - suffixLen {
        assert f[k] == B[k - prefixLen] == newText[k];
      } else {
        var i := n - 1 - k;
        assert f[k] == C[k - (n - suffixLen)];
        assert f[k] == Back(oldText, i);
        assert newText[k] == Back(newText, i);
      }
    }
    LowerOfSame(f, newText);
  }

  /** Strings that agree character by character up to case have the same
      lower-case form. */
  lemma LowerOfSame(a: string, b: string)
    requires |a| == |b| && forall k :: 0 <= k < |a| ==> LowerChar(a[k]) == LowerChar(b[k])
    ensures Lower(a) == Lower(b)
  {
  }

  /** The text shown after the `k`th tick: first the old middle loses one
      character per tick, then the new middle gains one. */
  function Frame(prefix: string, oldMiddle: string, newMiddle: string, suffix: string, k: int): string
    requires 0 <= k < |oldMiddle| + |newMiddle|
  {
    if k < |oldMiddle| then prefix + oldMiddle[..|oldMiddle| - 1 - k] + suffix
    else prefix + newMiddle[..k - |oldMiddle| + 1] + suffix
  }

  /** The last tick shows the new middle between the kept prefix and
      suffix. */
  lemma LastFrame(prefix: string, oldMiddle: string, newMiddle: string, suffix: string)
    requires |oldMiddle| + |newMiddle| > 0
    ensures Frame(prefix, oldMiddle, newMiddle, suffix, |oldMiddle| + |newMiddle| - 1) == prefix + newMiddle + suffix
  {
    if newMiddle == [] {
      assert oldMiddle[..0] == newMiddle;
    } else {
      assert newMiddle[..|newMiddle|] == newMiddle;
    }
  }

  /** What the element shows after the ticks: the old text when there are
      none. */
  function Displayed(oldText: string, frames: seq<string>): string
  {
    if frames == [] then oldText else frames[|frames| - 1]
  }

  /** The deleting ticks. */
  method DeleteFrames(prefix: string, oldMiddle: string, suffix: string) returns (frames: seq<string>)
    ensures |frames| == |oldMiddle|
    ensures forall k :: 0 <= k < |frames| ==> frames[k] == prefix + oldMiddle[..|oldMiddle| - 1 - k] + suffix
  {
    frames := [];
    var currentMiddle := oldMiddle;
    var deleteIndex := 0;
    while deleteIndex < |oldMiddle|
      invariant 0 <= deleteIndex <= |oldMiddle| && |frames| == deleteIndex
      invariant currentMiddle == oldMiddle[..|oldMiddle| - deleteIndex]
      invariant forall k :: 0 <= k < |frames| ==> frames[k] == prefix + oldMiddle[..|oldMiddle| - 1 - k] + suffix
    {
      currentMiddle := currentMiddle[..|currentMiddle| - 1];
      frames := frames + [prefix + currentMiddle + suffix];
      deleteIndex := deleteIndex + 1;
    }
  }

  /** The typing ticks. */
  method TypeFrames(prefix: string, newMiddle: string, suffix: string) returns (frames: seq<string>)
    ensures |frames| == |newMiddle|
    ensures forall k :: 0 <= k < |frames| ==> frames[k] == prefix + newMiddle[..k + 1] + suffix
  {
    frames := [];
    var currentMiddle := "";
    var typeIndex := 0;
    while typeIndex < |newMiddle|
      invariant 0 <= typeIndex <= |newMiddle| && |frames| == typeIndex
      invariant currentMiddle == newMiddle[..typeIndex]
      invariant forall k :: 0 <= k < |frames| ==> frames[k] == prefix + newMiddle[..k + 1] + suffix
    {
      currentMiddle := currentMiddle + [newMiddle[typeIndex]];
      frames := frames + [prefix + currentMiddle + suffix];
      typeIndex := typeIndex + 1;
    }
  }

  /** The deleting ticks followed by the typing ticks are the frames of
      the animation, and the last one shows the new middle. */
  lemma TicksAreFrames(prefix: string, oldMiddle: string, newMiddle: string, suffix: string,
                       deleting: seq<string>, typing: seq<string>)
    requires |deleting| == |oldMiddle|
    requires forall k :: 0 <= k < |deleting| ==> deleting[k] == prefix + oldMiddle[..|oldMiddle| - 1 - k] + suffix
    requires |typing| == |newMiddle|
    requires forall k :: 0 <= k < |typing| ==> typing[k] == prefix + newMiddle[..k + 1] + suffix
    ensures forall k :: 0 <= k < |deleting + typing| ==>
              (deleting + typing)[k] == Frame(prefix, oldMiddle, newMiddle, suffix, k)
    ensures Displayed(prefix + oldMiddle + suffix, deleting + typing) == prefix + newMiddle + suffix
  {
    var frames := deleting + typing;
    forall k | 0 <= k < |frames|
      ensures frames[k] == Frame(prefix, oldMiddle, newMiddle, suffix, k)
    {
      if k < |deleting| {
        assert frames[k] == deleting[k];
      } else {
        assert frames[k] == typing[k - |deleting|];
      }
    }
    if frames != [] {
      LastFrame(prefix, oldMiddle, newMiddle, suffix);
      assert Displayed(prefix + oldMiddle + suffix, frames) == frames[|frames| - 1];
    } else {
      assert oldMiddle == [] && newMiddle == [];
    }
  }

  /** `animateTextChange(element, oldText, newText)`: the common affixes and
      the texts the element shows, tick after tick. Every tick keeps the old
      prefix and suffix, and the last shows the new query up to letter
      case. */
  method AnimateTextChange(oldText: string, newText: string) returns (prefixLen: int, suffixLen: int, frames: seq<string>)
    ensures Affixes(oldText, newText, prefixLen, suffixLen)
    ensures |frames| == (|oldText| - prefixLen - suffixLen) + (|newText| - prefixLen - suffixLen)
    ensures forall k :: 0 <= k < |frames| ==>
              frames[k] == Frame(oldText[..prefixLen], oldText[prefixLen..|oldText| - suffixLen],
                                 newText[prefixLen..|newText| - suffixLen], oldText[|oldText| - suffixLen..], k)
    ensures Displayed(oldText, frames) == FinalText(oldText, newText, prefixLen, suffixLen)
    ensures Lower(Displayed(oldText, frames)) == Lower(newText)
  {
    prefixLen, suffixLen := CommonAffixes(oldText, newText);
    var oldMiddle := oldText[prefixLen..|oldText| - suffixLen];
    var newMiddle := newText[prefixLen..|newText| - suffixLen];
    var prefix := oldText[..prefixLen];
    var suffix := oldText[|oldText| - suffixLen..];
    var deleting := DeleteFrames(prefix, oldMiddle, suffix);
    var typing := TypeFrames(prefix, newMiddle, suffix);
    frames := deleting + typing;
    TicksAreFrames(prefix, oldMiddle, newMiddle, suffix, deleting, typing);
    assert oldText == prefix + oldMiddle + suffix;
    assert FinalText(oldText, newText, prefixLen, suffixLen) == prefix + newMiddle + suffix;
    FinalTextMatches(oldText, newText, prefixLen, suffixLen);
  }

  // ---------------------------------------------------------------------------
  // The breadcrumb state
  // ---------------------------------------------------------------------------

  /** `state.lastContextSummary`. */
  datatype Summary = Summary(toolsCount: JsVal, scopeAll: JsVal, pathKey: JsVal, hasVisitedAnyPhase: JsVal)

  /** The properties of a `tm:context:summary` detail; `None` for a
      property the detail does not have. */
  datatype SummaryPatch = SummaryPatch(toolsCount: Option<JsVal>, scopeAll: Option<JsVal>, pathKey: Option<JsVal>,
                                       hasVisitedAnyPhase: Option<JsVal>)

  function Pick(o: Option<JsVal>, v: JsVal): JsVal
  {
    if o.Some? then o.value else v
  }

  /** `Object.assign(summary, detail)`. */
  function Assign(s: Summary, p: SummaryPatch): Summary
  {
    Summary(Pick(p.toolsCount, s.toolsCount), Pick(p.scopeAll, s.scopeAll), Pick(p.pathKey, s.pathKey),
            Pick(p.hasVisitedAnyPhase, s.hasVisitedAnyPhase))
  }

  /** `(toolsCount || 0) === 0`. */
  predicate NoCount(toolsCount: JsVal)
  {
    Or(toolsCount, Num(0)) == Num(0)
  }

  /** A count is zero exactly when it is falsy. */
  lemma NoCountSpec(toolsCount: JsVal)
    ensures NoCount(toolsCount) <==> !Truthy(toolsCount)
  {
  }

  /** The default breadcrumb reads "No tools" rather than "All tools". */
  predicate ShowNoTools(s: Summary)
  {
    !Truthy(s.hasVisitedAnyPhase) && !Truthy(s.pathKey) && !Truthy(s.scopeAll) && NoCount(s.toolsCount)
  }

  /** What the breadcrumb element holds. */
  datatype View =
    | Empty
    | Default(noTools: bool)
    | Path(labels: seq<string>, parts: seq<string>)
    | Search(text: string)

  /** The labels of the path segments. */
  function Labels(parts: seq<string>): (labels: seq<string>)
    ensures |labels| == |parts|
    ensures forall i :: 0 <= i < |parts| ==> labels[i] == FormatLabel(Str(parts[i]))
  {
    if parts == [] then [] else Labels(parts[..|parts| - 1]) + [FormatLabel(Str(parts[|parts| - 1]))]
  }

  /** `render` ignores the search keys `search:*`. */
  function Target(pathKey: JsVal): JsVal
  {
    if Truthy(pathKey) && pathKey.Str? && StartsWith(pathKey.s, "search:") then Null else pathKey
  }

  /** The view `render` builds for a key. */
  function ViewFor(pathKey: JsVal, s: Summary): View
  {
    var parts := SplitPathKey(pathKey);
    if !Truthy(pathKey) || !pathKey.Str? || parts == [] then Default(ShowNoTools(s)) else Path(Labels(parts), parts)
  }

  /** The path the copy button copies after `render`. */
  function SlashFor(pathKey: JsVal): Option<string>
  {
    if !Truthy(pathKey) || !pathKey.Str? || SplitPathKey(pathKey) == [] then None else ConvertPathToSlash(pathKey.s)
  }

  /** The copy button is disabled without a path or during a search. */
  predicate CopyDisabled(currentPathSlash: Option<string>, currentSearch: string)
  {
    currentPathSlash.None? || currentPathSlash.value == "" || currentSearch != ""
  }

  /** A search key renders the default breadcrumb and disables copying. */
  lemma SearchKeyRendersDefault(key: string, s: Summary)
    requires StartsWith(key, "search:")
    ensures ViewFor(Target(Str(key)), s) == Default(ShowNoTools(s))
    ensures SlashFor(Target(Str(key))).None?
  {
  }

  /** The key "Root>p1>…>pn" renders the labels of p1 … pn, and the copy
      button copies "p1/…/pn". */
  lemma RootKeyRendersSegments(parts: seq<string>, s: Summary)
    requires parts != [] && CleanParts(parts)
    ensures var key := Str(Join(["Root"] + parts, '>'));
      ViewFor(Target(key), s) == Path(Labels(parts), parts) && SlashFor(Target(key)) == Some(Join(parts, '/'))
  {
    var k := Join(["Root"] + parts, '>');
    SplitPathKeyRoot(parts);
    ConvertMatchesSegments(parts);
    assert k[..4] == "Root";
    assert !StartsWith(k, "search:") by {
      if |k| >= 7 {
        assert k[..7][..4] == "Root";
      }
    }
  }

  class BreadcrumbState {
    var currentPathSlash: Option<string>
    var lastPathKey: JsVal
    var lastSearchQuery: string
    var summary: Summary
    var shown: View

    /** The initial state, before `initialize` renders. */
    constructor ()
      ensures currentPathSlash.None? && lastPathKey == Null && lastSearchQuery == ""
      ensures summary == Summary(Num(0), Bool(false), Null, Bool(false)) && shown == Empty
    {
      currentPathSlash := None;
      lastPathKey := Null;
      lastSearchQuery := "";
      summary := Summary(Num(0), Bool(false), Null, Bool(false));
      shown := Empty;
    }

    /** `renderDefaultBreadcrumb()`. */
    method RenderDefault()
      modifies this
      ensures currentPathSlash.None? && shown == Default(ShowNoTools(summary))
      ensures lastPathKey == old(lastPathKey) && lastSearchQuery == old(lastSearchQuery) && summary == old(summary)
    {
      currentPathSlash := None;
      shown := Default(ShowNoTools(summary));
    }

    /** `renderPathBreadcrumb(pathKey)`. */
    method RenderPath(pathKey: string)
      requires pathKey != ""
      modifies this
      ensures shown == ViewFor(Str(pathKey), summary) && currentPathSlash == SlashFor(Str(pathKey))
      ensures lastPathKey == old(lastPathKey) && lastSearchQuery == old(lastSearchQuery) && summary == old(summary)
    {
      currentPathSlash := ConvertPathToSlash(pathKey);
      var parts := SplitPathKey(Str(pathKey));
      if parts == [] {
        RenderDefault();
        return;
      }
      shown := Path(Labels(parts), parts);
    }

    /** `render(pathKey)`: nothing while a search is typed; otherwise the
        search query is forgotten and the key (a search key counting as
        none) is rendered. */
    method Render(pathKey: JsVal, currentSearch: string)
      requires pathKey.Str? || !Truthy(pathKey)
      modifies this
      ensures currentSearch != "" ==>
                shown == old(shown) && currentPathSlash == old(currentPathSlash) && lastSearchQuery == old(lastSearchQuery)
      ensures currentSearch == "" ==>
                shown == ViewFor(Target(pathKey), summary) && currentPathSlash == SlashFor(Target(pathKey)) &&
                lastSearchQuery == ""
      ensures lastPathKey == old(lastPathKey) && summary == old(summary)
    {
      if currentSearch != "" {
        return;
      }
      if lastSearchQuery != "" {
        lastSearchQuery := "";
      }
      shown := Empty;
      var key := pathKey;
      if Truthy(key) && StartsWith(key.s, "search:") {
        key := Null;
      }
      if !Truthy(key) || !key.Str? {
        RenderDefault();
        return;
      }
      RenderPath(key.s);
    }

    /** `handleScopeSet`: a search key keeps the search breadcrumb while a
        search is typed and otherwise resets to the default; any other key
        is remembered and rendered. */
    method HandleScopeSet(detailPathKey: JsVal, currentSearch: string)
      requires detailPathKey.Str? || !Truthy(detailPathKey)
      modifies this
      ensures var pathKey := Or(detailPathKey, Null);
        if Truthy(pathKey) && StartsWith(pathKey.s, "search:") then
          if currentSearch != "" then
            shown == old(shown) && currentPathSlash == old(currentPathSlash) && lastPathKey == old(lastPathKey) &&
            lastSearchQuery == old(lastSearchQuery)
          else
            lastPathKey == Null && shown == Default(ShowNoTools(summary)) && currentPathSlash.None?
        else
          lastPathKey == pathKey &&
          (currentSearch == "" ==> shown == ViewFor(pathKey, summary) && currentPathSlash == SlashFor(pathKey))
      ensures summary == old(summary)
    {
      var pathKey := Or(detailPathKey, Null);
      if Truthy(pathKey) && StartsWith(pathKey.s, "search:") {
        if currentSearch != "" {
          return;
        }
        lastPathKey := Null;
        Render(Null, currentSearch);
        return;
      }
      lastPathKey := pathKey;
      Render(pathKey, currentSearch);
    }

    /** `handleReset`. */
    method HandleReset(currentSearch: string)
      modifies this
      ensures lastPathKey == Null && lastSearchQuery == "" && summary == old(summary)
      ensures currentSearch == "" ==> currentPathSlash.None? && shown == Default(ShowNoTools(summary))
      ensures currentSearch != "" ==> currentPathSlash.None? && shown == old(shown)
    {
      lastPathKey := Null;
      currentPathSlash := None;
      lastSearchQuery := "";
      Render(Null, currentSearch);
    }

    /** `handleContextSummary`: the detail is merged into the summary, and
        without a path key the default breadcrumb is rendered again. */
    method HandleContextSummary(detail: SummaryPatch, currentSearch: string)
      modifies this
      ensures summary == Assign(old(summary), detail) && lastPathKey == old(lastPathKey)
      ensures !Truthy(summary.pathKey) && currentSearch == "" ==>
                shown == Default(ShowNoTools(summary)) && currentPathSlash.None?
      ensures Truthy(summary.pathKey) || currentSearch != "" ==>
                shown == old(shown) && currentPathSlash == old(currentPathSlash)
    {
      summary := Assign(summary, detail);
      if !Truthy(summary.pathKey) {
        Render(Null, currentSearch);
      }
    }

    /** `handleSearchQuery`: an empty query leaves the search breadcrumb;
        a changed query animates the text already shown; the first query
        creates the search breadcrumb. */
    method HandleSearchQuery(query: string, currentSearch: string)
      requires lastPathKey.Str? || !Truthy(lastPathKey)
      modifies this
      ensures query == "" && currentSearch == "" ==>
                lastSearchQuery == "" && shown == ViewFor(Target(lastPathKey), summary)
      ensures query != "" ==> lastSearchQuery == query
      ensures query != "" && !old(shown).Search? ==> shown == Search(query)
      ensures query != "" && old(shown).Search? && old(lastSearchQuery) != query ==>
                shown.Search? && Lower(shown.text) == Lower(query)
      ensures query != "" && old(shown).Search? && old(lastSearchQuery) == query ==> shown == old(shown)
      ensures lastPathKey == old(lastPathKey) && summary == old(summary)
    {
      if query == "" {
        lastSearchQuery := "";
        Render(lastPathKey, currentSearch);
        return;
      }
      if shown.Search? && lastSearchQuery != query {
        var _, _, frames := AnimateTextChange(lastSearchQuery, query);
        shown := Search(Displayed(lastSearchQuery, frames));
        lastSearchQuery := query;
      } else if !shown.Search? {
        lastSearchQuery := query;
        shown := Search(query);
      }
    }
  }
}

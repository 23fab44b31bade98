/**
  The shared browser helpers: reading and normalising tool fields
  (`ToolUtils`), HTML escaping and the list pass of the markdown renderer
  (`MarkdownUtils`), and label formatting (`DOMUtils`).
*/
module Helpers {
  import opened Text
  import opened Base

  const RootName := "Root"

  /** `TOOLMAP_CONSTANTS.PHASE_COLORS`. */
  const PhaseColors: map<string, string> := map[
    "00_Common" := "hsl(270 91% 65%)",
    "01_Information_Gathering" := "hsl(210 100% 62%)",
    "02_Exploitation" := "hsl(4 85% 62%)",
    "03_Post_Exploitation" := "hsl(32 98% 55%)",
    "04_Red_Team" := "hsl(4 85% 62%)",
    "05_Forensics" := "hsl(220 85% 55%)",
    "06_Miscellaneous" := "hsl(158 64% 52%)"
  ]

  const DefaultPhaseColor := "hsl(var(--accent))"

  // ---------------------------------------------------------------------------
  // normalizeId
  // ---------------------------------------------------------------------------

  /** The characters `[\w\- ]` that survive the id filter. */
  predicate IdChar(c: char)
  {
    ('a' <= c <= 'z') || ('A' <= c <= 'Z') || ('0' <= c <= '9') || c == '_' || c == '-' || c == ' '
  }

  /** `replace(/[^\w\- ]+/g, '')` */
  function KeepIdChars(s: string): (r: string)
    ensures |r| <= |s|
    ensures forall i :: 0 <= i < |r| ==> IdChar(r[i])
  {
    if s == [] then []
    else if IdChar(s[0]) then [s[0]] + KeepIdChars(s[1..]) else KeepIdChars(s[1..])
  }

  /** The filter keeps only characters of its input. */
  lemma {:induction false} KeepIdCharsFrom(s: string, q: char -> bool)
    requires forall i :: 0 <= i < |s| ==> q(s[i])
    ensures forall i :: 0 <= i < |KeepIdChars(s)| ==> q(KeepIdChars(s)[i])
  {
    if s != [] {
      KeepIdCharsFrom(s[1..], q);
    }
  }

  /** The filter leaves a string of id characters alone. */
  lemma {:induction false} KeepIdCharsAll(s: string)
    requires forall i :: 0 <= i < |s| ==> IdChar(s[i])
    ensures KeepIdChars(s) == s
  {
    if s != [] {
      KeepIdCharsAll(s[1..]);
    }
  }

  /** `replace(/p+/g, rep)`: every maximal run of characters satisfying `p`
      becomes one `rep`. */
  function CollapseRuns(s: string, p: char -> bool, rep: char): (r: string)
    ensures |r| <= |s|
    ensures r == [] <==> s == []
    ensures r != [] ==> r[0] == (if p(s[0]) then rep else s[0])
    ensures p(rep) ==> forall i :: 0 <= i < |r| - 1 ==> !(p(r[i]) && p(r[i + 1]))
    decreases |s|
  {
    if s == [] then []
    else if p(s[0]) then [rep] + CollapseRuns(TrimStart(s[1..], p), p, rep)
    else [s[0]] + CollapseRuns(s[1..], p, rep)
  }

  /** Every character of `r` satisfies `q`, and is `rep` or outside `p`. */
  predicate AllFrom(r: string, p: char -> bool, rep: char, q: char -> bool)
  {
    forall i :: 0 <= i < |r| ==> q(r[i]) && (r[i] == rep || !p(r[i]))
  }

  lemma ConsAllFrom(head: char, rt: string, p: char -> bool, rep: char, q: char -> bool)
    requires q(head) && (head == rep || !p(head))
    requires AllFrom(rt, p, rep, q)
    ensures AllFrom([head] + rt, p, rep, q)
  {
    var r := [head] + rt;
    forall i | 0 < i < |r|
      ensures q(r[i]) && (r[i] == rep || !p(r[i]))
    {
      assert r[i] == rt[i - 1];
    }
  }

  lemma SuffixAll(s: string, tail: string, q: char -> bool)
    requires |tail| <= |s| && tail == s[|s| - |tail|..]
    requires forall i :: 0 <= i < |s| ==> q(s[i])
    ensures forall i :: 0 <= i < |tail| ==> q(tail[i])
  {
    forall i | 0 <= i < |tail|
      ensures q(tail[i])
    {
      assert tail[i] == s[|s| - |tail| + i];
    }
  }

  /** Every character of the collapse is `rep` or a character of the input
      outside the runs. */
  lemma {:induction false} CollapseRunsFrom(s: string, p: char -> bool, rep: char, q: char -> bool)
    requires forall i :: 0 <= i < |s| ==> q(s[i])
    requires q(rep)
    ensures AllFrom(CollapseRuns(s, p, rep), p, rep, q)
    decreases |s|
  {
    if s != [] {
      var head := if p(s[0]) then rep else s[0];
      var tail := if p(s[0]) then TrimStart(s[1..], p) else s[1..];
      SuffixAll(s, tail, q);
      CollapseRunsFrom(tail, p, rep, q);
      assert CollapseRuns(s, p, rep) == [head] + CollapseRuns(tail, p, rep);
      ConsAllFrom(head, CollapseRuns(tail, p, rep), p, rep, q);
    }
  }

  /** A string without runs of `p` characters is left alone by the collapse
      when `rep` is the only `p` character it holds. */
  lemma {:induction false} CollapseRunsNone(s: string, p: char -> bool, rep: char)
    requires forall i :: 0 <= i < |s| ==> p(s[i]) ==> s[i] == rep
    requires forall i :: 0 <= i < |s| - 1 ==> !(p(s[i]) && p(s[i + 1]))
    ensures CollapseRuns(s, p, rep) == s
    decreases |s|
  {
    if s != [] {
      CollapseRunsNone(s[1..], p, rep);
      if p(s[0]) && |s| > 1 {
        assert !p(s[1]);
        assert TrimStart(s[1..], p) == s[1..];
      }
    }
  }

  predicate IsHyphen(c: char)
  {
    c == '-'
  }

  predicate NotUpper(c: char)
  {
    !('A' <= c <= 'Z')
  }

  /** A character a normalised id may hold. */
  predicate IdOut(c: char)
  {
    IdChar(c) && NotUpper(c) && !IsJsSpace(c)
  }

  /** `ToolUtils.normalizeId`. */
  function NormalizeId(v: JsVal): (id: string)
  {
    IdPipeline(Lower(JsTrim(StrOrEmpty(v))))
  }

  /** A well-formed id: made of lower-case ASCII letters, digits, `_` and
      `-`, with no whitespace and no two hyphens in a row. */
  ghost predicate CleanId(id: string)
  {
    (forall i :: 0 <= i < |id| ==> IdOut(id[i])) &&
    (forall i :: 0 <= i < |id| - 1 ==> !(id[i] == '-' && id[i + 1] == '-'))
  }

  lemma LowerNotUpper(s: string)
    ensures forall i :: 0 <= i < |Lower(s)| ==> NotUpper(Lower(s)[i])
  {
  }

  predicate IdOrUpperFree(c: char)
  {
    IdChar(c) && NotUpper(c)
  }

  /** The filter and the two collapses of `normalizeId`, on a string without
      upper-case ASCII letters. */
  function IdPipeline(s: string): string
  {
    CollapseRuns(CollapseRuns(KeepIdChars(s), IsJsSpace, '-'), IsHyphen, '-')
  }

  lemma IdPipelineClean(s: string)
    requires forall i :: 0 <= i < |s| ==> NotUpper(s[i])
    ensures CleanId(IdPipeline(s))
  {
    var a := KeepIdChars(s);
    KeepIdCharsFrom(s, NotUpper);
    assert forall i :: 0 <= i < |a| ==> IdOrUpperFree(a[i]);
    var b := CollapseRuns(a, IsJsSpace, '-');
    CollapseRunsFrom(a, IsJsSpace, '-', IdOrUpperFree);
    assert forall i :: 0 <= i < |b| ==> IdOut(b[i]);
    var r := CollapseRuns(b, IsHyphen, '-');
    CollapseRunsFrom(b, IsHyphen, '-', IdOut);
    assert forall i :: 0 <= i < |r| - 1 ==> !(IsHyphen(r[i]) && IsHyphen(r[i + 1]));
  }

  /** Normalised ids are lower-case, free of whitespace and of `--`. */
  lemma NormalizeIdClean(v: JsVal)
    ensures CleanId(NormalizeId(v))
  {
    var s := Lower(JsTrim(StrOrEmpty(v)));
    LowerNotUpper(JsTrim(StrOrEmpty(v)));
    IdPipelineClean(s);
    assert NormalizeId(v) == IdPipeline(s);
  }

  /** The pipeline leaves a clean id alone. */
  lemma IdPipelineFixed(id: string)
    requires CleanId(id)
    ensures IdPipeline(id) == id
  {
    KeepIdCharsAll(id);
    CollapseRunsNone(id, IsJsSpace, '-');
    CollapseRunsNone(id, IsHyphen, '-');
  }

  lemma TrimClean(id: string)
    requires CleanId(id)
    ensures JsTrim(id) == id
  {
    if id != "" {
      assert !IsJsSpace(id[0]) && IdOut(id[0]);
      assert TrimStart(id, IsJsSpace) == id;
      assert IdOut(id[|id| - 1]);
    }
  }

  lemma LowerClean(id: string)
    requires CleanId(id)
    ensures Lower(id) == id
  {
    assert forall i :: 0 <= i < |id| ==> IdOut(id[i]) && LowerChar(id[i]) == id[i];
  }

  /** Normalising a normalised id changes nothing. */
  lemma NormalizeIdIdempotent(v: JsVal)
    ensures NormalizeId(Str(NormalizeId(v))) == NormalizeId(v)
  {
    var id := NormalizeId(v);
    NormalizeIdClean(v);
    TrimClean(id);
    LowerClean(id);
    IdPipelineFixed(id);
    NormalizeIdStr(id);
  }

  lemma NormalizeIdStr(s: string)
    ensures NormalizeId(Str(s)) == IdPipeline(Lower(JsTrim(s)))
  {
  }

  // ---------------------------------------------------------------------------
  // Tool fields
  // ---------------------------------------------------------------------------

  /** `ToolUtils.getName`: `title || name || id || ''` as a string. */
  function GetName(t: Record): (name: string)
    ensures Truthy(Get(t, "title")) ==> name == ToStr(Get(t, "title"))
    ensures !Truthy(Get(t, "title")) && !Truthy(Get(t, "name")) && !Truthy(Get(t, "id")) ==> name == ""
  {
    StrOrEmpty(Or(Get(t, "title"), Or(Get(t, "name"), Get(t, "id"))))
  }

  /** `ToolUtils.getCategoryPath`: the first of `category_path` and
      `categoryPath` that is an array, else the empty path. */
  function GetCategoryPath(t: Record): (p: seq<string>)
    ensures Get(t, "category_path").Arr? ==> p == Get(t, "category_path").items
    ensures !Get(t, "category_path").Arr? && Get(t, "categoryPath").Arr? ==> p == Get(t, "categoryPath").items
    ensures !Get(t, "category_path").Arr? && !Get(t, "categoryPath").Arr? ==> p == []
  {
    if Get(t, "category_path").Arr? then Get(t, "category_path").items
    else if Get(t, "categoryPath").Arr? then Get(t, "categoryPath").items
    else []
  }

  /** `ToolUtils.getPrimaryPhase`: the first segment, or ''. */
  function GetPrimaryPhase(t: Record): (phase: string)
    ensures GetCategoryPath(t) != [] ==> phase == GetCategoryPath(t)[0]
    ensures GetCategoryPath(t) == [] ==> phase == ""
  {
    var p := GetCategoryPath(t);
    if |p| > 0 then p[0] else ""
  }

  /** The sort key of a phase group. */
  datatype PhaseKey = PhaseKey(num: int, str: string)

  const UnnumberedPhase := 9998

  /** `/^(\d{2,})\D/` matches: two or more digits then a non-digit. */
  predicate NumberedPhase(phase: string)
  {
    DigitRun(phase) >= 2 && DigitRun(phase) < |phase|
  }

  /** `ToolUtils.getPhaseGroupKey`. */
  function GetPhaseGroupKey(t: Record): (k: PhaseKey)
    ensures NumberedPhase(GetPrimaryPhase(t)) ==>
              k == PhaseKey(DigitsValue(GetPrimaryPhase(t)[..DigitRun(GetPrimaryPhase(t))]), "")
    ensures !NumberedPhase(GetPrimaryPhase(t)) ==> k == PhaseKey(UnnumberedPhase, Lower(GetPrimaryPhase(t)))
  {
    var phase := GetPrimaryPhase(t);
    if NumberedPhase(phase) then PhaseKey(DigitsValue(phase[..DigitRun(phase)]), "")
    else PhaseKey(UnnumberedPhase, Lower(phase))
  }

  /** A phase written as two or more digits, a non-digit and anything after
      it is keyed by the value of its digits, whatever follows them. */
  lemma NumberedPhaseKey(t: Record, d: string, c: char, rest: string)
    requires |d| >= 2 && forall i :: 0 <= i < |d| ==> IsDigit(d[i])
    requires !IsDigit(c)
    requires GetPrimaryPhase(t) == d + [c] + rest
    ensures GetPhaseGroupKey(t) == PhaseKey(DigitsValue(d), "")
  {
    var phase := GetPrimaryPhase(t);
    var n := DigitRun(phase);
    assert phase[|d|] == c;
    assert forall i :: 0 <= i < |d| ==> phase[i] == d[i];
    assert n == |d|;
    assert phase[..n] == d;
  }

  /** The numbered phases `0<k>_…` of the toolmap are keyed by `k`, and every
      phase without such a prefix shares the key 9998, so it sorts after them. */
  lemma ToolmapPhaseKey(t: Record, k: nat, rest: string)
    requires k < 10
    requires GetPrimaryPhase(t) == "0" + NatToString(k) + "_" + rest
    ensures GetPhaseGroupKey(t).num == k < UnnumberedPhase
  {
    var d := "0" + NatToString(k);
    assert GetPrimaryPhase(t) == d + ['_'] + rest;
    NumberedPhaseKey(t, d, '_', rest);
    DigitsValueLeadingZero(NatToString(k));
    DigitsValueOfNat(k);
  }

  /** `ToolUtils.getPhaseColor`. */
  function GetPhaseColor(phase: string): (c: string)
    ensures phase in PhaseColors ==> c == PhaseColors[phase]
    ensures phase !in PhaseColors ==> c == DefaultPhaseColor
  {
    if phase in PhaseColors && PhaseColors[phase] != "" then PhaseColors[phase] else DefaultPhaseColor
  }

  /** The first value that is neither `null` nor `undefined` (`a ?? b ?? …`),
      the last one when all are. */
  function FirstNonNullish(vs: seq<JsVal>): (v: JsVal)
    requires vs != []
    ensures v in vs
  {
    if |vs| == 1 then vs[0] else Coalesce(vs[0], FirstNonNullish(vs[1..]))
  }

  lemma {:induction false} FirstNonNullishSpec(vs: seq<JsVal>)
    requires vs != []
    ensures forall i :: 0 <= i < |vs| && !Nullish(vs[i]) && (forall j :: 0 <= j < i ==> Nullish(vs[j])) ==>
              FirstNonNullish(vs) == vs[i]
    ensures (forall i :: 0 <= i < |vs| ==> Nullish(vs[i])) ==> Nullish(FirstNonNullish(vs))
  {
    if |vs| > 1 {
      FirstNonNullishSpec(vs[1..]);
      forall i | 0 <= i < |vs| && !Nullish(vs[i]) && (forall j :: 0 <= j < i ==> Nullish(vs[j]))
        ensures FirstNonNullish(vs) == vs[i]
      {
        if i > 0 {
          assert Nullish(vs[0]);
          assert vs[1..][i - 1] == vs[i];
          forall j | 0 <= j < i - 1
            ensures Nullish(vs[1..][j])
          {
            assert vs[1..][j] == vs[j + 1];
          }
        }
      }
      if forall i :: 0 <= i < |vs| ==> Nullish(vs[i]) {
        assert Nullish(vs[0]);
        forall j | 0 <= j < |vs| - 1
          ensures Nullish(vs[1..][j])
        {
          assert vs[1..][j] == vs[j + 1];
        }
      }
    }
  }

  const BestInKeys := ["best_in", "bestIn", "best-in", "best"]

  /** The four spellings of the flag, in the order they are consulted. */
  function BestInValues(t: Record): (vs: seq<JsVal>)
    ensures |vs| == 4
  {
    [Get(t, "best_in"), Get(t, "bestIn"), Get(t, "best-in"), Get(t, "best")]
  }

  /** `ToolUtils.readBestInFlag` on an object. */
  function ReadBestInFlag(t: Record): bool
  {
    Truthy(Coalesce(Get(t, "best_in"), Coalesce(Get(t, "bestIn"), Coalesce(Get(t, "best-in"), Get(t, "best")))))
  }

  /** The flag is the truthiness of the first spelling that is present and not
      null; when none is, it is false. */
  lemma ReadBestInFlagSpec(t: Record)
    ensures ReadBestInFlag(t) == Truthy(FirstNonNullish(BestInValues(t)))
    ensures (forall i :: 0 <= i < 4 ==> Nullish(BestInValues(t)[i])) ==> !ReadBestInFlag(t)
  {
    var vs := BestInValues(t);
    assert FirstNonNullish(vs[2..]) == Coalesce(vs[2], vs[3]) by {
      assert vs[2..][1..] == [vs[3]];
    }
    assert FirstNonNullish(vs[1..]) == Coalesce(vs[1], FirstNonNullish(vs[2..])) by {
      assert vs[1..][1..] == vs[2..];
    }
  }

  /** `ToolUtils.readInstalledFlag` on an object. */
  function ReadInstalledFlag(t: Record): (b: bool)
    ensures b <==> "installed" in t && Truthy(t["installed"])
  {
    Truthy(Get(t, "installed"))
  }

  /** `ToolUtils.createPathKey`: the segments joined with '>'. */
  function CreatePathKey(segments: seq<string>): (key: string)
  {
    Join(segments, '>')
  }

  /** A key splits back into its segments when no segment holds '>'. */
  lemma PathKeyRoundTrip(segments: seq<string>)
    requires |segments| >= 1 && NoSep(segments, '>')
    ensures Split(CreatePathKey(segments), '>') == segments
  {
    SplitJoin(segments, '>');
  }

  // ---------------------------------------------------------------------------
  // HTML escaping
  // ---------------------------------------------------------------------------

  /** The entity written for a single quote: `&#39;` by `DOMUtils.escapeHtml`,
      `&#039;` by `MarkdownUtils._escape`. */
  const AposShort := "&#39;"
  const AposLong := "&#039;"

  function EscapeChar(c: char, apos: string): (r: string)
  {
    if c == '&' then "&amp;"
    else if c == '<' then "&lt;"
    else if c == '>' then "&gt;"
    else if c == '"' then "&quot;"
    else if c == '\'' then apos
    else [c]
  }

  /** Replacing `&`, `<`, `>`, `"` and `'` by their entities. Replacing `&`
      first and then each other character in turn, as `_escape` does, is the
      same as this one-pass replacement, since no entity holds any of the
      later characters. */
  function Escape(s: string, apos: string): (r: string)
  {
    if s == [] then [] else EscapeChar(s[0], apos) + Escape(s[1..], apos)
  }

  /** `DOMUtils.escapeHtml`. */
  function EscapeHtml(v: JsVal): string
  {
    Escape(StrOrEmpty(v), AposShort)
  }

  /** `MarkdownUtils._escape`. */
  function MarkdownEscape(v: JsVal): string
  {
    Escape(StrOrEmpty(v), AposLong)
  }

  predicate Special(c: char)
  {
    c == '&' || c == '<' || c == '>' || c == '"' || c == '\''
  }

  /** `s` starts with one of the five entities. */
  predicate EntityAt(s: string, apos: string)
  {
    "&amp;" <= s || "&lt;" <= s || "&gt;" <= s || "&quot;" <= s || apos <= s
  }

  ghost predicate Escaped(r: string, apos: string)
  {
    (forall i :: 0 <= i < |r| ==> r[i] != '<' && r[i] != '>' && r[i] != '"' && r[i] != '\'') &&
    (forall i :: 0 <= i < |r| && r[i] == '&' ==> EntityAt(r[i..], apos))
  }

  /** One escaped character holds no raw special character, and at most a
      leading `&`, which starts its entity. */
  lemma EscapeCharShape(c: char, apos: string, b: string)
    requires apos == AposShort || apos == AposLong
    ensures var a := EscapeChar(c, apos);
            a != [] &&
            (forall i :: 0 <= i < |a| ==> a[i] != '<' && a[i] != '>' && a[i] != '"' && a[i] != '\'' && (a[i] == '&' ==> i == 0)) &&
            (a[0] == '&' ==> EntityAt(a + b, apos))
  {
    var a := EscapeChar(c, apos);
    assert a <= a + b;
  }

  lemma EscapedCons(a: string, b: string, apos: string)
    requires Escaped(b, apos)
    requires forall i :: 0 <= i < |a| ==> a[i] != '<' && a[i] != '>' && a[i] != '"' && a[i] != '\'' && (a[i] == '&' ==> i == 0)
    requires a != [] && a[0] == '&' ==> EntityAt(a + b, apos)
    ensures Escaped(a + b, apos)
  {
    var r := a + b;
    forall i | 0 <= i < |r|
      ensures r[i] != '<' && r[i] != '>' && r[i] != '"' && r[i] != '\''
      ensures r[i] == '&' ==> EntityAt(r[i..], apos)
    {
      if i >= |a| {
        assert r[i] == b[i - |a|];
        assert r[i..] == b[i - |a|..];
      } else {
        assert r[i] == a[i];
      }
    }
  }

  /** The escaped text holds no `<`, `>`, `"` or `'`, and every `&` in it
      starts an entity. */
  lemma {:induction false} EscapeSafe(s: string, apos: string)
    requires apos == AposShort || apos == AposLong
    ensures Escaped(Escape(s, apos), apos)
  {
    if s != [] {
      EscapeSafe(s[1..], apos);
      EscapeCharShape(s[0], apos, Escape(s[1..], apos));
      EscapedCons(EscapeChar(s[0], apos), Escape(s[1..], apos), apos);
    }
  }

  /** Decoding of the five entities, the inverse of `Escape`. */
  function Unescape(s: string, apos: string): string
    requires apos == AposShort || apos == AposLong
    decreases |s|
  {
    if s == [] then []
    else if "&amp;" <= s then "&" + Unescape(s[5..], apos)
    else if "&lt;" <= s then "<" + Unescape(s[4..], apos)
    else if "&gt;" <= s then ">" + Unescape(s[4..], apos)
    else if "&quot;" <= s then "\"" + Unescape(s[6..], apos)
    else if apos <= s then "'" + Unescape(s[|apos|..], apos)
    else [s[0]] + Unescape(s[1..], apos)
  }

  /** Decoding reads one escaped character back. */
  lemma UnescapeStep(c: char, rest: string, apos: string)
    requires apos == AposShort || apos == AposLong
    ensures Unescape(EscapeChar(c, apos) + rest, apos) == [c] + Unescape(rest, apos)
  {
    var e := EscapeChar(c, apos) + rest;
    if c == '&' {
      assert "&amp;" <= e && e[5..] == rest;
    } else if c == '<' {
      UnescapeSecond(e, 'l', apos);
      assert "&lt;" <= e && e[4..] == rest;
    } else if c == '>' {
      UnescapeSecond(e, 'g', apos);
      assert "&gt;" <= e && e[4..] == rest;
    } else if c == '"' {
      UnescapeSecond(e, 'q', apos);
      assert "&quot;" <= e && e[6..] == rest;
    } else if c == '\'' {
      UnescapeSecond(e, '#', apos);
      assert apos <= e && e[|apos|..] == rest;
    } else {
      assert e[0] == c && e[1..] == rest;
    }
  }

  /** The second character of an entity tells which one it is. */
  lemma UnescapeSecond(e: string, second: char, apos: string)
    requires apos == AposShort || apos == AposLong
    requires |e| > 1 && e[1] == second
    ensures second != 'a' ==> !("&amp;" <= e)
    ensures second != 'l' ==> !("&lt;" <= e)
    ensures second != 'g' ==> !("&gt;" <= e)
    ensures second != 'q' ==> !("&quot;" <= e)
  {
  }

  /** Escaping loses nothing: decoding gives the text back. */
  lemma {:induction false} UnescapeEscape(s: string, apos: string)
    requires apos == AposShort || apos == AposLong
    ensures Unescape(Escape(s, apos), apos) == s
  {
    if s != [] {
      UnescapeEscape(s[1..], apos);
      UnescapeStep(s[0], Escape(s[1..], apos), apos);
      assert [s[0]] + s[1..] == s;
    }
  }

  /** `DOMUtils.escapeAttr` also replaces `"`, which the escape already
      removed: it equals `escapeHtml`. */
  lemma EscapeAttrSame(v: JsVal)
    ensures ReplaceAll(EscapeHtml(v), "\"", "&quot;") == EscapeHtml(v)
  {
    EscapeSafe(StrOrEmpty(v), AposShort);
    NoQuoteReplace(EscapeHtml(v));
  }

  lemma {:induction false} NoQuoteReplace(s: string)
    requires forall i :: 0 <= i < |s| ==> s[i] != '"'
    ensures ReplaceAll(s, "\"", "&quot;") == s
  {
    if s != [] {
      assert s[0] != '"';
      assert !("\"" <= s);
      assert forall i :: 0 <= i < |s[1..]| ==> s[1..][i] == s[i + 1];
      NoQuoteReplace(s[1..]);
    }
  }

  // ---------------------------------------------------------------------------
  // Unordered lists of the markdown renderer
  // ---------------------------------------------------------------------------

  /** `/^\s*-\s+/`: optional blanks, a dash, then at least one blank. */
  predicate IsItemLine(line: string)
  {
    var t := TrimStart(line, IsJsSpace);
    |t| >= 2 && t[0] == '-' && IsJsSpace(t[1])
  }

  /** The line without the matched marker. */
  function ItemText(line: string): string
  {
    var t := TrimStart(line, IsJsSpace);
    if t == [] then [] else TrimStart(t[1..], IsJsSpace)
  }

  /** An output line of the list pass, tagged with where it comes from. */
  datatype ListLine = Open | Close | Item(text: string) | Pass(line: string)

  function ListLineText(l: ListLine): string
  {
    match l
    case Open => "<ul>"
    case Close => "</ul>"
    case Item(t) => "<li>" + t + "</li>"
    case Pass(line) => line
  }

  /** The list pass over the remaining lines, `inList` telling whether a
      `<ul>` is open. */
  function ListLines(lines: seq<string>, isItem: string -> bool, text: string -> string, inList: bool): seq<ListLine>
  {
    if lines == [] then (if inList then [Close] else [])
    else if isItem(lines[0]) then
      (if inList then [] else [Open]) + [Item(text(lines[0]))] + ListLines(lines[1..], isItem, text, true)
    else
      (if inList then [Close] else []) + [Pass(lines[0])] + ListLines(lines[1..], isItem, text, false)
  }

  function Texts(ls: seq<ListLine>): (r: seq<string>)
    ensures |r| == |ls|
  {
    if ls == [] then [] else [ListLineText(ls[0])] + Texts(ls[1..])
  }

  lemma {:induction false} TextsAppend(a: seq<ListLine>, b: seq<ListLine>)
    ensures Texts(a + b) == Texts(a) + Texts(b)
  {
    if a == [] {
      assert a + b == b;
    } else {
      TextsAppend(a[1..], b);
      assert (a + b)[1..] == a[1..] + b;
      assert Texts(a + b) == [ListLineText(a[0])] + Texts(a[1..] + b);
    }
  }

  /** A well-nested list pass: a `<ul>` is opened only right before an
      item and only when none is open, items appear only inside a list,
      other lines only outside, a `</ul>` is followed by another line or the
      end, and the last list is closed. */
  predicate WellNested(ls: seq<ListLine>, open: bool)
  {
    if ls == [] then !open
    else match ls[0]
      case Open => !open && |ls| > 1 && ls[1].Item? && WellNested(ls[1..], true)
      case Close => open && (|ls| == 1 || ls[1].Pass?) && WellNested(ls[1..], false)
      case Item(_) => open && WellNested(ls[1..], true)
      case Pass(_) => !open && WellNested(ls[1..], false)
  }

  function ItemsOf(ls: seq<ListLine>): seq<string>
  {
    if ls == [] then []
    else if ls[0].Item? then [ls[0].text] + ItemsOf(ls[1..])
    else ItemsOf(ls[1..])
  }

  function PassesOf(ls: seq<ListLine>): seq<string>
  {
    if ls == [] then []
    else if ls[0].Pass? then [ls[0].line] + PassesOf(ls[1..])
    else PassesOf(ls[1..])
  }

  /** The texts of the item lines, in order. */
  function ItemTexts(lines: seq<string>, isItem: string -> bool, text: string -> string): seq<string>
  {
    if lines == [] then []
    else if isItem(lines[0]) then [text(lines[0])] + ItemTexts(lines[1..], isItem, text)
    else ItemTexts(lines[1..], isItem, text)
  }

  /** The other lines, in order. */
  function OtherLines(lines: seq<string>, isItem: string -> bool): seq<string>
  {
    if lines == [] then []
    else if isItem(lines[0]) then OtherLines(lines[1..], isItem)
    else [lines[0]] + OtherLines(lines[1..], isItem)
  }

  lemma {:induction false} ItemsAppend(a: seq<ListLine>, b: seq<ListLine>)
    ensures ItemsOf(a + b) == ItemsOf(a) + ItemsOf(b)
  {
    if a == [] {
      assert a + b == b;
    } else {
      ItemsAppend(a[1..], b);
      assert (a + b)[0] == a[0];
      assert (a + b)[1..] == a[1..] + b;
    }
  }

  lemma {:induction false} PassesAppend(a: seq<ListLine>, b: seq<ListLine>)
    ensures PassesOf(a + b) == PassesOf(a) + PassesOf(b)
  {
    if a == [] {
      assert a + b == b;
    } else {
      PassesAppend(a[1..], b);
      assert (a + b)[0] == a[0];
      assert (a + b)[1..] == a[1..] + b;
    }
  }

  lemma ItemsPassesAppend(a: seq<ListLine>, b: seq<ListLine>)
    ensures ItemsOf(a + b) == ItemsOf(a) + ItemsOf(b)
    ensures PassesOf(a + b) == PassesOf(a) + PassesOf(b)
  {
    ItemsAppend(a, b);
    PassesAppend(a, b);
  }

  /** The list pass is well nested. */
  lemma {:induction false} ListLinesNested(lines: seq<string>, isItem: string -> bool, text: string -> string, inList: bool)
    ensures WellNested(ListLines(lines, isItem, text, inList), inList)
  {
    if lines != [] {
      var b := isItem(lines[0]);
      var rest := ListLines(lines[1..], isItem, text, b);
      ListLinesNested(lines[1..], isItem, text, b);
      if b {
        var xs := [Item(text(lines[0]))] + rest;
        NestedCons(Item(text(lines[0])), rest, true);
        if !inList {
          NestedCons(Open, xs, false);
          assert ListLines(lines, isItem, text, inList) == [Open] + xs;
        } else {
          assert ListLines(lines, isItem, text, inList) == [] + xs;
        }
      } else {
        var xs := [Pass(lines[0])] + rest;
        NestedCons(Pass(lines[0]), rest, false);
        if inList {
          NestedCons(Close, xs, true);
          assert ListLines(lines, isItem, text, inList) == [Close] + xs;
        } else {
          assert ListLines(lines, isItem, text, inList) == [] + xs;
        }
      }
    }
  }

  /** One step of `WellNested`, read from the front. */
  lemma NestedCons(x: ListLine, rest: seq<ListLine>, open: bool)
    ensures WellNested([x] + rest, open) <==>
            match x
              case Open => !open && |rest| > 0 && rest[0].Item? && WellNested(rest, true)
              case Close => open && (rest == [] || rest[0].Pass?) && WellNested(rest, false)
              case Item(_) => open && WellNested(rest, true)
              case Pass(_) => !open && WellNested(rest, false)
  {
    assert ([x] + rest)[1..] == rest;
  }

  /** The list pass makes one `<li>` per item line in order, and passes every
      other line through unchanged and in order. */
  lemma {:induction false} ListLinesContent(lines: seq<string>, isItem: string -> bool, text: string -> string, inList: bool)
    ensures ItemsOf(ListLines(lines, isItem, text, inList)) == ItemTexts(lines, isItem, text)
    ensures PassesOf(ListLines(lines, isItem, text, inList)) == OtherLines(lines, isItem)
  {
    if lines == [] {
      if inList {
        assert ItemsOf([Close]) == [] + ItemsOf([]);
        assert PassesOf([Close]) == [] + PassesOf([]);
      }
    } else {
      var b := isItem(lines[0]);
      var rest := ListLines(lines[1..], isItem, text, b);
      ListLinesContent(lines[1..], isItem, text, b);
      var head := if b then (if inList then [] else [Open]) + [Item(text(lines[0]))]
                  else (if inList then [Close] else []) + [Pass(lines[0])];
      assert ListLines(lines, isItem, text, inList) == head + rest;
      ItemsPassesAppend(head, rest);
      if b {
        if !inList {
          ItemsPassesAppend([Open], [Item(text(lines[0]))]);
        }
      } else if inList {
        ItemsPassesAppend([Close], [Pass(lines[0])]);
      }
    }
  }

  /** What the pass emits for one line, given whether a list is open. */
  function LineHead(line: string, isItem: string -> bool, text: string -> string, inList: bool): seq<ListLine>
  {
    if isItem(line) then (if inList then [] else [Open]) + [Item(text(line))]
    else (if inList then [Close] else []) + [Pass(line)]
  }

  lemma ListLinesAt(lines: seq<string>, isItem: string -> bool, text: string -> string, inList: bool, i: nat)
    requires i < |lines|
    ensures ListLines(lines[i..], isItem, text, inList)
         == LineHead(lines[i], isItem, text, inList) + ListLines(lines[i + 1..], isItem, text, isItem(lines[i]))
  {
    assert lines[i..][0] == lines[i];
    assert lines[i..][1..] == lines[i + 1..];
  }

  /** The loop of `MarkdownUtils._lists` over the lines, with its `inList`
      flag, for a given item test and item text. */
  method ListPass(lines: seq<string>, isItem: string -> bool, text: string -> string) returns (output: seq<ListLine>)
    ensures output == ListLines(lines, isItem, text, false)
  {
    var inList := false;
    output := [];
    assert lines[0..] == lines;
    for i := 0 to |lines|
      invariant output + ListLines(lines[i..], isItem, text, inList) == ListLines(lines, isItem, text, false)
    {
      ghost var before, wasIn := output, inList;
      ListLinesAt(lines, isItem, text, inList, i);
      if isItem(lines[i]) {
        if !inList {
          output := output + [Open];
          inList := true;
        }
        output := output + [Item(text(lines[i]))];
      } else {
        if inList {
          output := output + [Close];
          inList := false;
        }
        output := output + [Pass(lines[i])];
      }
      assert output == before + LineHead(lines[i], isItem, text, wasIn);
      assert inList == isItem(lines[i]);
      ghost var rest := ListLines(lines[i + 1..], isItem, text, inList);
      AppendAssoc(before, LineHead(lines[i], isItem, text, wasIn), rest);
    }
    assert lines[|lines|..] == [];
    if inList {
      output := output + [Close];
    }
  }

  /** `MarkdownUtils._lists`. */
  method Lists(html: string) returns (out: string)
    ensures out == Join(Texts(ListLines(Split(html, '\n'), IsItemLine, ItemText, false)), '\n')
  {
    var output := ListPass(Split(html, '\n'), IsItemLine, ItemText);
    out := Join(Texts(output), '\n');
  }

  // ---------------------------------------------------------------------------
  // Labels
  // ---------------------------------------------------------------------------

  predicate IsUnderscoreOrHyphen(c: char)
  {
    c == '_' || c == '-'
  }

  /** `replace(/^\d+[_-]*\/, '')`: the leading digit run (`DigitRun`) goes,
      and with it, when there is one, every `_` and `-` that follows it. */
  function DropNumberPrefix(s: string): (r: string)
    ensures |r| <= |s| && r == s[|s| - |r|..]
    ensures DigitRun(s) == 0 ==> r == s
    ensures DigitRun(s) <= |s| - |r|
    ensures forall i :: DigitRun(s) <= i < |s| - |r| ==> IsUnderscoreOrHyphen(s[i])
    ensures DigitRun(s) > 0 && r != [] ==> !IsUnderscoreOrHyphen(r[0])
  {
    var n := DigitRun(s);
    if n == 0 then s else TrimStart(s[n..], IsUnderscoreOrHyphen)
  }

  /** `DOMUtils.formatLabel`. */
  function FormatLabel(v: JsVal): (shown: string)
    ensures forall i :: 0 <= i < |shown| ==> shown[i] != '_'
  {
    var s := ReplaceChar(DropNumberPrefix(StrOrEmpty(v)), '_', ' ');
    TrimWithout(s, IsJsSpace, '_');
    JsTrim(s)
  }

  /** A trimmed label without a leading digit or an underscore is shown as
      it is. */
  lemma FormatLabelPlain(s: string)
    requires s != [] ==> !IsDigit(s[0]) && !IsJsSpace(s[0]) && !IsJsSpace(s[|s| - 1])
    requires forall i :: 0 <= i < |s| ==> s[i] != '_'
    ensures FormatLabel(Str(s)) == s
  {
    assert StrOrEmpty(Str(s)) == s;
    assert DropNumberPrefix(s) == s by {
      assert s != [] ==> DigitRun(s) == 0;
    }
    assert ReplaceChar(s, '_', ' ') == s by {
      ReplaceCharAbsent(s, '_', ' ');
    }
    assert JsTrim(s) == s by {
      TrimNone(s, IsJsSpace);
    }
  }

  /** A digit run followed by a non-digit is measured exactly. */
  lemma {:induction false} DigitRunOf(d: string, t: string)
    requires forall i :: 0 <= i < |d| ==> IsDigit(d[i])
    requires t != [] ==> !IsDigit(t[0])
    ensures DigitRun(d + t) == |d|
  {
    if d != [] {
      assert (d + t)[1..] == d[1..] + t;
      DigitRunOf(d[1..], t);
    }
  }

  /** Trimming a run of `_`/`-` in front of a text that does not start
      with one leaves that text. */
  lemma {:induction false} TrimRunOf(m: string, rest: string)
    requires forall i :: 0 <= i < |m| ==> IsUnderscoreOrHyphen(m[i])
    requires rest != [] ==> !IsUnderscoreOrHyphen(rest[0])
    ensures TrimStart(m + rest, IsUnderscoreOrHyphen) == rest
  {
    if m != [] {
      assert (m + rest)[0] == m[0];
      assert (m + rest)[1..] == m[1..] + rest;
      TrimRunOf(m[1..], rest);
    }
  }

  /** Removing the number prefix of `digits`, a run of `_`/`-`, then
      `rest` leaves `rest`. */
  lemma DropNumberPrefixOf(d: string, m: string, rest: string, s: string)
    requires d != [] && forall i :: 0 <= i < |d| ==> IsDigit(d[i])
    requires forall i :: 0 <= i < |m| ==> IsUnderscoreOrHyphen(m[i])
    requires rest != [] ==> !IsDigit(rest[0]) && !IsUnderscoreOrHyphen(rest[0])
    requires s == d + (m + rest)
    ensures DropNumberPrefix(s) == rest
  {
    assert m + rest != [] ==> !IsDigit((m + rest)[0]) by {
      if m != [] {
        assert (m + rest)[0] == m[0];
      }
    }
    DigitRunOf(d, m + rest);
    assert s[|d|..] == m + rest;
    TrimRunOf(m, rest);
  }

  /** The label of `digits`, a run of `_`/`-`, then `rest` is `rest` with
      spaces for underscores, trimmed. */
  lemma FormatLabelDropsNumber(d: string, m: string, rest: string)
    requires d != [] && forall i :: 0 <= i < |d| ==> IsDigit(d[i])
    requires forall i :: 0 <= i < |m| ==> IsUnderscoreOrHyphen(m[i])
    requires rest != [] ==> !IsDigit(rest[0]) && !IsUnderscoreOrHyphen(rest[0])
    ensures FormatLabel(Str(d + m + rest)) == JsTrim(ReplaceChar(rest, '_', ' '))
  {
    var s := d + m + rest;
    assert s == d + (m + rest);
    assert StrOrEmpty(Str(s)) == s;
    DropNumberPrefixOf(d, m, rest, s);
  }
}

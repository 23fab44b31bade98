/**
  The text of a tool that the embedding generator feeds to its model
  (`app/js/search_tools/utils/generate-embeddings.js`): `stripHtml`, a chain
  of global regular-expression replacements that turns a description into
  plain text, and `toolToText`, which lists a tool's fields without
  duplicates or empty parts.

  Each regular expression of the chain is a `Pattern` with the length of
  its match at the start of a string; `Rewrite` is `String.replace` with the
  global flag, which scans from the left and resumes after each match.
*/
module Embeddings {
  import opened Base
  import opened Text
  import Helpers

  /** The closing tags that `stripHtml` turns into a space. */
  const BlockNames: seq<string> := ["div", "p", "h1", "h2", "h3", "h4", "h5", "h6", "li", "ul", "ol", "tr", "td", "th", "br", "hr"]

  datatype Pattern =
    | CloseBlock   // /<\/(div|p|h[1-6]|li|ul|ol|tr|td|th|br|hr)>/gi
    | BreakTag     // /<(br|hr)\s*\/?>/gi
    | AnyTag       // /<[^>]*>/g

  /** The length of `"</" + name + ">"` at the start of `s` for the first of
      `names` that is there (letters in either case), or 0. */
  function CloseLen(s: string, names: seq<string>): (n: nat)
    ensures n <= |s|
  {
    if names == [] then 0
    else
      var name := names[0];
      if |s| >= |name| + 3 && s[..2] == "</" && Lower(s[2..2 + |name|]) == name && s[2 + |name|] == '>'
      then |name| + 3
      else CloseLen(s, names[1..])
  }

  /** The position of the first `c` in `s`, or `|s|`. */
  function IndexOf(s: string, c: char): (i: nat)
    ensures i <= |s|
    ensures i < |s| ==> s[i] == c
    ensures forall j :: 0 <= j < i ==> s[j] != c
  {
    if s == [] || s[0] == c then 0 else 1 + IndexOf(s[1..], c)
  }

  /** The length of `"<br" | "<hr"`, optional whitespace, an optional '/',
      and '>' at the start of `s`, or 0. */
  function BreakLen(s: string): (n: nat)
    ensures n <= |s|
  {
    if |s| < 4 || s[0] != '<' || (Lower(s[1..3]) != "br" && Lower(s[1..3]) != "hr") then 0
    else
      var j := |s| - |TrimStart(s[3..], IsJsSpace)|;
      var k := if j < |s| && s[j] == '/' then j + 1 else j;
      if k < |s| && s[k] == '>' then k + 1 else 0
  }

  /** The length of the match of `p` at the start of `s`; 0 is no match. */
  function Match(p: Pattern, s: string): (n: nat)
    ensures n <= |s|
  {
    match p
    case CloseBlock => CloseLen(s, BlockNames)
    case BreakTag => BreakLen(s)
    case AnyTag => if s != [] && s[0] == '<' && IndexOf(s[1..], '>') < |s| - 1 then IndexOf(s[1..], '>') + 2 else 0
  }

  /** `s.replace(p, rep)` with the global flag. */
  function Rewrite(p: Pattern, s: string, rep: string): string
    decreases |s|
  {
    if s == [] then []
    else
      var n := Match(p, s);
      if n > 0 then rep + Rewrite(p, s[n..], rep) else [s[0]] + Rewrite(p, s[1..], rep)
  }

  /** The entity replacements, in the order `stripHtml` applies them. */
  function DecodeEntities(s: string): string
  {
    var a := ReplaceAll(s, "&nbsp;", " ");
    var b := ReplaceAll(a, "&amp;", "&");
    var c := ReplaceAll(b, "&lt;", "<");
    var d := ReplaceAll(c, "&gt;", ">");
    var e := ReplaceAll(d, "&quot;", "\"");
    var f := ReplaceAll(e, "&#39;", "'");
    ReplaceAll(f, "&#x27;", "'")
  }

  /** The tag replacements: closing block tags and line breaks become a
      space, and every other tag goes. */
  function RemoveTags(s: string): string
  {
    var a := Rewrite(CloseBlock, s, " ");
    var b := Rewrite(BreakTag, a, " ");
    Rewrite(AnyTag, b, "")
  }

  /** Whether some two neighbouring characters are both whitespace. */
  predicate NoDoubleSpace(s: string)
  {
    forall i :: 0 <= i < |s| - 1 ==> !(IsJsSpace(s[i]) && IsJsSpace(s[i + 1]))
  }

  /** `stripHtml(html)`: '' for an empty text, otherwise the text without
      tags, with entities decoded and whitespace collapsed and trimmed. */
  function StripHtml(html: string): (r: string)
    ensures html == "" ==> r == ""
    ensures r != [] ==> !IsJsSpace(r[0]) && !IsJsSpace(r[|r| - 1])
    ensures NoDoubleSpace(r)
  {
    if html == "" then ""
    else
      var w := Helpers.CollapseRuns(DecodeEntities(RemoveTags(html)), IsJsSpace, ' ');
      TrimEdges(w, IsJsSpace);
      TrimKeepsNoDouble(w);
      JsTrim(w)
  }

  /** Trimming keeps the text free of double whitespace. */
  lemma TrimKeepsNoDouble(s: string)
    requires NoDoubleSpace(s)
    ensures NoDoubleSpace(JsTrim(s))
  {
    var u := TrimStart(s, IsJsSpace);
    SliceNoDouble(s, |s| - |u|, |s|);
    var r := TrimEnd(u, IsJsSpace);
    SliceNoDouble(u, 0, |r|);
  }

  lemma SliceNoDouble(s: string, a: nat, b: nat)
    requires a <= b <= |s| && NoDoubleSpace(s)
    ensures NoDoubleSpace(s[a..b])
  {
    var t := s[a..b];
    forall i | 0 <= i < |t| - 1
      ensures !(IsJsSpace(t[i]) && IsJsSpace(t[i + 1]))
    {
      assert t[i] == s[a + i] && t[i + 1] == s[a + i + 1];
    }
  }

  /** Removing matches keeps only characters of the original. */
  lemma {:induction false} RewriteDeletes(p: Pattern, s: string, c: char)
    requires c !in s
    ensures c !in Rewrite(p, s, "")
    decreases |s|
  {
    if s != [] {
      var n := Match(p, s);
      if n > 0 {
        RewriteDeletes(p, s[n..], c);
      } else {
        RewriteDeletes(p, s[1..], c);
      }
    }
  }

  /** After the tags are removed, no '<' is followed anywhere by a '>':
      every tag of the text is gone. */
  lemma {:induction false} TagsGone(s: string)
    ensures var r := Rewrite(AnyTag, s, "");
      forall i :: 0 <= i < |r| && r[i] == '<' ==> '>' !in r[i + 1..]
    decreases |s|
  {
    if s != [] {
      var n := Match(AnyTag, s);
      var r := Rewrite(AnyTag, s, "");
      if n > 0 {
        TagsGone(s[n..]);
        assert r == Rewrite(AnyTag, s[n..], "");
      } else {
        var rest := s[1..];
        TagsGone(rest);
        var rr := Rewrite(AnyTag, rest, "");
        assert r == [s[0]] + rr;
        if s[0] == '<' {
          assert IndexOf(rest, '>') == |rest|;
          assert '>' !in rest;
          RewriteDeletes(AnyTag, rest, '>');
        }
        forall i | 1 <= i < |r| && r[i] == '<'
          ensures '>' !in r[i + 1..]
        {
          assert r[i + 1..] == rr[i..];
        }
      }
    }
  }

  /** A literal that occurs nowhere is not replaced. */
  lemma {:induction false} LiteralMiss(t: string, s: string, rep: string)
    requires t != []
    requires forall i :: 0 <= i < |s| && s[i] == t[0] ==> !(t <= s[i..])
    ensures ReplaceAll(s, t, rep) == s
    decreases |s|
  {
    if s != [] {
      assert !(t <= s[0..]);
      assert s[0..] == s;
      forall i | 0 <= i < |s| - 1 && s[1..][i] == t[0]
        ensures !(t <= s[1..][i..])
      {
        assert s[1..][i..] == s[i + 1..];
      }
      LiteralMiss(t, s[1..], rep);
    }
  }

  lemma StepNbsp()
    ensures ReplaceAll("&amp;lt;", "&nbsp;", " ") == "&amp;lt;"
  {
    var s := "&amp;lt;";
    var t := "&nbsp;";
    forall i | 0 <= i < |s| && s[i] == t[0]
      ensures !(t <= s[i..])
    {
      assert i == 0;
      assert t[1] != s[1];
    }
    LiteralMiss(t, s, " ");
  }

  lemma StepAmp()
    ensures ReplaceAll("&amp;lt;", "&amp;", "&") == "&lt;"
  {
    var s := "&amp;lt;";
    assert "&amp;" <= s;
    assert s[5..] == "lt;";
    forall i | 0 <= i < 3 && "lt;"[i] == '&'
      ensures !("&amp;" <= "lt;"[i..])
    {
    }
    LiteralMiss("&amp;", "lt;", "&");
  }

  lemma StepLt()
    ensures ReplaceAll("&lt;", "&lt;", "<") == "<"
  {
  }

  lemma StepRest()
    ensures ReplaceAll(ReplaceAll(ReplaceAll(ReplaceAll("<", "&gt;", ">"), "&quot;", "\""), "&#39;", "'"), "&#x27;", "'") == "<"
  {
  }

  /** Entities are decoded after the tags are removed and in their listed
      order, so a doubly escaped `&amp;lt;` ends as `<`. */
  lemma DoubleEscapeDecoded()
    ensures DecodeEntities("&amp;lt;") == "<"
  {
    StepNbsp();
    StepAmp();
    StepLt();
    StepRest();
  }

  // ---------------------------------------------------------------------------
  // toolToText
  // ---------------------------------------------------------------------------

  /** `...(v || [])`: the elements of an array, or the characters of a
      string, as parts. */
  function Spread(v: JsVal): (parts: seq<JsVal>)
  {
    if !Truthy(v) then []
    else
      match v
      case Arr(items) => seq(|items|, i requires 0 <= i < |items| => Str(items[i]))
      case Str(s) => seq(|s|, i requires 0 <= i < |s| => Str([s[i]]))
      case _ => []
  }

  /** `stripHtml(v || '')` on a text property. */
  function Stripped(v: JsVal): JsVal
  {
    Str(StripHtml(if v.Str? then v.s else ""))
  }

  /** The parts of `toolToText` before de-duplication. */
  function Parts(t: Record): seq<JsVal>
  {
    [Get(t, "name"), Stripped(Get(t, "desc")), Stripped(Get(t, "desc_long")), Or(Get(t, "kind"), Str(""))]
    + Spread(Get(t, "caps")) + Spread(Get(t, "phases")) + Spread(Get(t, "category_path"))
  }

  /** `[...new Set(xs)]`: every value once, at its first position. */
  function Dedupe(xs: seq<JsVal>): seq<JsVal>
  {
    if xs == [] then []
    else
      var d := Dedupe(xs[..|xs| - 1]);
      if xs[|xs| - 1] in d then d else d + [xs[|xs| - 1]]
  }

  /** `.filter(Boolean)`. */
  function TruthyOnly(xs: seq<JsVal>): seq<JsVal>
  {
    if xs == [] then []
    else TruthyOnly(xs[..|xs| - 1]) + (if Truthy(xs[|xs| - 1]) then [xs[|xs| - 1]] else [])
  }

  function Strings(xs: seq<JsVal>): (r: seq<string>)
    ensures |r| == |xs|
  {
    if xs == [] then [] else [ToStr(xs[0])] + Strings(xs[1..])
  }

  /** The parts that `toolToText` keeps. */
  function Kept(t: Record): seq<JsVal>
  {
    TruthyOnly(Dedupe(Parts(t)))
  }

  /** `toolToText(tool)`. */
  function ToolToText(t: Record): string
  {
    JsTrim(Join(Strings(Kept(t)), ' '))
  }

  /** The position of the first occurrence of `x`. */
  function FirstIndex(xs: seq<JsVal>, x: JsVal): (i: nat)
    requires x in xs
    ensures i < |xs| && xs[i] == x
    ensures forall j :: 0 <= j < i ==> xs[j] != x
  {
    if xs[0] == x then 0 else 1 + FirstIndex(xs[1..], x)
  }

  predicate Distinct(xs: seq<JsVal>)
  {
    forall i, j :: 0 <= i < j < |xs| ==> xs[i] != xs[j]
  }

  /** Values listed in the order of their first occurrence in `xs`. */
  predicate FirstOccurrenceOrder(ys: seq<JsVal>, xs: seq<JsVal>)
    requires forall y :: y in ys ==> y in xs
  {
    forall i, j :: 0 <= i < j < |ys| ==> FirstIndex(xs, ys[i]) < FirstIndex(xs, ys[j])
  }

  lemma FirstIndexPrefix(xs: seq<JsVal>, x: JsVal)
    requires xs != [] && x in xs[..|xs| - 1]
    ensures FirstIndex(xs, x) == FirstIndex(xs[..|xs| - 1], x)
  {
    var init := xs[..|xs| - 1];
    var i := FirstIndex(init, x);
    assert xs[i] == x;
  }

  /** A value whose first occurrence comes after those of a list's values
      can be appended to it in order. */
  lemma AppendKeepsOrder(f: seq<JsVal>, last: JsVal, ref: seq<JsVal>)
    requires forall y :: y in f ==> y in ref
    requires last in ref
    requires Distinct(f) && FirstOccurrenceOrder(f, ref)
    requires forall y :: y in f ==> FirstIndex(ref, y) < FirstIndex(ref, last)
    ensures Distinct(f + [last]) && FirstOccurrenceOrder(f + [last], ref)
  {
    var r := f + [last];
    forall i, j | 0 <= i < j < |r|
      ensures r[i] != r[j] && FirstIndex(ref, r[i]) < FirstIndex(ref, r[j])
    {
      if j < |f| {
        assert r[i] == f[i] && r[j] == f[j];
      } else {
        assert r[i] == f[i] && f[i] in f;
      }
    }
  }

  /** `Dedupe` keeps every value exactly once, at its first position. */
  lemma {:induction false} DedupeSpec(xs: seq<JsVal>)
    ensures forall x :: x in Dedupe(xs) <==> x in xs
    ensures Distinct(Dedupe(xs))
    ensures FirstOccurrenceOrder(Dedupe(xs), xs)
  {
    if xs != [] {
      var init := xs[..|xs| - 1];
      var last := xs[|xs| - 1];
      var d := Dedupe(init);
      DedupeSpec(init);
      assert xs == init + [last];
      forall y | y in d
        ensures FirstIndex(xs, y) == FirstIndex(init, y)
      {
        FirstIndexPrefix(xs, y);
      }
      assert FirstOccurrenceOrder(d, xs);
      if last !in d {
        assert FirstIndex(xs, last) == |xs| - 1;
        AppendKeepsOrder(d, last, xs);
      }
    }
  }

  /** `TruthyOnly` keeps exactly the truthy values. */
  lemma {:induction false} TruthyOnlyMembers(xs: seq<JsVal>)
    ensures forall x :: x in TruthyOnly(xs) <==> x in xs && Truthy(x)
  {
    if xs != [] {
      var init := xs[..|xs| - 1];
      assert xs == init + [xs[|xs| - 1]];
      TruthyOnlyMembers(init);
    }
  }

  /** Dropping the last value keeps a list distinct and in order. */
  lemma OrderedPrefix(xs: seq<JsVal>, ref: seq<JsVal>)
    requires xs != []
    requires forall x :: x in xs ==> x in ref
    requires Distinct(xs) && FirstOccurrenceOrder(xs, ref)
    ensures forall x :: x in xs[..|xs| - 1] ==> x in ref
    ensures Distinct(xs[..|xs| - 1]) && FirstOccurrenceOrder(xs[..|xs| - 1], ref)
  {
    var init := xs[..|xs| - 1];
    forall i, j | 0 <= i < j < |init|
      ensures init[i] != init[j] && FirstIndex(ref, init[i]) < FirstIndex(ref, init[j])
    {
      assert init[i] == xs[i] && init[j] == xs[j];
    }
  }

  /** `TruthyOnly` keeps the truthy values in their order. */
  lemma {:induction false} TruthyOnlySpec(xs: seq<JsVal>, ref: seq<JsVal>)
    requires Distinct(xs)
    requires forall x :: x in xs ==> x in ref
    requires FirstOccurrenceOrder(xs, ref)
    ensures forall x :: x in TruthyOnly(xs) ==> x in ref
    ensures Distinct(TruthyOnly(xs))
    ensures FirstOccurrenceOrder(TruthyOnly(xs), ref)
  {
    TruthyOnlyMembers(xs);
    if xs != [] {
      var init := xs[..|xs| - 1];
      var last := xs[|xs| - 1];
      OrderedPrefix(xs, ref);
      TruthyOnlySpec(init, ref);
      TruthyOnlyMembers(init);
      var f := TruthyOnly(init);
      if Truthy(last) {
        assert TruthyOnly(xs) == f + [last];
        forall y | y in f
          ensures FirstIndex(ref, y) < FirstIndex(ref, last)
        {
          var k :| 0 <= k < |init| && init[k] == y;
          assert xs[k] == y;
        }
        AppendKeepsOrder(f, last, ref);
      } else {
        assert TruthyOnly(xs) == f;
      }
    }
  }

  /** `toolToText` keeps every truthy part once, drops the falsy ones, and
      lists them in the order of their first occurrence among the parts. */
  lemma KeptSpec(t: Record)
    ensures forall x :: x in Kept(t) <==> x in Parts(t) && Truthy(x)
    ensures Distinct(Kept(t))
    ensures forall x :: x in Kept(t) ==> x in Parts(t)
    ensures FirstOccurrenceOrder(Kept(t), Parts(t))
  {
    DedupeSpec(Parts(t));
    TruthyOnlyMembers(Dedupe(Parts(t)));
    TruthyOnlySpec(Dedupe(Parts(t)), Parts(t));
  }

  /** A truthy name is the first part of the text. */
  lemma NameFirst(t: Record)
    requires Truthy(Get(t, "name"))
    ensures Kept(t) != [] && Kept(t)[0] == Get(t, "name")
  {
    KeptSpec(t);
    var k := Kept(t);
    var name := Get(t, "name");
    assert Parts(t)[0] == name;
    assert name in k;
  }
}

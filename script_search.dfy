/**
  Relevance scoring of the standalone page's search box: a tier for the
  name or id, smaller bonuses for the other fields, and a bonus when every
  word of a several-word query occurs somewhere in the record.
*/
module ScriptSearch {
  import opened Text
  import opened Base

  /** `s.split(/\s/)`: the fields between single whitespace characters. */
  function SplitWs(s: string): (r: seq<string>)
    ensures |r| >= 1
    ensures forall i, j :: 0 <= i < |r| && 0 <= j < |r[i]| ==> !IsJsSpace(r[i][j])
  {
    if s == [] then [[]]
    else
      var rest := SplitWs(s[1..]);
      if IsJsSpace(s[0]) then [[]] + rest else [[s[0]] + rest[0]] + rest[1..]
  }

  /** `q.split(/\s+/).filter(Boolean)`: the words of the query. Splitting on
      runs and dropping empty fields is splitting on single characters and
      dropping empty fields. */
  function Words(q: string): (ws: seq<string>)
  {
    NonEmpty(SplitWs(q))
  }

  lemma {:induction false} SplitWsNoSpace(s: string)
    requires forall i :: 0 <= i < |s| ==> !IsJsSpace(s[i])
    ensures SplitWs(s) == [s]
  {
    if s != [] {
      SplitWsNoSpace(s[1..]);
      assert [s[0]] + s[1..] == s;
    }
  }

  /** A query without whitespace is one word (or none, when empty). */
  lemma OneWord(q: string)
    requires forall i :: 0 <= i < |q| ==> !IsJsSpace(q[i])
    ensures |Words(q)| <= 1
    ensures q != "" ==> Words(q) == [q]
  {
    SplitWsNoSpace(q);
  }

  /** `normalize(v || '')` for a scalar property. */
  function NormField(tool: Record, k: string, norm: string -> string): string
  {
    norm(StrOrEmpty(Get(tool, k)))
  }

  /** `(tool[k] || []).some(x => normalize(x).includes(q))`. */
  predicate AnyContains(xs: seq<string>, q: string, norm: string -> string)
  {
    exists i :: 0 <= i < |xs| && Contains(norm(xs[i]), q)
  }

  /** The name / id tier. */
  function Tier(nameN: string, idN: string, q: string): (t: int)
  {
    if nameN == q || idN == q then 1000
    else if StartsWith(nameN, q) || StartsWith(idN, q) then 500
    else if Contains(nameN, q) || Contains(idN, q) then 200
    else 0
  }

  /** An element of `[...].join(' ')`: null and undefined become "". */
  function JoinVal(v: JsVal): string
  {
    if Nullish(v) then "" else ToStr(v)
  }

  /** The normalised text of every searchable field, space separated. */
  function AllFields(tool: Record, norm: string -> string): string
  {
    norm(Join([JoinVal(Get(tool, "name")), JoinVal(Get(tool, "id")), JoinVal(Get(tool, "desc")), JoinVal(Get(tool, "desc_long"))]
              + ListOrEmpty(tool, "caps") + ListOrEmpty(tool, "tags") + ListOrEmpty(tool, "category_path"), ' '))
  }

  /** The terms of `terms` that occur in `all`, in order. */
  function Matched(terms: seq<string>, all: string): (r: seq<string>)
    ensures |r| <= |terms|
    ensures |r| == |terms| <==> forall i :: 0 <= i < |terms| ==> Contains(all, terms[i])
  {
    if terms == [] then []
    else
      var rest := Matched(terms[1..], all);
      assert forall i :: 1 <= i < |terms| ==> terms[i] == terms[1..][i - 1];
      if Contains(all, terms[0]) then [terms[0]] + rest else rest
  }

  /** The several-word bonus: 100 per word, when every word occurs. */
  function WordsBonus(tool: Record, q: string, norm: string -> string): int
  {
    var terms := Words(q);
    if |terms| > 1 then
      var matched := Matched(terms, AllFields(tool, norm));
      if |matched| == |terms| then 100 * |matched| else 0
    else 0
  }

  /** Everything but the tier. */
  function Bonus(tool: Record, q: string, norm: string -> string): int
  {
    (if Contains(NormField(tool, "desc", norm), q) then 50 else 0)
    + (if Contains(NormField(tool, "desc_long", norm), q) then 20 else 0)
    + (if AnyContains(ListOrEmpty(tool, "caps"), q, norm) then 30 else 0)
    + (if AnyContains(ListOrEmpty(tool, "tags"), q, norm) then 25 else 0)
    + (if AnyContains(ListOrEmpty(tool, "category_path"), q, norm) then 15 else 0)
    + WordsBonus(tool, q, norm)
  }

  /** `toolSearchScore(tool, q)`, with `normalize` as the parameter `norm`;
      `q` is the already normalised query. */
  function ToolSearchScore(tool: Record, q: string, norm: string -> string): (score: int)
  {
    if q == "" then 0
    else Tier(NormField(tool, "name", norm), NormField(tool, "id", norm), q) + Bonus(tool, q, norm)
  }

  /** `toolSimpleMatch(tool, q)`. */
  predicate ToolSimpleMatch(tool: Record, q: string, norm: string -> string)
  {
    q == "" || ToolSearchScore(tool, q, norm) > 0
  }

  /** Some single field holds the whole query. */
  predicate FieldMatch(tool: Record, q: string, norm: string -> string)
  {
    || Contains(NormField(tool, "name", norm), q) || Contains(NormField(tool, "id", norm), q)
    || Contains(NormField(tool, "desc", norm), q) || Contains(NormField(tool, "desc_long", norm), q)
    || AnyContains(ListOrEmpty(tool, "caps"), q, norm) || AnyContains(ListOrEmpty(tool, "tags"), q, norm)
    || AnyContains(ListOrEmpty(tool, "category_path"), q, norm)
  }

  lemma PrefixContains(s: string, t: string)
    requires t <= s
    ensures Contains(s, t)
  {
  }

  /** The tier is exactly one of 1000, 500, 200 and 0, chosen by the first
      of "equal", "starts with" and "contains" that holds for the name or
      the id; it is positive iff one of them contains the query. */
  lemma TierSpec(nameN: string, idN: string, q: string)
    ensures var t := Tier(nameN, idN, q);
            && (t == 1000 <==> nameN == q || idN == q)
            && (t == 500 <==> nameN != q && idN != q && (StartsWith(nameN, q) || StartsWith(idN, q)))
            && (t == 200 <==> !StartsWith(nameN, q) && !StartsWith(idN, q) && (Contains(nameN, q) || Contains(idN, q)))
            && (t == 0 <==> !Contains(nameN, q) && !Contains(idN, q))
  {
    if StartsWith(nameN, q) {
      PrefixContains(nameN, q);
    }
    if StartsWith(idN, q) {
      PrefixContains(idN, q);
    }
  }

  /** The bonuses are never negative; for a one-word query they add at most
      140, less than the gap between any two tiers. */
  lemma BonusBounds(tool: Record, q: string, norm: string -> string)
    ensures Bonus(tool, q, norm) >= 0
    ensures |Words(q)| <= 1 ==> Bonus(tool, q, norm) <= 140
    ensures WordsBonus(tool, q, norm) > 0 <==>
              |Words(q)| > 1 && forall i :: 0 <= i < |Words(q)| ==> Contains(AllFields(tool, norm), Words(q)[i])
  {
  }

  /** The empty query scores 0 and matches everything; otherwise a tool
      matches iff some field holds the query, or the query has several words
      and each of them occurs in the record. */
  lemma SimpleMatchSpec(tool: Record, q: string, norm: string -> string)
    ensures q == "" ==> ToolSearchScore(tool, q, norm) == 0 && ToolSimpleMatch(tool, q, norm)
    ensures q != "" ==>
              (ToolSimpleMatch(tool, q, norm) <==>
                 FieldMatch(tool, q, norm)
                 || (|Words(q)| > 1 && forall i :: 0 <= i < |Words(q)| ==> Contains(AllFields(tool, norm), Words(q)[i])))
  {
    TierSpec(NormField(tool, "name", norm), NormField(tool, "id", norm), q);
    BonusBounds(tool, q, norm);
  }

  /** For a one-word query the tier decides the order: a tool in a higher
      tier scores more than any tool in a lower one. */
  lemma TierDecides(a: Record, b: Record, q: string, norm: string -> string)
    requires q != "" && |Words(q)| <= 1
    requires Tier(NormField(a, "name", norm), NormField(a, "id", norm), q) > Tier(NormField(b, "name", norm), NormField(b, "id", norm), q)
    ensures ToolSearchScore(a, q, norm) > ToolSearchScore(b, q, norm)
  {
    BonusBounds(a, q, norm);
    BonusBounds(b, q, norm);
  }
}

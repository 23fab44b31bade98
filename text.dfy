/**
  String helpers shared by the Python build scripts and the browser code:
  single-character split and join, prefix / suffix / substring tests,
  lower-casing, the two whitespace classes (JavaScript `\s` and `trim`,
  Python `str.isspace` and `strip`), and decimal rendering of integers.
*/
module Text {

  // ---------------------------------------------------------------------------
  // Split and join on one separator character
  // ---------------------------------------------------------------------------

  /** `s.split(sep)` in JavaScript and Python: empty fields are kept, the
      result is never empty ("".split("/") is [""]). */
  function Split(s: string, sep: char): (r: seq<string>)
    ensures |r| >= 1
    ensures forall i :: 0 <= i < |r| ==> sep !in r[i]
  {
    if s == [] then [[]]
    else
      var rest := Split(s[1..], sep);
      if s[0] == sep then [[]] + rest else [[s[0]] + rest[0]] + rest[1..]
  }

  /** `parts.join(sep)`. */
  function Join(parts: seq<string>, sep: char): string
  {
    if |parts| == 0 then []
    else if |parts| == 1 then parts[0]
    else parts[0] + [sep] + Join(parts[1..], sep)
  }

  /** Regrouping a concatenation, stated on opaque operands so that callers
      need not unfold their elements. */
  lemma AppendAssoc<T>(a: seq<T>, b: seq<T>, c: seq<T>)
    ensures (a + b) + c == a + (b + c)
  {
  }

  ghost predicate NoSep(parts: seq<string>, sep: char)
  {
    forall i :: 0 <= i < |parts| ==> sep !in parts[i]
  }

  /** Joining the fields of a split gives the original string back. */
  lemma {:induction false} JoinSplit(s: string, sep: char)
    ensures Join(Split(s, sep), sep) == s
  {
    if s != [] {
      JoinSplit(s[1..], sep);
      var rest := Split(s[1..], sep);
      if s[0] != sep && |rest| > 1 {
        assert Join(rest, sep) == rest[0] + [sep] + Join(rest[1..], sep);
      }
    }
  }

  lemma {:induction false} SplitNoSep(s: string, sep: char)
    requires sep !in s
    ensures Split(s, sep) == [s]
  {
    if s != [] {
      SplitNoSep(s[1..], sep);
      assert [s[0]] + s[1..] == s;
    }
  }

  lemma SplitConcat(a: string, b: string, sep: char)
    requires sep !in a
    ensures Split(a + [sep] + b, sep) == [a] + Split(b, sep)
  {
    SplitAppend(a, b, sep);
    SplitNoSep(a, sep);
  }

  /** How `Split` extends the fields of the rest by the first character. */
  function SplitStep(c: char, sep: char, rest: seq<string>): seq<string>
    requires |rest| >= 1
  {
    if c == sep then [[]] + rest else [[c] + rest[0]] + rest[1..]
  }

  lemma SplitCons(c: char, t: string, sep: char)
    ensures Split([c] + t, sep) == SplitStep(c, sep, Split(t, sep))
  {
    assert ([c] + t)[0] == c && ([c] + t)[1..] == t;
  }

  lemma SplitStepAppend(c: char, sep: char, ra: seq<string>, rb: seq<string>)
    requires |ra| >= 1
    ensures SplitStep(c, sep, ra) + rb == SplitStep(c, sep, ra + rb)
  {
    if c != sep {
      assert (ra + rb)[1..] == ra[1..] + rb;
    }
  }

  /** Splitting at a separator splits both sides independently. */
  lemma {:induction false} SplitAppend(a: string, b: string, sep: char)
    ensures Split(a + [sep] + b, sep) == Split(a, sep) + Split(b, sep)
  {
    var s := a + [sep] + b;
    var rb := Split(b, sep);
    if a == [] {
      assert s == [sep] + b;
      SplitCons(sep, b, sep);
    } else {
      var c, t := a[0], a[1..] + [sep] + b;
      var ra := Split(a[1..], sep);
      assert Split(s, sep) == SplitStep(c, sep, Split(t, sep)) by {
        assert s == [c] + t;
        SplitCons(c, t, sep);
      }
      assert Split(t, sep) == ra + rb by {
        SplitAppend(a[1..], b, sep);
      }
      assert Split(a, sep) == SplitStep(c, sep, ra) by {
        assert a == [c] + a[1..];
        SplitCons(c, a[1..], sep);
      }
      SplitStepAppend(c, sep, ra, rb);
    }
  }

  /** Splitting a join gives the parts back, provided no part holds the
      separator (a single empty part joins to "" and splits to [""]). */
  lemma {:induction false} SplitJoin(parts: seq<string>, sep: char)
    requires |parts| >= 1
    requires NoSep(parts, sep)
    ensures Split(Join(parts, sep), sep) == parts
  {
    if |parts| == 1 {
      SplitNoSep(parts[0], sep);
    } else {
      SplitJoin(parts[1..], sep);
      SplitConcat(parts[0], Join(parts[1..], sep), sep);
    }
  }

  /** The first field of a join is the first part, when that part holds no
      separator. */
  lemma SplitJoinFirst(parts: seq<string>, sep: char)
    requires |parts| >= 1 && sep !in parts[0]
    ensures Split(Join(parts, sep), sep)[0] == parts[0]
  {
    if |parts| == 1 {
      SplitNoSep(parts[0], sep);
    } else {
      SplitConcat(parts[0], Join(parts[1..], sep), sep);
    }
  }

  /** Joining two non-empty lists of parts puts one separator between them. */
  lemma {:induction false} JoinAppend(a: seq<string>, b: seq<string>, sep: char)
    requires |a| >= 1 && |b| >= 1
    ensures Join(a + b, sep) == Join(a, sep) + [sep] + Join(b, sep)
  {
    if |a| == 1 {
      assert (a + b)[1..] == b;
    } else {
      JoinAppend(a[1..], b, sep);
      assert (a + b)[1..] == a[1..] + b;
    }
  }

  lemma {:induction false} JoinNoSep(parts: seq<string>, sep: char, c: char)
    requires NoSep(parts, c) && c != sep
    ensures c !in Join(parts, sep)
  {
    if |parts| > 1 {
      JoinNoSep(parts[1..], sep, c);
    }
  }

  /** Number of fields of `s.split(sep)`. */
  function SegmentCount(s: string, sep: char): (n: nat)
    ensures n >= 1
  {
    |Split(s, sep)|
  }

  /** The non-empty strings of `xs`, in order. */
  function NonEmpty(xs: seq<string>): (r: seq<string>)
    ensures |r| <= |xs|
    ensures forall x :: x in r <==> x in xs && x != ""
  {
    if xs == [] then []
    else
      assert forall t :: t in xs <==> t == xs[0] || t in xs[1..];
      if xs[0] != "" then [xs[0]] + NonEmpty(xs[1..]) else NonEmpty(xs[1..])
  }

  /** A list without empty strings is left alone. */
  lemma {:induction false} NonEmptyClean(p: seq<string>)
    requires forall i :: 0 <= i < |p| ==> p[i] != ""
    ensures NonEmpty(p) == p
  {
    if p != [] {
      NonEmptyClean(p[1..]);
    }
  }

  // ---------------------------------------------------------------------------
  // Prefix, suffix, substring
  // ---------------------------------------------------------------------------

  predicate StartsWith(s: string, p: string)
  {
    p <= s
  }

  predicate EndsWith(s: string, t: string)
  {
    |t| <= |s| && s[|s| - |t|..] == t
  }

  /** `s.includes(t)` / `t in s`. */
  predicate Contains(s: string, t: string)
    decreases |s|
  {
    t <= s || (|s| > 0 && Contains(s[1..], t))
  }

  /** `s.replace(/a/g, b)` for single characters. */
  function ReplaceChar(s: string, a: char, b: char): (r: string)
    ensures |r| == |s|
    ensures forall i :: 0 <= i < |s| ==> r[i] == (if s[i] == a then b else s[i])
  {
    if s == [] then [] else [if s[0] == a then b else s[0]] + ReplaceChar(s[1..], a, b)
  }

  lemma ReplaceCharAbsent(s: string, a: char, b: char)
    requires forall i :: 0 <= i < |s| ==> s[i] != a
    ensures ReplaceChar(s, a, b) == s
  {
    assert forall i :: 0 <= i < |s| ==> ReplaceChar(s, a, b)[i] == s[i];
  }

  /** Replacing a character distributes over concatenation. */
  lemma ReplaceCharConcat(s: string, t: string, a: char, b: char)
    ensures ReplaceChar(s + t, a, b) == ReplaceChar(s, a, b) + ReplaceChar(t, a, b)
  {
    var st := s + t;
    var l, rs, rt := ReplaceChar(st, a, b), ReplaceChar(s, a, b), ReplaceChar(t, a, b);
    var r := rs + rt;
    assert |l| == |r|;
    forall i | 0 <= i < |l|
      ensures l[i] == r[i]
    {
      if i < |s| {
        assert st[i] == s[i] && r[i] == rs[i];
      } else {
        assert st[i] == t[i - |s|] && r[i] == rt[i - |s|];
      }
    }
  }

  /** Leftmost, non-overlapping replacement of every `pat` by `rep`
      (`split(pat).join(rep)` / `replace(/pat/g, rep)` for a literal pattern). */
  function ReplaceAll(s: string, pat: string, rep: string): string
    requires |pat| > 0
    decreases |s|
  {
    if s == [] then []
    else if pat <= s then rep + ReplaceAll(s[|pat|..], pat, rep)
    else [s[0]] + ReplaceAll(s[1..], pat, rep)
  }

  // ---------------------------------------------------------------------------
  // Case
  // ---------------------------------------------------------------------------

  function LowerChar(c: char): char
  {
    if 'A' <= c <= 'Z' then (c as int + 32) as char else c
  }

  /** `toLowerCase()` / `lower()` on the ASCII letters. */
  function Lower(s: string): (r: string)
    ensures |r| == |s|
    ensures forall i :: 0 <= i < |s| ==> r[i] == LowerChar(s[i])
  {
    if s == [] then [] else [LowerChar(s[0])] + Lower(s[1..])
  }

  lemma LowerConcat(a: string, b: string)
    ensures Lower(a + b) == Lower(a) + Lower(b)
  {
    var ab := a + b;
    var l, la, lb := Lower(ab), Lower(a), Lower(b);
    forall i | 0 <= i < |ab|
      ensures l[i] == (la + lb)[i]
    {
      if i < |a| {
        assert ab[i] == a[i];
        assert l[i] == la[i] == (la + lb)[i];
      } else {
        assert ab[i] == b[i - |a|];
        assert l[i] == lb[i - |a|] == (la + lb)[i];
      }
    }
    assert l == la + lb;
  }

  // ---------------------------------------------------------------------------
  // Whitespace
  // ---------------------------------------------------------------------------

  /** The JavaScript `\s` class, which is also what `trim` removes. */
  predicate IsJsSpace(c: char)
  {
    var n := c as int;
    n == 9 || n == 10 || n == 11 || n == 12 || n == 13 || n == 32 || n == 0xA0 ||
    n == 0x1680 || (0x2000 <= n <= 0x200A) || n == 0x2028 || n == 0x2029 ||
    n == 0x202F || n == 0x205F || n == 0x3000 || n == 0xFEFF
  }

  /** Python's `str.isspace`, which is what `str.strip()` removes. */
  predicate IsPySpace(c: char)
  {
    var n := c as int;
    (9 <= n <= 13) || (0x1C <= n <= 0x1F) || n == 32 || n == 0x85 || n == 0xA0 ||
    n == 0x1680 || (0x2000 <= n <= 0x200A) || n == 0x2028 || n == 0x2029 ||
    n == 0x202F || n == 0x205F || n == 0x3000
  }

  function TrimStart(s: string, ws: char -> bool): (r: string)
    ensures |r| <= |s| && r == s[|s| - |r|..]
    ensures r != [] ==> !ws(r[0])
    ensures forall i :: 0 <= i < |s| - |r| ==> ws(s[i])
  {
    if s != [] && ws(s[0]) then TrimStart(s[1..], ws) else s
  }

  function TrimEnd(s: string, ws: char -> bool): (r: string)
    ensures |r| <= |s| && r == s[..|r|]
    ensures r != [] ==> !ws(r[|r| - 1])
    ensures forall i :: |r| <= i < |s| ==> ws(s[i])
  {
    if s != [] && ws(s[|s| - 1]) then TrimEnd(s[..|s| - 1], ws) else s
  }

  /** JavaScript `trim()`. */
  function JsTrim(s: string): (r: string)
  {
    TrimEnd(TrimStart(s, IsJsSpace), IsJsSpace)
  }

  /** Python `str.strip()`. */
  function PyStrip(s: string): (r: string)
  {
    TrimEnd(TrimStart(s, IsPySpace), IsPySpace)
  }

  lemma TrimIdempotent(s: string, ws: char -> bool)
    ensures var r := TrimEnd(TrimStart(s, ws), ws);
            TrimEnd(TrimStart(r, ws), ws) == r
  {
    var r := TrimEnd(TrimStart(s, ws), ws);
    if r != [] {
      assert TrimStart(r, ws) == r;
    }
  }

  /** Stripping keeps a last character that is not whitespace. */
  lemma TrimKeepsLast(s: string, ws: char -> bool)
    requires s != [] && !ws(s[|s| - 1])
    ensures var r := TrimEnd(TrimStart(s, ws), ws);
            r != [] && r[|r| - 1] == s[|s| - 1]
  {
    var u := TrimStart(s, ws);
    assert !(|s| - 1 < |s| - |u|);
    assert u[|u| - 1] == s[|s| - 1];
  }

  /** A string with no whitespace at either end is its own strip. */
  lemma TrimNone(s: string, ws: char -> bool)
    requires s != [] ==> !ws(s[0]) && !ws(s[|s| - 1])
    ensures TrimEnd(TrimStart(s, ws), ws) == s
  {
    assert TrimStart(s, ws) == s;
  }

  /** Stripping keeps only characters of the string. */
  lemma TrimWithout(s: string, ws: char -> bool, c: char)
    requires forall i :: 0 <= i < |s| ==> s[i] != c
    ensures var r := TrimEnd(TrimStart(s, ws), ws);
            forall i :: 0 <= i < |r| ==> r[i] != c
  {
    var u := TrimStart(s, ws);
    assert forall i :: 0 <= i < |u| ==> u[i] != c by {
      assert forall i :: 0 <= i < |u| ==> u[i] == s[|s| - |u| + i];
    }
    var r := TrimEnd(u, ws);
    assert forall i :: 0 <= i < |r| ==> r[i] == u[i];
  }

  lemma TrimEdges(s: string, ws: char -> bool)
    ensures var r := TrimEnd(TrimStart(s, ws), ws);
            r != [] ==> !ws(r[0]) && !ws(r[|r| - 1])
  {
  }

  // ---------------------------------------------------------------------------
  // Integers
  // ---------------------------------------------------------------------------

  function DigitChar(d: nat): char
    requires d < 10
  {
    ('0' as int + d) as char
  }

  predicate IsDigit(c: char)
  {
    '0' <= c <= '9'
  }

  function NatToString(n: nat): (r: string)
    ensures |r| >= 1
    ensures forall i :: 0 <= i < |r| ==> IsDigit(r[i])
  {
    if n < 10 then [DigitChar(n)] else NatToString(n / 10) + [DigitChar(n % 10)]
  }

  /** `str(i)` in Python and `String(i)` in JavaScript for an integer. */
  function IntToString(i: int): (r: string)
    ensures r != []
  {
    if i < 0 then "-" + NatToString(-i) else NatToString(i)
  }

  /** Value of a run of decimal digits (`parseInt(d, 10)`). */
  function DigitsValue(d: string): nat
    requires forall i :: 0 <= i < |d| ==> IsDigit(d[i])
  {
    if d == [] then 0
    else
      assert IsDigit(d[|d| - 1]);
      DigitsValue(d[..|d| - 1]) * 10 + (d[|d| - 1] as int - '0' as int)
  }

  /** `parseInt` reads back what `String` writes. */
  lemma {:induction false} DigitsValueOfNat(n: nat)
    ensures DigitsValue(NatToString(n)) == n
  {
    var r := NatToString(n);
    if n >= 10 {
      DigitsValueOfNat(n / 10);
      assert r[..|r| - 1] == NatToString(n / 10);
    }
  }

  /** A leading zero does not change the value. */
  lemma {:induction false} DigitsValueLeadingZero(d: string)
    requires forall i :: 0 <= i < |d| ==> IsDigit(d[i])
    ensures DigitsValue("0" + d) == DigitsValue(d)
  {
    if d != [] {
      DigitsValueLeadingZero(d[..|d| - 1]);
      assert ("0" + d)[..|d|] == "0" + d[..|d| - 1];
    }
  }

  /** Length of the leading run of decimal digits. */
  function DigitRun(s: string): (n: nat)
    ensures n <= |s|
    ensures forall i :: 0 <= i < n ==> IsDigit(s[i])
    ensures n < |s| ==> !IsDigit(s[n])
  {
    if s != [] && IsDigit(s[0]) then 1 + DigitRun(s[1..]) else 0
  }

  // ---------------------------------------------------------------------------
  // Code-point order
  // ---------------------------------------------------------------------------

  /** Python's `<=` on strings: lexicographic by code point. */
  predicate StrLe(a: string, b: string)
    decreases |a|
  {
    a == [] || (b != [] && (a[0] < b[0] || (a[0] == b[0] && StrLe(a[1..], b[1..]))))
  }

  lemma {:induction false} StrLeTotal(a: string, b: string)
    ensures StrLe(a, b) || StrLe(b, a)
    decreases |a|
  {
    if a != [] && b != [] && a[0] == b[0] {
      StrLeTotal(a[1..], b[1..]);
    }
  }

  lemma {:induction false} StrLeTrans(a: string, b: string, c: string)
    requires StrLe(a, b) && StrLe(b, c)
    ensures StrLe(a, c)
    decreases |a|
  {
    if a != [] && b != [] && c != [] && a[0] == b[0] && b[0] == c[0] {
      StrLeTrans(a[1..], b[1..], c[1..]);
    }
  }

  lemma {:induction false} StrLeAntisym(a: string, b: string)
    requires StrLe(a, b) && StrLe(b, a)
    ensures a == b
    decreases |a|
  {
    if a != [] {
      StrLeAntisym(a[1..], b[1..]);
      assert a == [a[0]] + a[1..] && b == [b[0]] + b[1..];
    }
  }
}

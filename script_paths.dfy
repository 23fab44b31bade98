/**
  Tree navigation of the standalone page (`ScriptPaths`): a category path is
  a list of segments, its key is the segments escaped and joined with '/';
  tools are filtered by path prefix; and a click on the tree expands or
  collapses branches and moves the selection.
*/
module ScriptPaths {
  import opened Text
  import opened Base
  import opened Sorting
  import opened Taxonomy
  import opened PreOrder
  import opened SidebarState

  // ---------------------------------------------------------------------------
  // Keys
  // ---------------------------------------------------------------------------

  /** The characters `encodeURIComponent` leaves as they are: ASCII letters
      and digits and `-_.!~*'()`. */
  predicate Unreserved(c: char)
  {
    || 'A' <= c <= 'Z' || 'a' <= c <= 'z' || '0' <= c <= '9'
    || c == '-' || c == '_' || c == '.' || c == '!' || c == '~' || c == '*' || c == '\'' || c == '(' || c == ')'
  }

  /** An upper-case hexadecimal digit. */
  function HexDigit(d: nat): (c: char)
    requires d < 16
  {
    if d < 10 then ('0' as int + d) as char else ('A' as int + d - 10) as char
  }

  /** The value of a hexadecimal digit of either case. */
  function HexValue(c: char): (v: Option<nat>)
    ensures v.Some? ==> v.value < 16
  {
    if '0' <= c <= '9' then Some(c as int - '0' as int)
    else if 'A' <= c <= 'F' then Some(c as int - 'A' as int + 10)
    else if 'a' <= c <= 'f' then Some(c as int - 'a' as int + 10)
    else None
  }

  /** `%XY` for one byte. */
  function EscapeByte(b: nat): (r: string)
    requires b < 256
  {
    ['%', HexDigit(b / 16), HexDigit(b % 16)]
  }

  /** The UTF-8 encoding of a character. */
  function Utf8(c: char): (bs: seq<nat>)
    ensures 1 <= |bs| <= 4
    ensures forall i :: 0 <= i < |bs| ==> bs[i] < 256
  {
    var n := c as int;
    if n < 0x80 then [n]
    else if n < 0x800 then [0xC0 + n / 64, 0x80 + n % 64]
    else if n < 0x1_0000 then [0xE0 + n / 4096, 0x80 + n / 64 % 64, 0x80 + n % 64]
    else [0xF0 + n / 0x4_0000, 0x80 + n / 4096 % 64, 0x80 + n / 64 % 64, 0x80 + n % 64]
  }

  /** Every byte escaped, in order. */
  function EscapeBytes(bs: seq<nat>): (r: string)
    requires forall i :: 0 <= i < |bs| ==> bs[i] < 256
    ensures |r| == 3 * |bs|
  {
    if bs == [] then [] else EscapeByte(bs[0]) + EscapeBytes(bs[1..])
  }

  /** The escape of one character, as `encodeURIComponent` writes it: an
      unreserved character stays, any other becomes its UTF-8 bytes as
      `%XY` escapes. */
  function EncodeChar(c: char): (r: string)
  {
    if Unreserved(c) then [c] else EscapeBytes(Utf8(c))
  }

  function EncodeSeg(s: string): (r: string)
  {
    if s == [] then [] else EncodeChar(s[0]) + EncodeSeg(s[1..])
  }

  /** The byte escaped as `%XY` at position `i`, if there is one. */
  function ByteAt(s: string, i: nat): (b: Option<nat>)
    ensures b.Some? ==> i + 3 <= |s| && b.value < 256
  {
    if i + 3 <= |s| && s[i] == '%' && HexValue(s[i + 1]).Some? && HexValue(s[i + 2]).Some?
    then Some(HexValue(s[i + 1]).value * 16 + HexValue(s[i + 2]).value)
    else None
  }

  /** `k` escaped continuation bytes from position `i`, folded onto `acc`
      six bits at a time. */
  function Conts(s: string, i: nat, k: nat, acc: nat): (v: Option<nat>)
    ensures v.Some? && k > 0 ==> i + 3 * k <= |s|
    decreases k
  {
    if k == 0 then Some(acc)
    else
      var b := ByteAt(s, i);
      if b.Some? && 0x80 <= b.value < 0xC0 then Conts(s, i + 3, k - 1, acc * 64 + (b.value - 0x80))
      else None
  }

  predicate IsScalar(n: int)
  {
    0 <= n < 0xD800 || 0xE000 <= n <= 0x10_FFFF
  }

  /** The character whose UTF-8 escape starts `s`, and the escape's length. */
  function DecodeCharAt(s: string): (r: Option<(char, nat)>)
    ensures r.Some? ==> 3 <= r.value.1 <= |s|
  {
    var b := ByteAt(s, 0);
    if b.None? then None
    else
      var lead := b.value;
      var k := if lead < 0x80 then 0 else if 0xC0 <= lead < 0xE0 then 1 else if 0xE0 <= lead < 0xF0 then 2
               else if 0xF0 <= lead < 0xF8 then 3 else 4;
      var v := if k == 4 then None
               else Conts(s, 3, k, if k == 0 then lead else if k == 1 then lead - 0xC0 else if k == 2 then lead - 0xE0 else lead - 0xF0);
      if v.Some? && IsScalar(v.value) then Some((v.value as char, 3 * (k + 1))) else None
  }

  /** `decodeURIComponent` on a segment: every UTF-8 escape becomes its
      character; any other text stays. */
  function DecodeSeg(s: string): (r: string)
    decreases |s|
  {
    if s == [] then []
    else
      var d := DecodeCharAt(s);
      if d.Some? then [d.value.0] + DecodeSeg(s[d.value.1..]) else [s[0]] + DecodeSeg(s[1..])
  }

  lemma HexRoundTrip(d: nat)
    requires d < 16
    ensures HexValue(HexDigit(d)) == Some(d)
  {
  }

  /** Reading an escape is unaffected by text in front of it. */
  lemma ByteAtShift(p: string, s: string, j: nat)
    ensures ByteAt(p + s, |p| + j) == ByteAt(s, j)
  {
    if j + 3 <= |s| {
      assert (p + s)[|p| + j] == s[j] && (p + s)[|p| + j + 1] == s[j + 1] && (p + s)[|p| + j + 2] == s[j + 2];
    }
  }

  /** An escaped byte reads back at its position. */
  lemma {:induction false} ByteAtEscaped(bs: seq<nat>, t: string, i: nat)
    requires forall j :: 0 <= j < |bs| ==> bs[j] < 256
    requires i < |bs|
    ensures ByteAt(EscapeBytes(bs) + t, 3 * i) == Some(bs[i])
  {
    var e := EscapeByte(bs[0]);
    var u := EscapeBytes(bs[1..]) + t;
    assert EscapeBytes(bs) + t == e + u;
    if i == 0 {
      HexRoundTrip(bs[0] / 16);
      HexRoundTrip(bs[0] % 16);
      assert (e + u)[0] == '%' && (e + u)[1] == e[1] && (e + u)[2] == e[2];
    } else {
      ByteAtEscaped(bs[1..], t, i - 1);
      ByteAtShift(e, u, 3 * (i - 1));
    }
  }

  lemma Div64Twice(n: nat)
    ensures n / 4096 == n / 64 / 64
    ensures n / 0x4_0000 == n / 4096 / 64
  {
    var q := n / 64;
    assert n == 4096 * (q / 64) + (64 * (q % 64) + n % 64);
    var p := n / 4096;
    assert n == 0x4_0000 * (p / 64) + (4096 * (p % 64) + n % 4096);
  }

  /** The escaped bytes of a character all read back. */
  lemma Utf8Escaped(c: char, t: string)
    ensures forall i :: 0 <= i < |Utf8(c)| ==> ByteAt(EscapeBytes(Utf8(c)) + t, 3 * i) == Some(Utf8(c)[i])
  {
    forall i | 0 <= i < |Utf8(c)|
      ensures ByteAt(EscapeBytes(Utf8(c)) + t, 3 * i) == Some(Utf8(c)[i])
    {
      ByteAtEscaped(Utf8(c), t, i);
    }
  }

  lemma DecodeTwo(c: char, s: string)
    requires 0x80 <= c as int < 0x800
    requires ByteAt(s, 0) == Some(Utf8(c)[0]) && ByteAt(s, 3) == Some(Utf8(c)[1])
    ensures DecodeCharAt(s) == Some((c, 6))
  {
    assert Conts(s, 3, 1, Utf8(c)[0] - 0xC0) == Some(c as int);
  }

  lemma DecodeThree(c: char, s: string)
    requires 0x800 <= c as int < 0x1_0000
    requires ByteAt(s, 0) == Some(Utf8(c)[0]) && ByteAt(s, 3) == Some(Utf8(c)[1]) && ByteAt(s, 6) == Some(Utf8(c)[2])
    ensures DecodeCharAt(s) == Some((c, 9))
  {
    Div64Twice(c as int);
    assert Conts(s, 3, 2, Utf8(c)[0] - 0xE0) == Some(c as int);
  }

  lemma DecodeFour(c: char, s: string)
    requires 0x1_0000 <= c as int
    requires ByteAt(s, 0) == Some(Utf8(c)[0]) && ByteAt(s, 3) == Some(Utf8(c)[1])
    requires ByteAt(s, 6) == Some(Utf8(c)[2]) && ByteAt(s, 9) == Some(Utf8(c)[3])
    ensures DecodeCharAt(s) == Some((c, 12))
  {
    Div64Twice(c as int);
    assert Conts(s, 3, 3, Utf8(c)[0] - 0xF0) == Some(c as int);
  }

  /** The escape of a reserved character decodes back to it. */
  lemma DecodeEscaped(c: char, t: string)
    requires !Unreserved(c)
    ensures DecodeCharAt(EncodeChar(c) + t) == Some((c, |EncodeChar(c)|))
  {
    var s := EscapeBytes(Utf8(c)) + t;
    var n := c as int;
    Utf8Escaped(c, t);
    if n < 0x80 {
      assert ByteAt(s, 0) == Some(n);
    } else if n < 0x800 {
      DecodeTwo(c, s);
    } else if n < 0x1_0000 {
      DecodeThree(c, s);
    } else {
      DecodeFour(c, s);
    }
  }

  function MapEncode(p: seq<string>): (r: seq<string>)
    ensures |r| == |p|
    ensures forall i :: 0 <= i < |p| ==> r[i] == EncodeSeg(p[i])
  {
    if p == [] then [] else [EncodeSeg(p[0])] + MapEncode(p[1..])
  }

  function MapDecode(p: seq<string>): (r: seq<string>)
    ensures |r| == |p|
    ensures forall i :: 0 <= i < |p| ==> r[i] == DecodeSeg(p[i])
  {
    if p == [] then [] else [DecodeSeg(p[0])] + MapDecode(p[1..])
  }

  /** `pathToKey`. */
  function PathToKey(p: seq<string>): (key: string)
  {
    Join(MapEncode(p), '/')
  }

  /** `keyToPath`: split, decode, drop empty segments. */
  function KeyToPath(key: string): (p: seq<string>)
  {
    NonEmpty(MapDecode(Split(key, '/')))
  }

  /** `getPhaseFromKey`: the first '/'-field. */
  function PhaseFromKey(key: string): (phase: string)
  {
    Split(key, '/')[0]
  }

  /** `isAncestorPath`: the empty key is above everything. */
  predicate IsAncestorPath(ancestorKey: string, descendantKey: string)
  {
    ancestorKey == "" || descendantKey == ancestorKey || StartsWith(descendantKey, ancestorKey + "/")
  }

  ghost predicate Clean(p: seq<string>)
  {
    forall i :: 0 <= i < |p| ==> p[i] != ""
  }

  lemma {:induction false} DecodeEncode(s: string)
    ensures DecodeSeg(EncodeSeg(s)) == s
    ensures '/' !in EncodeSeg(s)
    ensures EncodeSeg(s) == "" <==> s == ""
  {
    if s != [] {
      DecodeEncode(s[1..]);
      var rest := EncodeSeg(s[1..]);
      var e := EncodeChar(s[0]) + rest;
      if Unreserved(s[0]) {
        assert ByteAt(e, 0).None?;
        assert e[1..] == rest;
      } else {
        DecodeEscaped(s[0], rest);
        assert e[|EncodeChar(s[0])|..] == rest;
        EscapeNoSlash(Utf8(s[0]));
      }
      assert s == [s[0]] + s[1..];
    }
  }

  /** An escape holds no '/'. */
  lemma {:induction false} EscapeNoSlash(bs: seq<nat>)
    requires forall i :: 0 <= i < |bs| ==> bs[i] < 256
    ensures '/' !in EscapeBytes(bs)
  {
    if bs != [] {
      EscapeNoSlash(bs[1..]);
    }
  }

  lemma MapDecodeEncode(p: seq<string>)
    ensures MapDecode(MapEncode(p)) == p
    ensures NoSep(MapEncode(p), '/')
    ensures Clean(p) ==> Clean(MapEncode(p))
  {
    forall i | 0 <= i < |p|
      ensures DecodeSeg(EncodeSeg(p[i])) == p[i] && '/' !in EncodeSeg(p[i]) && (EncodeSeg(p[i]) == "" <==> p[i] == "")
    {
      DecodeEncode(p[i]);
    }
  }

  /** A path without empty segments survives the round trip through its key. */
  lemma KeyRoundTrip(p: seq<string>)
    requires Clean(p)
    ensures KeyToPath(PathToKey(p)) == p
  {
    MapDecodeEncode(p);
    if p == [] {
      assert Split("", '/') == [""];
    } else {
      SplitJoin(MapEncode(p), '/');
    }
    NonEmptyClean(p);
  }

  /** Splitting a join followed by more text gives the parts, then the
      fields of the rest. */
  lemma {:induction false} SplitJoinThen(a: seq<string>, r: string, sep: char)
    requires |a| >= 1 && NoSep(a, sep)
    ensures Split(Join(a, sep) + [sep] + r, sep) == a + Split(r, sep)
  {
    if |a| == 1 {
      SplitConcat(a[0], r, sep);
    } else {
      var tail := a[1..];
      var rest := Join(tail, sep) + [sep] + r;
      assert Split(rest, sep) == tail + Split(r, sep) by {
        SplitJoinThen(tail, r, sep);
      }
      assert Join(a, sep) + [sep] + r == a[0] + [sep] + rest by {
        assert Join(a, sep) == a[0] + [sep] + Join(tail, sep);
      }
      assert Split(a[0] + [sep] + rest, sep) == [a[0]] + Split(rest, sep) by {
        SplitConcat(a[0], rest, sep);
      }
      assert a == [a[0]] + tail;
    }
  }

  /** On joined keys, "starts with the key and a '/'" is "strictly extends
      the parts". */
  lemma JoinExtends(a: seq<string>, d: seq<string>)
    requires |a| >= 1 && NoSep(a, '/') && NoSep(d, '/')
    ensures StartsWith(Join(d, '/'), Join(a, '/') + "/") <==> a < d
  {
    var ka := Join(a, '/');
    if StartsWith(Join(d, '/'), ka + "/") {
      var r := Join(d, '/')[|ka| + 1..];
      assert Join(d, '/') == ka + ['/'] + r;
      SplitJoinThen(a, r, '/');
      if |d| == 0 {
        assert false;
      }
      SplitJoin(d, '/');
      assert d == a + Split(r, '/');
      assert d[..|a|] == a;
    }
    if a < d {
      var t := d[|a|..];
      assert d == a + t;
      JoinAppend(a, t, '/');
      assert Join(d, '/') == ka + "/" + Join(t, '/');
    }
  }

  /** `isAncestorPath` on keys agrees with the element-wise prefix order on
      the paths, for paths without empty segments. */
  lemma AncestorIsPrefix(a: seq<string>, d: seq<string>)
    requires Clean(a) && Clean(d)
    ensures IsAncestorPath(PathToKey(a), PathToKey(d)) <==> a <= d
  {
    MapDecodeEncode(a);
    MapDecodeEncode(d);
    var ea := MapEncode(a);
    var ed := MapEncode(d);
    if a != [] {
      assert ea[0] != "";
      assert |PathToKey(a)| >= 1 by {
        if |ea| > 1 {
          assert Join(ea, '/') == ea[0] + "/" + Join(ea[1..], '/');
        }
      }
      JoinExtends(ea, ed);
      if PathToKey(d) == PathToKey(a) {
        SplitJoin(ea, '/');
        if d != [] {
          SplitJoin(ed, '/');
        }
        assert ea == ed;
        KeyRoundTrip(a);
        KeyRoundTrip(d);
      }
      if a == d {
        assert PathToKey(d) == PathToKey(a);
      }
      if ea < ed {
        assert a == MapDecode(ea) && d == MapDecode(ed);
        assert a == d[..|a|];
      }
      if a < d {
        assert ea == ed[..|ea|];
      }
    }
  }

  // ---------------------------------------------------------------------------
  // Matching and listing
  // ---------------------------------------------------------------------------

  /** `pathMatches(itemPath, filterPrefix)`: a loop over the prefix. */
  method PathMatches(itemPath: seq<string>, filterPrefix: seq<string>) returns (r: bool)
    ensures r <==> filterPrefix <= itemPath
  {
    if |filterPrefix| == 0 {
      return true;
    }
    if |itemPath| < |filterPrefix| {
      return false;
    }
    for i := 0 to |filterPrefix|
      invariant filterPrefix[..i] == itemPath[..i]
    {
      if itemPath[i] != filterPrefix[i] {
        return false;
      }
    }
    return true;
  }

  /** The node `getTreeChildren` ends on: the walk stops at an empty segment,
      and a missing or null value ends it with nothing. */
  function Descend(n: Node, prefix: seq<string>): (r: Option<Node>)
  {
    if prefix == [] || prefix[0] == "" then Some(n)
    else if !n.Dict? then None
    else
      var i := Find(n.entries, prefix[0]);
      if i < 0 || n.entries[i].value.Null? then None else Descend(n.entries[i].value, prefix[1..])
  }

  function KeyOrder(): (string, string) -> bool
  {
    (a: string, b: string) => StrLe(a, b)
  }

  /** `getTreeChildren`: the sorted keys of the node reached, or none. */
  function TreeChildren(n: Node, prefix: seq<string>): (r: seq<string>)
  {
    var d := Descend(n, prefix);
    if d.Some? && d.value.Dict? then StableSort(Keys(d.value.entries), KeyOrder()) else []
  }

  lemma KeyOrderTotal()
    ensures TotalPreorder(KeyOrder())
  {
    forall a: string, b: string
      ensures StrLe(a, b) || StrLe(b, a)
    {
      StrLeTotal(a, b);
    }
    forall a: string, b: string, c: string | StrLe(a, b) && StrLe(b, c)
      ensures StrLe(a, c)
    {
      StrLeTrans(a, b, c);
    }
  }

  /** The children listed are the keys of the node reached, each once, in
      ascending code-unit order. */
  lemma TreeChildrenSpec(n: Node, prefix: seq<string>)
    ensures var d := Descend(n, prefix);
            d.Some? && d.value.Dict? ==> multiset(TreeChildren(n, prefix)) == multiset(Keys(d.value.entries))
    ensures forall x, y :: 0 <= x < y < |TreeChildren(n, prefix)| ==> StrLe(TreeChildren(n, prefix)[x], TreeChildren(n, prefix)[y])
    ensures Descend(n, prefix).None? ==> TreeChildren(n, prefix) == []
  {
    var d := Descend(n, prefix);
    if d.Some? && d.value.Dict? {
      KeyOrderTotal();
      StableSortCorrect(Keys(d.value.entries), KeyOrder());
    }
  }

  /** On a taxonomy of dictionaries, a prefix without empty segments reaches
      exactly the node `At` names. */
  lemma {:induction false} DescendAt(n: Node, prefix: seq<string>)
    requires AllDict(n) && Clean(prefix)
    ensures Descend(n, prefix) == At(n, prefix)
  {
    if prefix != [] {
      var i := Find(n.entries, prefix[0]);
      if i >= 0 {
        assert AllDict(n.entries[i].value);
        DescendAt(n.entries[i].value, prefix[1..]);
      }
    }
  }

  method GetTreeChildren(node: Node, pathPrefix: seq<string>) returns (r: seq<string>)
    ensures r == TreeChildren(node, pathPrefix)
  {
    var current := node;
    var i := 0;
    while i < |pathPrefix|
      invariant 0 <= i <= |pathPrefix|
      invariant Descend(node, pathPrefix) == Descend(current, pathPrefix[i..])
    {
      var segment := pathPrefix[i];
      if segment == "" {
        break;
      }
      if !current.Dict? {
        return [];
      }
      var j := Find(current.entries, segment);
      if j < 0 || current.entries[j].value.Null? {
        return [];
      }
      current := current.entries[j].value;
      i := i + 1;
    }
    if current.Dict? {
      r := StableSort(Keys(current.entries), KeyOrder());
    } else {
      r := [];
    }
  }

  /** `buildAllTreePaths`: every key's path, then the paths below it, pushed
      onto the accumulator. */
  method BuildAllTreePaths(es: seq<Entry>, prefix: Path, acc: seq<Path>) returns (out: seq<Path>)
    ensures out == acc + Walk(es, prefix)
    decreases es
  {
    out := acc;
    for i := 0 to |es|
      invariant out == acc + Walk(es[..i], prefix)
    {
      var path := prefix + [es[i].key];
      out := out + [path];
      if es[i].value.Dict? {
        out := BuildAllTreePaths(es[i].value.entries, path, out);
      }
      WalkSlice(es, i, prefix);
    }
    assert es[..|es|] == es;
  }

  lemma {:induction false} WalkConcat(a: seq<Entry>, b: seq<Entry>, path: Path)
    ensures Walk(a + b, path) == Walk(a, path) + Walk(b, path)
  {
    if a == [] {
      assert a + b == b;
    } else {
      WalkConcat(a[1..], b, path);
      assert (a + b)[1..] == a[1..] + b;
    }
  }

  lemma WalkSlice(es: seq<Entry>, i: int, path: Path)
    requires 0 <= i < |es|
    ensures Walk(es[..i + 1], path) == Walk(es[..i], path) + [path + [es[i].key]] + Below(es[i].value, path + [es[i].key])
  {
    assert es[..i + 1] == es[..i] + [es[i]];
    WalkConcat(es[..i], [es[i]], path);
  }

  /** All tree paths are listed, each once, and nothing else. */
  lemma AllTreePathsSpec(t: Node, q: Path)
    requires t.Dict? && WellFormed(t)
    ensures q in Walk(t.entries, []) <==> HasPath(t, q)
    ensures Distinct(Walk(t.entries, []))
  {
    NodesHasPath(t, q);
    NodesShape(t);
  }

  // ---------------------------------------------------------------------------
  // Clicking the tree
  // ---------------------------------------------------------------------------

  /** `selectedPath`, `expandedNodes` (in insertion order) and
      `selectedToolId`. */
  datatype TreeView = TreeView(selectedPath: seq<string>, expanded: seq<string>, selectedTool: Option<string>)

  /** The expanded keys kept when a phase is opened: those without a phase
      or in that phase. */
  function KeepPhase(xs: seq<string>, phase: string): (r: seq<string>)
  {
    if xs == [] then []
    else
      var k := xs[|xs| - 1];
      var p := PhaseFromKey(k);
      if p != "" && p != phase then KeepPhase(xs[..|xs| - 1], phase) else KeepPhase(xs[..|xs| - 1], phase) + [k]
  }

  /** `clickedPath.slice(0, -1)`. */
  function Parent(p: seq<string>): (r: seq<string>)
  {
    if p == [] then [] else p[..|p| - 1]
  }

  /** `handleTreeClick` on an item with `data-path` = `key` and
      `data-phase` = `phaseAttr` ("" when absent). */
  function Click(s: TreeView, key: string, phaseAttr: string): (r: TreeView)
  {
    var phase := if phaseAttr != "" then phaseAttr else PhaseFromKey(key);
    var clicked := KeyToPath(key);
    var was := key in s.expanded;
    if |clicked| == 1 then
      if was then TreeView([], [], None)
      else TreeView(clicked, AddPath(KeepPhase(s.expanded, phase), key), None)
    else if was then
      var sel := PathToKey(s.selectedPath);
      var e := Collapse(s.expanded, key);
      if sel == key || IsAncestorPath(key, sel) then TreeView(Parent(clicked), e, None)
      else s.(expanded := e)
    else TreeView(clicked, AddPath(s.expanded, key), None)
  }

  lemma {:induction false} KeepPhaseSpec(xs: seq<string>, phase: string)
    ensures forall x :: x in KeepPhase(xs, phase) <==> x in xs && (PhaseFromKey(x) == "" || PhaseFromKey(x) == phase)
  {
    if xs != [] {
      KeepPhaseSpec(xs[..|xs| - 1], phase);
      assert forall x :: x in xs <==> x in xs[..|xs| - 1] || x == xs[|xs| - 1];
    }
  }

  /** Opening a phase keeps exactly the open keys whose escaped first
      segment is empty or equal to the phase attribute, adds the phase's key
      and selects it. */
  lemma ClickPhase(s: TreeView, key: string, phaseAttr: string)
    requires |KeyToPath(key)| == 1 && key !in s.expanded
    ensures var phase := if phaseAttr != "" then phaseAttr else PhaseFromKey(key);
            var r := Click(s, key, phaseAttr);
            && key in r.expanded
            && (forall x :: x in r.expanded && x != key ==> x in s.expanded && (PhaseFromKey(x) == "" || PhaseFromKey(x) == phase))
            && (forall x :: x in s.expanded && PhaseFromKey(x) == phase ==> x in r.expanded)
            && r.selectedPath == KeyToPath(key) && r.selectedTool == None
  {
    var phase := if phaseAttr != "" then phaseAttr else PhaseFromKey(key);
    KeepPhaseSpec(s.expanded, phase);
  }

  /** A segment is its own escape exactly when every character of it is
      unreserved; otherwise the escape is strictly longer. */
  lemma {:induction false} EncodeSegSelf(s: string)
    ensures |EncodeSeg(s)| >= |s|
    ensures (forall i :: 0 <= i < |s| ==> Unreserved(s[i])) ==> EncodeSeg(s) == s
    ensures (exists i :: 0 <= i < |s| && !Unreserved(s[i])) ==> |EncodeSeg(s)| > |s|
  {
    if s != [] {
      EncodeSegSelf(s[1..]);
      assert s == [s[0]] + s[1..];
      if exists i :: 0 <= i < |s| && !Unreserved(s[i]) {
        var i :| 0 <= i < |s| && !Unreserved(s[i]);
        if i > 0 {
          assert !Unreserved(s[1..][i - 1]);
        }
      }
    }
  }

  /** The phase read back from a key is the escaped first segment. */
  lemma KeyPhase(p: seq<string>)
    requires |p| >= 1
    ensures PhaseFromKey(PathToKey(p)) == EncodeSeg(p[0])
  {
    DecodeEncode(p[0]);
    SplitJoinFirst(MapEncode(p), '/');
  }

  /** A key below a phase is longer than the phase's own key. */
  lemma BranchKeyLonger(ph: string, rest: seq<string>)
    requires rest != []
    ensures |PathToKey([ph] + rest)| > |PathToKey([ph])|
  {
    JoinAppend([EncodeSeg(ph)], MapEncode(rest), '/');
    assert MapEncode([ph] + rest) == [EncodeSeg(ph)] + MapEncode(rest);
  }

  /** The phase attribute holds the raw phase name while `getPhaseFromKey`
      returns it escaped: opening a phase whose name holds a character
      that needs escaping closes every open branch of that same phase. */
  lemma ClickEscapedPhase(s: TreeView, ph: string, rest: seq<string>)
    requires exists i :: 0 <= i < |ph| && !Unreserved(ph[i])
    requires PathToKey([ph]) !in s.expanded
    requires rest != []
    ensures PathToKey([ph] + rest) !in Click(s, PathToKey([ph]), ph).expanded
  {
    var key := PathToKey([ph]);
    var x := PathToKey([ph] + rest);
    KeyRoundTrip([ph]);
    KeyPhase([ph] + rest);
    EncodeSegSelf(ph);
    DecodeEncode(ph);
    BranchKeyLonger(ph, rest);
    KeepPhaseSpec(s.expanded, ph);
  }

  /** Closing an open phase clears everything. */
  lemma ClickOpenPhase(s: TreeView, key: string, phaseAttr: string)
    requires |KeyToPath(key)| == 1 && key in s.expanded
    ensures Click(s, key, phaseAttr) == TreeView([], [], None)
  {
  }

  /** Closing an open branch removes it and every key below it and nothing
      else; a selection inside it moves to the branch's parent, any other
      selection stays. */
  lemma ClickCollapse(s: TreeView, clicked: seq<string>, phaseAttr: string)
    requires |clicked| >= 2 && Clean(clicked) && Clean(s.selectedPath)
    requires PathToKey(clicked) in s.expanded
    ensures var r := Click(s, PathToKey(clicked), phaseAttr);
            && (forall x :: x in r.expanded <==> x in s.expanded && !InSubtree(PathToKey(clicked), x))
            && (clicked <= s.selectedPath ==> r.selectedPath == clicked[..|clicked| - 1] && r.selectedTool == None)
            && (!(clicked <= s.selectedPath) ==> r.selectedPath == s.selectedPath && r.selectedTool == s.selectedTool)
  {
    var key := PathToKey(clicked);
    KeyRoundTrip(clicked);
    CollapseSpec(s.expanded, key);
    AncestorIsPrefix(clicked, s.selectedPath);
    assert key != "" by {
      MapDecodeEncode(clicked);
      assert MapEncode(clicked)[0] != "";
      assert Join(MapEncode(clicked), '/') == MapEncode(clicked)[0] + "/" + Join(MapEncode(clicked)[1..], '/');
    }
  }

  /** Opening a branch adds only its key and selects it. */
  lemma ClickExpand(s: TreeView, key: string, phaseAttr: string)
    requires |KeyToPath(key)| != 1 && key !in s.expanded
    ensures Click(s, key, phaseAttr).expanded == s.expanded + [key]
    ensures Click(s, key, phaseAttr).selectedPath == KeyToPath(key)
  {
  }

  /** The page's tree state. */
  class TreeState {
    var selectedPath: seq<string>
    var expandedNodes: seq<string>
    var selectedToolId: Option<string>

    constructor ()
      ensures selectedPath == [] && expandedNodes == [] && selectedToolId == None
    {
      selectedPath := [];
      expandedNodes := [];
      selectedToolId := None;
    }

    function View(): TreeView
      reads this
    {
      TreeView(selectedPath, expandedNodes, selectedToolId)
    }

    method HandleTreeClick(key: string, phaseAttr: string)
      modifies this
      ensures View() == Click(old(View()), key, phaseAttr)
    {
      var phase := if phaseAttr != "" then phaseAttr else PhaseFromKey(key);
      var clickedPath := KeyToPath(key);
      var wasExpanded := key in expandedNodes;
      if |clickedPath| == 1 {
        if wasExpanded {
          expandedNodes := [];
          selectedPath := [];
          selectedToolId := None;
        } else {
          var xs := expandedNodes;
          var kept := [];
          for i := 0 to |xs|
            invariant kept == KeepPhase(xs[..i], phase)
          {
            assert xs[..i + 1][..i] == xs[..i];
            var p := PhaseFromKey(xs[i]);
            if !(p != "" && p != phase) {
              kept := kept + [xs[i]];
            }
          }
          assert xs[..|xs|] == xs;
          expandedNodes := if key in kept then kept else kept + [key];
          selectedPath := clickedPath;
          selectedToolId := None;
        }
      } else {
        if wasExpanded {
          var xs := expandedNodes;
          var kept := [];
          for i := 0 to |xs|
            invariant kept == Collapse(xs[..i], key)
          {
            assert xs[..i + 1][..i] == xs[..i];
            if !InSubtree(key, xs[i]) {
              kept := kept + [xs[i]];
            }
          }
          assert xs[..|xs|] == xs;
          expandedNodes := kept;
          var selectedKey := PathToKey(selectedPath);
          if selectedKey == key || IsAncestorPath(key, selectedKey) {
            selectedPath := if clickedPath == [] then [] else clickedPath[..|clickedPath| - 1];
            selectedToolId := None;
          }
        } else {
          expandedNodes := if key in expandedNodes then expandedNodes else expandedNodes + [key];
          selectedPath := clickedPath;
          selectedToolId := None;
        }
      }
    }
  }
}

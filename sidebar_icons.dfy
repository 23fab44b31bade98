/**
  The sidebar's icons (`SidebarIcons`): the icon of a taxonomy node is chosen
  from an exact `byPath` entry, else the longest `byPrefix` key, else (for a
  leaf) the nearest ancestor's `byPath` entry, else the closed folder; and
  `precomputeIconMap` stores that choice for every node of the taxonomy.
*/
module SidebarIcons {
  import opened Text
  import opened Base
  import opened Taxonomy
  import opened PreOrder
  import opened SidebarConstants

  /** An icon registry entry: an SVG string, or an object whose missing
      members are "" (falsy, like `undefined`). */
  datatype IconEntry = Plain(svg: string) | Variants(open: string, closed: string, terminal: string, any: string)

  /** `ICONS`: the default closed folder, `byPath`, and `byPrefix` with its
      keys in insertion order. */
  datatype Icons = Icons(folderClosed: string, byPath: map<string, IconEntry>,
                         prefixKeys: seq<string>, byPrefix: map<string, IconEntry>)

  /** `if (v)`: an entry that is present and not the empty string. */
  predicate Present(m: map<string, IconEntry>, k: string)
  {
    k in m && (m[k].Plain? ==> m[k].svg != "")
  }

  function OrElse(a: string, b: string): (r: string)
  {
    if a != "" then a else b
  }

  /** `v.closed || v.any || folderClosed` for a folder. */
  function FolderPick(ic: Icons, v: IconEntry): (r: string)
  {
    match v
    case Plain(s) => s
    case Variants(_, closed, _, any) => OrElse(closed, OrElse(any, ic.folderClosed))
  }

  /** `v.terminal || v.any || v.closed || folderClosed` for a leaf. */
  function LeafPick(ic: Icons, v: IconEntry): (r: string)
  {
    match v
    case Plain(s) => s
    case Variants(_, closed, terminal, any) => OrElse(terminal, OrElse(any, OrElse(closed, ic.folderClosed)))
  }

  function Pick(ic: Icons, v: IconEntry, hasKids: bool): (r: string)
  {
    if hasKids then FolderPick(ic, v) else LeafPick(ic, v)
  }

  /** A prefix entry: a plain string only for leaves. */
  function PrefixPick(ic: Icons, v: IconEntry, hasKids: bool): (r: string)
  {
    if v.Plain? then (if !hasKids then v.svg else ic.folderClosed) else Pick(ic, v, hasKids)
  }

  /** The scan of the `byPrefix` keys: a key that starts the path replaces
      the best so far when that is unset ("" stands for null, both falsy) or
      shorter. */
  function LongestPrefix(keys: seq<string>, path: string): (best: string)
  {
    if keys == [] then ""
    else
      var b := LongestPrefix(keys[..|keys| - 1], path);
      var k := keys[|keys| - 1];
      if StartsWith(path, k) && (b == "" || |k| > |b|) then k else b
  }

  /** The ancestors `parts[..n]`, `parts[..n-1]`, ..., `parts[..1]`, nearest
      first: the leaf pick of the first one with a `byPath` entry. */
  function Inherit(ic: Icons, parts: seq<string>, n: nat): (r: Option<string>)
    requires n <= |parts|
  {
    if n == 0 then None
    else if Present(ic.byPath, Join(parts[..n], '/')) then Some(LeafPick(ic, ic.byPath[Join(parts[..n], '/')]))
    else Inherit(ic, parts, n - 1)
  }

  /** `getIconStatic(path, hasKids)`. */
  function IconStatic(ic: Icons, path: string, hasKids: bool): (r: string)
  {
    if Present(ic.byPath, path) then Pick(ic, ic.byPath[path], hasKids)
    else
      var best := LongestPrefix(ic.prefixKeys, path);
      if best != "" && Present(ic.byPrefix, best) then PrefixPick(ic, ic.byPrefix[best], hasKids)
      else if hasKids then ic.folderClosed
      else
        var parts := Split(path, '/');
        match Inherit(ic, parts, |parts| - 1)
        case Some(s) => s
        case None => ic.folderClosed
  }

  // ---------------------------------------------------------------------------
  // What the choice promises
  // ---------------------------------------------------------------------------

  /** The scan's result is unset or a key that is a raw string prefix of the
      path (not aligned to '/'), and no non-empty key starting the path is
      longer. */
  lemma {:induction false} LongestPrefixSpec(keys: seq<string>, path: string)
    ensures LongestPrefix(keys, path) != "" ==> LongestPrefix(keys, path) in keys && StartsWith(path, LongestPrefix(keys, path))
    ensures forall k :: k in keys && k != "" && StartsWith(path, k) ==>
              LongestPrefix(keys, path) != "" && |k| <= |LongestPrefix(keys, path)|
  {
    if keys != [] {
      var init := keys[..|keys| - 1];
      LongestPrefixSpec(init, path);
      assert forall x :: x in keys ==> x in init || x == keys[|keys| - 1];
    }
  }

  /** Prefixes of the path that are equally long are equal, so the key order
      of `byPrefix` never changes the choice. */
  lemma PrefixUnique(path: string, a: string, b: string)
    requires StartsWith(path, a) && StartsWith(path, b) && |a| == |b|
    ensures a == b
  {
    assert a == path[..|a|] && b == path[..|b|];
  }

  /** A prefix key need not end at a segment boundary: "02_Ex" styles
      "02_Exploitation/Web". */
  lemma PrefixNotAligned()
    ensures LongestPrefix(["02_Ex"], "02_Exploitation/Web") == "02_Ex"
  {
    assert "02_Ex" <= "02_Exploitation/Web";
    assert LongestPrefix([], "02_Exploitation/Web") == "";
    assert ["02_Ex"][..0] == [];
  }

  /** The first present ancestor wins: nothing between it and the node has a
      `byPath` entry; with none found, no ancestor has one. */
  lemma {:induction false} InheritSpec(ic: Icons, parts: seq<string>, n: nat)
    requires n <= |parts|
    ensures Inherit(ic, parts, n).Some? ==>
              exists a :: 1 <= a <= n && Present(ic.byPath, Join(parts[..a], '/'))
                && Inherit(ic, parts, n).value == LeafPick(ic, ic.byPath[Join(parts[..a], '/')])
                && forall b :: a < b <= n ==> !Present(ic.byPath, Join(parts[..b], '/'))
    ensures Inherit(ic, parts, n).None? ==> forall b :: 1 <= b <= n ==> !Present(ic.byPath, Join(parts[..b], '/'))
  {
    if n > 0 && !Present(ic.byPath, Join(parts[..n], '/')) {
      InheritSpec(ic, parts, n - 1);
    }
  }

  /** The order of the rules: an exact entry decides first; a folder without
      an exact or prefix entry, or with a plain-string prefix entry, is the
      closed folder (no inheritance for folders). */
  lemma IconRules(ic: Icons, path: string, hasKids: bool)
    ensures Present(ic.byPath, path) ==> IconStatic(ic, path, hasKids) == Pick(ic, ic.byPath[path], hasKids)
    ensures var best := LongestPrefix(ic.prefixKeys, path);
            !Present(ic.byPath, path) && best != "" && Present(ic.byPrefix, best) && ic.byPrefix[best].Plain? && hasKids ==>
              IconStatic(ic, path, hasKids) == ic.folderClosed
    ensures var best := LongestPrefix(ic.prefixKeys, path);
            !Present(ic.byPath, path) && !(best != "" && Present(ic.byPrefix, best)) && hasKids ==>
              IconStatic(ic, path, hasKids) == ic.folderClosed
  {
  }

  /** An icon is always produced: whenever the default folder is set, the
      result is a non-empty string. */
  lemma IconNeverEmpty(ic: Icons, path: string, hasKids: bool)
    requires ic.folderClosed != ""
    ensures IconStatic(ic, path, hasKids) != ""
  {
    var parts := Split(path, '/');
    InheritSpec(ic, parts, |parts| - 1);
  }

  // ---------------------------------------------------------------------------
  // The lookup as written
  // ---------------------------------------------------------------------------

  method GetIconStatic(ic: Icons, path: string, hasKids: bool) returns (icon: string)
    ensures icon == IconStatic(ic, path, hasKids)
  {
    if Present(ic.byPath, path) {
      return Pick(ic, ic.byPath[path], hasKids);
    }
    var bestKey := "";
    for i := 0 to |ic.prefixKeys|
      invariant bestKey == LongestPrefix(ic.prefixKeys[..i], path)
    {
      assert ic.prefixKeys[..i + 1][..i] == ic.prefixKeys[..i];
      var key := ic.prefixKeys[i];
      if StartsWith(path, key) && (bestKey == "" || |key| > |bestKey|) {
        bestKey := key;
      }
    }
    assert ic.prefixKeys[..|ic.prefixKeys|] == ic.prefixKeys;
    if bestKey != "" && Present(ic.byPrefix, bestKey) {
      return PrefixPick(ic, ic.byPrefix[bestKey], hasKids);
    }
    if !hasKids {
      var parts := Split(path, '/');
      var i := |parts| - 2;
      while i >= 0
        invariant -1 <= i <= |parts| - 2
        invariant Inherit(ic, parts, |parts| - 1) == Inherit(ic, parts, i + 1)
      {
        var anc := Join(parts[..i + 1], '/');
        if Present(ic.byPath, anc) {
          return LeafPick(ic, ic.byPath[anc]);
        }
        i := i - 1;
      }
    }
    icon := ic.folderClosed;
  }

  // ---------------------------------------------------------------------------
  // The icon map
  // ---------------------------------------------------------------------------

  /** The '/'-path the walk builds for a node: `base ? base + '/' + k : k`. */
  function SlashKey(p: Path): (key: string)
    decreases |p|
  {
    if p == [] then ""
    else
      var base := SlashKey(p[..|p| - 1]);
      if base != "" then base + "/" + p[|p| - 1] else p[|p| - 1]
  }

  /** The icons stored by `walk(node, base)` for the entries `es` below
      `path`: each key's icon, then everything below it, then its next
      sibling; a later store under the same string replaces an earlier one. */
  function Fill(m: map<string, string>, ic: Icons, es: seq<Entry>, path: Path): map<string, string>
    decreases es
  {
    if es == [] then m
    else
      var cur := path + [es[0].key];
      var m1 := m[SlashKey(cur) := IconStatic(ic, SlashKey(cur), HasChildrenNode(es[0].value))];
      Fill(FillBelow(m1, ic, es[0].value, cur), ic, es[1..], path)
  }

  function FillBelow(m: map<string, string>, ic: Icons, v: Node, path: Path): map<string, string>
    decreases v
  {
    if v.Dict? then Fill(m, ic, v.entries, path) else m
  }

  lemma {:induction false} FillAppend(m: map<string, string>, ic: Icons, a: seq<Entry>, b: seq<Entry>, path: Path)
    ensures Fill(m, ic, a + b, path) == Fill(Fill(m, ic, a, path), ic, b, path)
    decreases a
  {
    if a == [] {
      assert a + b == b;
    } else {
      assert (a + b)[0] == a[0] && (a + b)[1..] == a[1..] + b;
      var cur := path + [a[0].key];
      var m1 := m[SlashKey(cur) := IconStatic(ic, SlashKey(cur), HasChildrenNode(a[0].value))];
      FillAppend(FillBelow(m1, ic, a[0].value, cur), ic, a[1..], b, path);
    }
  }

  lemma FillStep(m: map<string, string>, ic: Icons, es: seq<Entry>, i: int, path: Path)
    requires 0 <= i < |es|
    ensures var cur := path + [es[i].key];
            Fill(m, ic, es[..i + 1], path)
            == FillBelow(Fill(m, ic, es[..i], path)[SlashKey(cur) := IconStatic(ic, SlashKey(cur), HasChildrenNode(es[i].value))], ic, es[i].value, cur)
  {
    assert es[..i + 1] == es[..i] + [es[i]];
    FillAppend(m, ic, es[..i], [es[i]], path);
    assert [es[i]][1..] == [];
  }

  /** The keys a walk stores. */
  function KeySet(l: seq<Path>): set<string>
  {
    set q | q in l :: SlashKey(q)
  }

  /** `after` holds the keys of `before` and `keys`, and agrees with
      `before` outside `keys`. */
  ghost predicate Framed(before: map<string, string>, after: map<string, string>, keys: set<string>)
  {
    && (forall x :: x in after <==> x in before || x in keys)
    && (forall x :: x in before && x !in keys ==> after[x] == before[x])
  }

  lemma FramedChain(m0: map<string, string>, m1: map<string, string>, m2: map<string, string>, m3: map<string, string>,
                    k0: set<string>, k1: set<string>, k2: set<string>)
    requires Framed(m0, m1, k0) && Framed(m1, m2, k1) && Framed(m2, m3, k2)
    ensures Framed(m0, m3, k0 + k1 + k2)
  {
  }

  lemma KeySetAppend(a: seq<Path>, b: seq<Path>)
    ensures KeySet(a + b) == KeySet(a) + KeySet(b)
  {
    assert forall q :: q in a + b <==> q in a || q in b;
  }

  lemma KeySetWalk(es: seq<Entry>, path: Path)
    requires es != []
    ensures var cur := path + [es[0].key];
            KeySet(Walk(es, path)) == {SlashKey(cur)} + KeySet(Below(es[0].value, cur)) + KeySet(Walk(es[1..], path))
  {
    var cur := path + [es[0].key];
    var below, tail := Below(es[0].value, cur), Walk(es[1..], path);
    assert Walk(es, path) == [cur] + below + tail;
    KeySetAppend([cur] + below, tail);
    KeySetAppend([cur], below);
    assert KeySet([cur]) == {SlashKey(cur)};
  }

  /** The walk stores exactly the keys of its nodes and leaves every other
      key as it was. */
  lemma {:induction false} FillFrame(m: map<string, string>, ic: Icons, es: seq<Entry>, path: Path)
    ensures forall x :: x in Fill(m, ic, es, path) <==> x in m || x in KeySet(Walk(es, path))
    ensures forall x :: x in m && x !in KeySet(Walk(es, path)) ==> Fill(m, ic, es, path)[x] == m[x]
    decreases es
  {
    if es != [] {
      var cur := path + [es[0].key];
      var v := es[0].value;
      var m1 := m[SlashKey(cur) := IconStatic(ic, SlashKey(cur), HasChildrenNode(v))];
      var m2 := FillBelow(m1, ic, v, cur);
      var m3 := Fill(m2, ic, es[1..], path);
      var k0, k1, k2 := {SlashKey(cur)}, KeySet(Below(v, cur)), KeySet(Walk(es[1..], path));
      assert Framed(m, m1, k0);
      assert Framed(m1, m2, k1) by {
        if v.Dict? {
          FillFrame(m1, ic, v.entries, cur);
        } else {
          assert Below(v, cur) == [];
        }
      }
      assert Framed(m2, m3, k2) by {
        FillFrame(m2, ic, es[1..], path);
      }
      FramedChain(m, m1, m2, m3, k0, k1, k2);
      KeySetWalk(es, path);
      assert Fill(m, ic, es, path) == m3;
    }
  }

  /** `SlashKey` tells the walk's nodes apart. */
  ghost predicate KeysApart(l: seq<Path>)
  {
    forall q, r :: q in l && r in l && SlashKey(q) == SlashKey(r) ==> q == r
  }

  /** The node below a dictionary's entries has children. */
  predicate KidsAt(es: seq<Entry>, rel: Path)
  {
    var a := At(Dict(es), rel);
    a.Some? && HasChildrenNode(a.value)
  }

  /** Every node's key holds the icon of that node, with its own children
      deciding folder or leaf. */
  lemma {:induction false} FillValue(m: map<string, string>, ic: Icons, es: seq<Entry>, path: Path, q: Path)
    requires WellFormed(Dict(es)) && KeysApart(Walk(es, path))
    requires q in Walk(es, path)
    ensures |q| > |path|
    ensures SlashKey(q) in Fill(m, ic, es, path)
    ensures Fill(m, ic, es, path)[SlashKey(q)] == IconStatic(ic, SlashKey(q), KidsAt(es, q[|path|..]))
    decreases es, 1
  {
    WalkExtends(es, path);
    var k0 := es[0].key;
    var cur := path + [k0];
    var v := es[0].value;
    if q == cur {
      FillValueHead(m, ic, es, path);
    } else if q in Below(v, cur) {
      FillValueBelow(m, ic, es, path, q);
    } else {
      FillValueTail(m, ic, es, path, q);
    }
  }

  /** What the first entry's subtree stores is not touched by its siblings. */
  lemma FillSiblingsKeep(m2: map<string, string>, ic: Icons, es: seq<Entry>, path: Path, q: Path)
    requires es != [] && UniqueKeys(es) && KeysApart(Walk(es, path))
    requires Extends(q, path) && q[|path|] == es[0].key && q in Walk(es, path)
    requires SlashKey(q) in m2
    ensures SlashKey(q) in Fill(m2, ic, es[1..], path) && Fill(m2, ic, es[1..], path)[SlashKey(q)] == m2[SlashKey(q)]
  {
    var tail := Walk(es[1..], path);
    var cur := path + [es[0].key];
    assert Walk(es, path) == [cur] + Below(es[0].value, cur) + tail;
    HeadKeyUnique(es);
    WalkExtends(es[1..], path);
    FillFrame(m2, ic, es[1..], path);
    forall r | r in tail
      ensures SlashKey(r) != SlashKey(q)
    {
      assert r[|path|] in Keys(es[1..]);
    }
  }

  /** The subtree below a node does not store under the node's own key. */
  lemma BelowKeepsOwnKey(m1: map<string, string>, ic: Icons, v: Node, cur: Path)
    requires SlashKey(cur) in m1
    requires forall r :: r in Below(v, cur) ==> SlashKey(r) != SlashKey(cur)
    ensures SlashKey(cur) in FillBelow(m1, ic, v, cur) && FillBelow(m1, ic, v, cur)[SlashKey(cur)] == m1[SlashKey(cur)]
  {
    if v.Dict? {
      FillFrame(m1, ic, v.entries, cur);
    }
  }

  lemma FillValueHead(m: map<string, string>, ic: Icons, es: seq<Entry>, path: Path)
    requires es != [] && WellFormed(Dict(es)) && KeysApart(Walk(es, path))
    ensures var q := path + [es[0].key];
            SlashKey(q) in Fill(m, ic, es, path)
            && Fill(m, ic, es, path)[SlashKey(q)] == IconStatic(ic, SlashKey(q), KidsAt(es, q[|path|..]))
  {
    var k0 := es[0].key;
    var cur := path + [k0];
    var v := es[0].value;
    var m1 := m[SlashKey(cur) := IconStatic(ic, SlashKey(cur), HasChildrenNode(v))];
    var m2 := FillBelow(m1, ic, v, cur);
    assert Fill(m, ic, es, path) == Fill(m2, ic, es[1..], path);
    assert Walk(es, path) == [cur] + Below(v, cur) + Walk(es[1..], path);
    forall r | r in Below(v, cur)
      ensures SlashKey(r) != SlashKey(cur)
    {
      WalkExtends(v.entries, cur);
      assert r != cur;
    }
    BelowKeepsOwnKey(m1, ic, v, cur);
    assert cur[..|path|] == path;
    FillSiblingsKeep(m2, ic, es, path, cur);
    assert Find(es, k0) == 0;
    assert cur[|path|..] == [k0];
    assert At(Dict(es), [k0]) == At(v, []);
  }

  lemma FillValueBelow(m: map<string, string>, ic: Icons, es: seq<Entry>, path: Path, q: Path)
    requires es != [] && WellFormed(Dict(es)) && KeysApart(Walk(es, path))
    requires q in Below(es[0].value, path + [es[0].key])
    ensures |q| > |path|
    ensures SlashKey(q) in Fill(m, ic, es, path)
    ensures Fill(m, ic, es, path)[SlashKey(q)] == IconStatic(ic, SlashKey(q), KidsAt(es, q[|path|..]))
    decreases es, 0
  {
    var k0 := es[0].key;
    var cur := path + [k0];
    var v := es[0].value;
    var m1 := m[SlashKey(cur) := IconStatic(ic, SlashKey(cur), HasChildrenNode(v))];
    var m2 := FillBelow(m1, ic, v, cur);
    assert Fill(m, ic, es, path) == Fill(m2, ic, es[1..], path);
    HeadApart(es, path);
    AtHead(es, path, q);
    FillValue(m1, ic, v.entries, cur, q);
    FillSiblingsKeep(m2, ic, es, path, q);
  }

  /** The value of the first entry keeps the shape the whole list has. */
  lemma HeadApart(es: seq<Entry>, path: Path)
    requires es != [] && WellFormed(Dict(es)) && KeysApart(Walk(es, path))
    ensures es[0].value.Dict? ==>
              WellFormed(Dict(es[0].value.entries)) && KeysApart(Walk(es[0].value.entries, path + [es[0].key]))
  {
    var cur := path + [es[0].key];
    assert Walk(es, path) == [cur] + Below(es[0].value, cur) + Walk(es[1..], path);
    assert WellFormed(es[0].value);
  }

  /** A path below the first entry reads the same from the whole list. */
  lemma AtHead(es: seq<Entry>, path: Path, q: Path)
    requires es != [] && WellFormed(Dict(es)) && q in Below(es[0].value, path + [es[0].key])
    ensures es[0].value.Dict? && |q| > |path| + 1
    ensures Extends(q, path) && q[|path|] == es[0].key && q in Walk(es, path)
    ensures At(Dict(es), q[|path|..]) == At(es[0].value, q[|path| + 1..])
  {
    var cur := path + [es[0].key];
    var v := es[0].value;
    assert Walk(es, path) == [cur] + Below(v, cur) + Walk(es[1..], path);
    WalkExtends(v.entries, cur);
    assert q[..|cur|] == cur;
    assert q[|path|] == q[..|cur|][|path|];
    assert q[..|path|] == q[..|cur|][..|path|];
    var s := q[|path|..];
    assert Find(es, es[0].key) == 0;
    assert q[|cur|..] == s[1..];
  }

  lemma FillValueTail(m: map<string, string>, ic: Icons, es: seq<Entry>, path: Path, q: Path)
    requires es != [] && WellFormed(Dict(es)) && KeysApart(Walk(es, path))
    requires q in Walk(es[1..], path)
    ensures |q| > |path|
    ensures SlashKey(q) in Fill(m, ic, es, path)
    ensures Fill(m, ic, es, path)[SlashKey(q)] == IconStatic(ic, SlashKey(q), KidsAt(es, q[|path|..]))
    decreases es, 0
  {
    var k0 := es[0].key;
    var cur := path + [k0];
    var v := es[0].value;
    var m1 := m[SlashKey(cur) := IconStatic(ic, SlashKey(cur), HasChildrenNode(v))];
    var m2 := FillBelow(m1, ic, v, cur);
    assert Fill(m, ic, es, path) == Fill(m2, ic, es[1..], path);
    TailApart(es, path);
    FillValue(m2, ic, es[1..], path, q);
    AtTail(es, path, q);
  }

  /** The siblings after the first entry keep the shape the whole list has. */
  lemma TailApart(es: seq<Entry>, path: Path)
    requires es != [] && WellFormed(Dict(es)) && KeysApart(Walk(es, path))
    ensures WellFormed(Dict(es[1..])) && KeysApart(Walk(es[1..], path))
  {
    var cur := path + [es[0].key];
    assert Walk(es, path) == [cur] + Below(es[0].value, cur) + Walk(es[1..], path);
  }

  /** A path under a later sibling reads the same from the whole list. */
  lemma AtTail(es: seq<Entry>, path: Path, q: Path)
    requires es != [] && WellFormed(Dict(es)) && q in Walk(es[1..], path)
    ensures |q| > |path| && At(Dict(es), q[|path|..]) == At(Dict(es[1..]), q[|path|..])
  {
    WalkExtends(es[1..], path);
    HeadKeyUnique(es);
    var s := q[|path|..];
    assert s[0] == q[|path|];
    assert s[0] != es[0].key;
    FindTail(es, s[0]);
  }

  /** `ICON_MAP`, filled by `precomputeIconMap`. */
  class IconMap {
    const ic: Icons
    var icons: map<string, string>

    constructor (ic: Icons)
      ensures this.ic == ic && icons == map[]
    {
      this.ic := ic;
      icons := map[];
    }

    /** `walk(node, base)` over the entries of a dictionary. */
    method Walk(es: seq<Entry>, base: string, ghost path: Path)
      requires base == SlashKey(path)
      modifies this
      ensures icons == Fill(old(icons), ic, es, path)
      decreases es
    {
      for i := 0 to |es|
        invariant icons == Fill(old(icons), ic, es[..i], path)
      {
        var k := es[i].key;
        var sub := es[i].value;
        var p := if base != "" then base + "/" + k else k;
        assert (path + [k])[..|path + [k]| - 1] == path;
        var icon := GetIconStatic(ic, p, HasChildrenNode(sub));
        FillStep(old(icons), ic, es, i, path);
        icons := icons[p := icon];
        if sub.Dict? {
          Walk(sub.entries, p, path + [k]);
        }
      }
      assert es[..|es|] == es;
    }

    method PrecomputeIconMap(taxonomy: Node)
      requires taxonomy.Dict?
      modifies this
      ensures icons == Fill(old(icons), ic, taxonomy.entries, [])
    {
      Walk(taxonomy.entries, "", []);
    }
  }

  // ---------------------------------------------------------------------------
  // One entry per node
  // ---------------------------------------------------------------------------

  /** No key of the tree is empty or holds '/'. */
  ghost predicate CleanKeys(n: Node)
    decreases n
  {
    n.Dict? ==> forall i :: 0 <= i < |n.entries| ==>
      n.entries[i].key != "" && '/' !in n.entries[i].key && CleanKeys(n.entries[i].value)
  }

  ghost predicate CleanPath(p: Path)
  {
    forall i :: 0 <= i < |p| ==> p[i] != "" && '/' !in p[i]
  }

  /** On clean paths the walk's key is the '/'-join of the segments. */
  lemma {:induction false} SlashKeyJoin(p: Path)
    requires |p| >= 1 && CleanPath(p)
    ensures SlashKey(p) == Join(p, '/')
    ensures SlashKey(p) != ""
    decreases |p|
  {
    var init := p[..|p| - 1];
    if |init| >= 1 {
      SlashKeyJoin(init);
      assert p == init + [p[|p| - 1]];
      JoinAppend(init, [p[|p| - 1]], '/');
    }
  }

  /** Distinct clean paths get distinct keys. */
  lemma SlashKeyInjective(p: Path, q: Path)
    requires |p| >= 1 && |q| >= 1 && CleanPath(p) && CleanPath(q)
    requires SlashKey(p) == SlashKey(q)
    ensures p == q
  {
    SlashKeyJoin(p);
    SlashKeyJoin(q);
    SplitJoin(p, '/');
    SplitJoin(q, '/');
  }

  lemma {:induction false} WalkClean(es: seq<Entry>, path: Path)
    requires CleanKeys(Dict(es)) && CleanPath(path)
    ensures forall q :: q in Walk(es, path) ==> CleanPath(q) && |q| >= 1
    decreases es
  {
    if es != [] {
      var cur := path + [es[0].key];
      var v := es[0].value;
      assert CleanPath(cur);
      if v.Dict? {
        WalkClean(v.entries, cur);
      }
      assert CleanKeys(Dict(es[1..])) by {
        assert forall i :: 0 <= i < |es[1..]| ==> es[1..][i] == es[i + 1];
      }
      WalkClean(es[1..], path);
    }
  }

  /** `precomputeIconMap` on a well-formed taxonomy with clean keys stores
      one entry for each node and nothing else, keyed by the node's
      '/'-joined path, holding that node's icon. */
  lemma IconMapSpec(ic: Icons, taxonomy: Node)
    requires taxonomy.Dict? && WellFormed(taxonomy) && CleanKeys(taxonomy)
    ensures forall x :: x in Fill(map[], ic, taxonomy.entries, []) <==> exists p :: HasPath(taxonomy, p) && x == Join(p, '/')
    ensures forall p :: HasPath(taxonomy, p) ==>
              Join(p, '/') in Fill(map[], ic, taxonomy.entries, [])
              && Fill(map[], ic, taxonomy.entries, [])[Join(p, '/')]
                 == IconStatic(ic, Join(p, '/'), HasChildrenNode(At(taxonomy, p).value))
  {
    var es := taxonomy.entries;
    var l := Walk(es, []);
    WalkClean(es, []);
    FillFrame(map[], ic, es, []);
    forall q | q in l
      ensures SlashKey(q) == Join(q, '/') && HasPath(taxonomy, q)
    {
      SlashKeyJoin(q);
      WalkHasPath(es, [], q);
      assert q[0..] == q;
    }
    forall q, r | q in l && r in l && SlashKey(q) == SlashKey(r)
      ensures q == r
    {
      SlashKeyInjective(q, r);
    }
    forall p | HasPath(taxonomy, p)
      ensures p in l
    {
      WalkHasPath(es, [], p);
      assert p[0..] == p;
    }
    forall p | HasPath(taxonomy, p)
      ensures Join(p, '/') in Fill(map[], ic, es, [])
      ensures Fill(map[], ic, es, [])[Join(p, '/')] == IconStatic(ic, Join(p, '/'), HasChildrenNode(At(taxonomy, p).value))
    {
      FillValue(map[], ic, es, [], p);
      assert p[0..] == p;
    }
  }
}

/**
  The fuzzy tool search of the sidebar (`app/js/search.js`): the search
  context built from the ids found (per-phase counts, the phases in the
  order first met and the distinct category paths grouped by phase), the
  tiered name / description score, the ordering of the results, and the
  guards of the search state.
*/
module Search {
  import opened Text
  import opened Base
  import opened Sorting
  import opened ScriptSearch

  // ---------------------------------------------------------------------------
  // First-seen deduplication (a `Set` or `Map` filled in order)
  // ---------------------------------------------------------------------------

  /** `set.add(x)` on a set kept as its insertion order. */
  function AddFirst<T(==)>(d: seq<T>, x: T): seq<T>
  {
    if x in d then d else d + [x]
  }

  /** The distinct elements of `xs` in the order they are first met. */
  function Firsts<T(==)>(xs: seq<T>): seq<T>
  {
    if xs == [] then [] else AddFirst(Firsts(xs[..|xs| - 1]), xs[|xs| - 1])
  }

  /** One more element: `Firsts` adds it when it is new. */
  lemma FirstsSnoc<T>(xs: seq<T>, x: T)
    ensures Firsts(xs + [x]) == AddFirst(Firsts(xs), x)
  {
    assert (xs + [x])[..|xs|] == xs;
  }

  /** `Firsts` holds the elements of `xs` and nothing else. */
  lemma {:induction false} FirstsMembers<T>(xs: seq<T>)
    ensures forall x :: x in Firsts(xs) <==> x in xs
  {
    if xs != [] {
      var init := xs[..|xs| - 1];
      FirstsMembers(init);
      assert xs == init + [xs[|xs| - 1]];
    }
  }

  /** `Firsts` holds every element once. */
  lemma {:induction false} FirstsDistinct<T>(xs: seq<T>)
    ensures Distinct(Firsts(xs))
  {
    if xs != [] {
      var init := xs[..|xs| - 1];
      FirstsDistinct(init);
      if xs[|xs| - 1] !in Firsts(init) {
        DistinctSnoc(Firsts(init), xs[|xs| - 1]);
      }
    }
  }

  // ---------------------------------------------------------------------------
  // buildSearchContext
  // ---------------------------------------------------------------------------

  /** `tool.category_path || []`, for an array or a falsy value. */
  function CategoryPathOf(t: Record): seq<string>
  {
    match Get(t, "category_path")
    case Arr(items) => items
    case _ => []
  }

  /** The id names a known tool with a non-empty category path. */
  predicate IsHit(tb: map<string, Record>, id: string)
  {
    id in tb && CategoryPathOf(tb[id]) != []
  }

  /** The phase (first segment) of a hit. */
  function PhaseOfHit(tb: map<string, Record>, id: string): string
    requires IsHit(tb, id)
  {
    CategoryPathOf(tb[id])[0]
  }

  /** The phases of the hits among `ids`, one per hit, in order. */
  function HitPhases(tb: map<string, Record>, ids: seq<string>): seq<string>
  {
    if ids == [] then []
    else
      var id := ids[|ids| - 1];
      HitPhases(tb, ids[..|ids| - 1]) + if IsHit(tb, id) then [PhaseOfHit(tb, id)] else []
  }

  /** The '/'-joined paths of the hits of phase `ph`, one per hit, in order. */
  function HitPaths(tb: map<string, Record>, ids: seq<string>, ph: string): seq<string>
  {
    if ids == [] then []
    else
      var id := ids[|ids| - 1];
      HitPaths(tb, ids[..|ids| - 1], ph) +
        if IsHit(tb, id) && PhaseOfHit(tb, id) == ph then [Join(CategoryPathOf(tb[id]), '/')] else []
  }

  /** The number of hits of phase `ph`, counted one step at a time. */
  function PhaseCount(tb: map<string, Record>, ids: seq<string>, ph: string): nat
  {
    if ids == [] then 0
    else
      var id := ids[|ids| - 1];
      PhaseCount(tb, ids[..|ids| - 1], ph) + if IsHit(tb, id) && PhaseOfHit(tb, id) == ph then 1 else 0
  }

  /** `pathSlash.split('/')` for every path of a set. */
  function SplitAll(ss: seq<string>): (r: seq<seq<string>>)
    ensures |r| == |ss|
    ensures forall i :: 0 <= i < |ss| ==> r[i] == Split(ss[i], '/')
  {
    if ss == [] then [] else SplitAll(ss[..|ss| - 1]) + [Split(ss[|ss| - 1], '/')]
  }

  /** The paths of the context: phase by phase, the distinct paths of that
      phase in the order first met. */
  function ContextPaths(tb: map<string, Record>, ids: seq<string>, keys: seq<string>): seq<seq<string>>
  {
    if keys == [] then []
    else
      ContextPaths(tb, ids, keys[..|keys| - 1]) + SplitAll(Firsts(HitPaths(tb, ids, keys[|keys| - 1])))
  }

  /** The detail of the `tm:search:context` event. */
  datatype SearchContext = SearchContext(hasQuery: bool, phaseKeys: seq<string>, paths: seq<seq<string>>,
                                         countsByPhase: map<string, int>, searchedQuery: string,
                                         foundToolIds: seq<string>)

  /** The phases met so far, in the order `phaseHits` received them. */
  ghost predicate KeysGathered(tb: map<string, Record>, ids: seq<string>, phaseKeys: seq<string>)
  {
    phaseKeys == Firsts(HitPhases(tb, ids))
  }

  /** `phaseHits` and `countsByPhase` have the phases met as their keys. */
  ghost predicate DomainsAgree(phaseKeys: seq<string>, phaseHits: map<string, seq<string>>, counts: map<string, int>)
  {
    (forall ph :: ph in phaseHits <==> ph in phaseKeys) &&
    (forall ph :: ph in counts <==> ph in phaseKeys)
  }

  /** Each phase's set of paths, in insertion order. */
  ghost predicate HitsGathered(tb: map<string, Record>, ids: seq<string>, phaseHits: map<string, seq<string>>)
  {
    forall ph :: ph in phaseHits ==> phaseHits[ph] == Firsts(HitPaths(tb, ids, ph))
  }

  ghost predicate CountsGathered(tb: map<string, Record>, ids: seq<string>, counts: map<string, int>)
  {
    forall ph :: ph in counts ==> counts[ph] == PhaseCount(tb, ids, ph)
  }

  /** The phase-keyed maps while the ids are walked. */
  ghost predicate Gathered(tb: map<string, Record>, ids: seq<string>, phaseKeys: seq<string>,
                           phaseHits: map<string, seq<string>>, counts: map<string, int>)
  {
    KeysGathered(tb, ids, phaseKeys) && DomainsAgree(phaseKeys, phaseHits, counts) &&
    HitsGathered(tb, ids, phaseHits) && CountsGathered(tb, ids, counts)
  }

  /** A phase has been met iff some hit has it. */
  lemma {:induction false} HitPhasesCount(tb: map<string, Record>, ids: seq<string>, ph: string)
    ensures ph in HitPhases(tb, ids) <==> PhaseCount(tb, ids, ph) > 0
    ensures ph !in HitPhases(tb, ids) ==> HitPaths(tb, ids, ph) == []
  {
    if ids != [] {
      HitPhasesCount(tb, ids[..|ids| - 1], ph);
    }
  }

  /** An id that is not a hit contributes nothing. */
  lemma HitStepMiss(tb: map<string, Record>, ids: seq<string>, i: int)
    requires 0 <= i < |ids| && !IsHit(tb, ids[i])
    ensures HitPhases(tb, ids[..i + 1]) == HitPhases(tb, ids[..i])
    ensures forall ph :: HitPaths(tb, ids[..i + 1], ph) == HitPaths(tb, ids[..i], ph)
    ensures forall ph :: PhaseCount(tb, ids[..i + 1], ph) == PhaseCount(tb, ids[..i], ph)
  {
    assert ids[..i + 1][..i] == ids[..i];
  }

  /** A hit contributes its phase, and its path and a count to its phase. */
  lemma HitStepHit(tb: map<string, Record>, ids: seq<string>, i: int, ph: string, s: string)
    requires 0 <= i < |ids| && IsHit(tb, ids[i])
    requires ph == PhaseOfHit(tb, ids[i]) && s == Join(CategoryPathOf(tb[ids[i]]), '/')
    ensures HitPhases(tb, ids[..i + 1]) == HitPhases(tb, ids[..i]) + [ph]
    ensures HitPaths(tb, ids[..i + 1], ph) == HitPaths(tb, ids[..i], ph) + [s]
    ensures PhaseCount(tb, ids[..i + 1], ph) == PhaseCount(tb, ids[..i], ph) + 1
    ensures forall q :: q != ph ==> HitPaths(tb, ids[..i + 1], q) == HitPaths(tb, ids[..i], q)
    ensures forall q :: q != ph ==> PhaseCount(tb, ids[..i + 1], q) == PhaseCount(tb, ids[..i], q)
  {
    assert ids[..i + 1][..i] == ids[..i];
  }

  /** An id that is not a hit changes nothing. */
  lemma GatherMiss(tb: map<string, Record>, ids: seq<string>, i: int, keys: seq<string>,
                   hits: map<string, seq<string>>, counts: map<string, int>)
    requires 0 <= i < |ids| && !IsHit(tb, ids[i])
    requires Gathered(tb, ids[..i], keys, hits, counts)
    ensures Gathered(tb, ids[..i + 1], keys, hits, counts)
  {
    HitStepMiss(tb, ids, i);
    assert KeysGathered(tb, ids[..i + 1], keys);
    assert HitsGathered(tb, ids[..i + 1], hits);
    assert CountsGathered(tb, ids[..i + 1], counts);
  }

  /** A hit of a phase not met yet has nothing gathered under that phase. */
  lemma NewPhase(tb: map<string, Record>, ids: seq<string>, keys: seq<string>, ph: string)
    requires KeysGathered(tb, ids, keys) && ph !in keys
    ensures ph !in HitPhases(tb, ids) && HitPaths(tb, ids, ph) == [] && PhaseCount(tb, ids, ph) == 0
  {
    FirstsMembers(HitPhases(tb, ids));
    HitPhasesCount(tb, ids, ph);
  }

  /** The phase list after a hit. */
  lemma KeysHit(tb: map<string, Record>, ids: seq<string>, i: int, keys: seq<string>, ph: string, s: string)
    requires 0 <= i < |ids| && IsHit(tb, ids[i])
    requires ph == PhaseOfHit(tb, ids[i]) && s == Join(CategoryPathOf(tb[ids[i]]), '/')
    requires KeysGathered(tb, ids[..i], keys)
    ensures KeysGathered(tb, ids[..i + 1], AddFirst(keys, ph))
  {
    HitStepHit(tb, ids, i, ph, s);
    FirstsSnoc(HitPhases(tb, ids[..i]), ph);
  }

  /** The path sets after a hit. */
  lemma HitsHit(tb: map<string, Record>, ids: seq<string>, i: int, keys: seq<string>,
                hits: map<string, seq<string>>, ph: string, s: string, old0: seq<string>)
    requires 0 <= i < |ids| && IsHit(tb, ids[i])
    requires ph == PhaseOfHit(tb, ids[i]) && s == Join(CategoryPathOf(tb[ids[i]]), '/')
    requires KeysGathered(tb, ids[..i], keys) && HitsGathered(tb, ids[..i], hits)
    requires forall q :: q in hits <==> q in keys
    requires old0 == if ph in hits then hits[ph] else []
    ensures HitsGathered(tb, ids[..i + 1], hits[ph := AddFirst(old0, s)])
  {
    var pre, post := ids[..i], ids[..i + 1];
    var h := hits[ph := AddFirst(old0, s)];
    HitStepHit(tb, ids, i, ph, s);
    forall q | q in h
      ensures h[q] == Firsts(HitPaths(tb, post, q))
    {
      if q == ph {
        if ph !in hits {
          NewPhase(tb, pre, keys, ph);
        }
        assert old0 == Firsts(HitPaths(tb, pre, ph));
        FirstsSnoc(HitPaths(tb, pre, ph), s);
      } else {
        assert h[q] == hits[q] == Firsts(HitPaths(tb, pre, q));
      }
    }
  }

  /** The counts after a hit. */
  lemma CountsHit(tb: map<string, Record>, ids: seq<string>, i: int, keys: seq<string>,
                  counts: map<string, int>, ph: string, s: string, c0: int)
    requires 0 <= i < |ids| && IsHit(tb, ids[i])
    requires ph == PhaseOfHit(tb, ids[i]) && s == Join(CategoryPathOf(tb[ids[i]]), '/')
    requires KeysGathered(tb, ids[..i], keys) && CountsGathered(tb, ids[..i], counts)
    requires forall q :: q in counts <==> q in keys
    requires c0 == if ph in counts then counts[ph] else 0
    ensures CountsGathered(tb, ids[..i + 1], counts[ph := c0 + 1])
  {
    HitStepHit(tb, ids, i, ph, s);
    if ph !in counts {
      NewPhase(tb, ids[..i], keys, ph);
    }
  }

  /** `phaseHits.set` (when new), `phaseHits.get(phase).add(pathSlash)` and
      `countsByPhase[phase] = (countsByPhase[phase] || 0) + 1`. */
  method AddHit(phaseKeys: seq<string>, phaseHits: map<string, seq<string>>, counts: map<string, int>,
                phase: string, pathSlash: string)
    returns (keys': seq<string>, hits': map<string, seq<string>>, counts': map<string, int>)
    requires DomainsAgree(phaseKeys, phaseHits, counts)
    ensures keys' == AddFirst(phaseKeys, phase)
    ensures hits' == phaseHits[phase := AddFirst(if phase in phaseHits then phaseHits[phase] else [], pathSlash)]
    ensures counts' == counts[phase := (if phase in counts then counts[phase] else 0) + 1]
    ensures DomainsAgree(keys', hits', counts')
  {
    keys', hits' := phaseKeys, phaseHits;
    if phase !in hits' {
      hits' := hits'[phase := []];
      keys' := keys' + [phase];
    }
    hits' := hits'[phase := AddFirst(hits'[phase], pathSlash)];
    counts' := counts[phase := (if phase in counts then counts[phase] else 0) + 1];
  }

  /** The first loop of `buildSearchContext`, one id at a time. */
  method Gather(tb: map<string, Record>, ids: seq<string>)
    returns (phaseKeys: seq<string>, phaseHits: map<string, seq<string>>, counts: map<string, int>)
    ensures Gathered(tb, ids, phaseKeys, phaseHits, counts)
  {
    phaseKeys, phaseHits, counts := [], map[], map[];
    for i := 0 to |ids|
      invariant KeysGathered(tb, ids[..i], phaseKeys) && DomainsAgree(phaseKeys, phaseHits, counts)
      invariant HitsGathered(tb, ids[..i], phaseHits) && CountsGathered(tb, ids[..i], counts)
    {
      var toolId := ids[i];
      if toolId in tb && |CategoryPathOf(tb[toolId])| > 0 {
        var categoryPath := CategoryPathOf(tb[toolId]);
        var phase := categoryPath[0];
        var pathSlash := Join(categoryPath, '/');
        KeysHit(tb, ids, i, phaseKeys, phase, pathSlash);
        HitsHit(tb, ids, i, phaseKeys, phaseHits, phase, pathSlash,
                if phase in phaseHits then phaseHits[phase] else []);
        CountsHit(tb, ids, i, phaseKeys, counts, phase, pathSlash, if phase in counts then counts[phase] else 0);
        phaseKeys, phaseHits, counts := AddHit(phaseKeys, phaseHits, counts, phase, pathSlash);
      } else {
        GatherMiss(tb, ids, i, phaseKeys, phaseHits, counts);
      }
    }
    assert ids[..|ids|] == ids;
  }

  /** `pathSet.forEach(p => paths.push(p.split('/')))`. */
  method PushGroup(paths: seq<seq<string>>, pathSet: seq<string>) returns (r: seq<seq<string>>)
    ensures r == paths + SplitAll(pathSet)
  {
    r := paths;
    for j := 0 to |pathSet|
      invariant r == paths + SplitAll(pathSet[..j])
    {
      assert pathSet[..j + 1][..j] == pathSet[..j];
      r := r + [Split(pathSet[j], '/')];
    }
    assert pathSet[..|pathSet|] == pathSet;
  }

  lemma ContextPathsStep(tb: map<string, Record>, ids: seq<string>, keys: seq<string>, k: int)
    requires 0 <= k < |keys|
    ensures ContextPaths(tb, ids, keys[..k + 1]) ==
            ContextPaths(tb, ids, keys[..k]) + SplitAll(Firsts(HitPaths(tb, ids, keys[k])))
  {
    assert keys[..k + 1][..k] == keys[..k];
  }

  /** `buildSearchContext(toolIds, query)`. */
  method BuildSearchContext(tb: map<string, Record>, toolIds: seq<string>, query: string)
    returns (ctx: SearchContext)
    ensures ctx.hasQuery && ctx.searchedQuery == query && ctx.foundToolIds == toolIds
    ensures ctx.phaseKeys == Firsts(HitPhases(tb, toolIds))
    ensures forall ph :: ph in ctx.countsByPhase <==> ph in ctx.phaseKeys
    ensures forall ph :: ph in ctx.countsByPhase ==> ctx.countsByPhase[ph] == PhaseCount(tb, toolIds, ph)
    ensures ctx.paths == ContextPaths(tb, toolIds, ctx.phaseKeys)
  {
    var phaseKeys, phaseHits, countsByPhase := Gather(tb, toolIds);
    var paths := CollectPaths(tb, toolIds, phaseKeys, phaseHits);
    ctx := SearchContext(true, phaseKeys, paths, countsByPhase, query, toolIds);
  }

  /** The loop of `buildSearchContext` over the phases met, pushing the split
      paths of each. */
  method CollectPaths(tb: map<string, Record>, toolIds: seq<string>, phaseKeys: seq<string>,
                      phaseHits: map<string, seq<string>>) returns (paths: seq<seq<string>>)
    requires forall k :: 0 <= k < |phaseKeys| ==> phaseKeys[k] in phaseHits
    requires HitsGathered(tb, toolIds, phaseHits)
    ensures paths == ContextPaths(tb, toolIds, phaseKeys)
  {
    paths := [];
    for k := 0 to |phaseKeys|
      invariant paths == ContextPaths(tb, toolIds, phaseKeys[..k])
    {
      ContextPathsStep(tb, toolIds, phaseKeys, k);
      paths := PushGroup(paths, phaseHits[phaseKeys[k]]);
    }
    assert phaseKeys[..|phaseKeys|] == phaseKeys;
  }

  // ---------------------------------------------------------------------------
  // What the context means
  // ---------------------------------------------------------------------------

  /** The `i`th id is a hit of phase `ph`. */
  ghost predicate HitIn(tb: map<string, Record>, ids: seq<string>, i: int, ph: string)
  {
    0 <= i < |ids| && IsHit(tb, ids[i]) && PhaseOfHit(tb, ids[i]) == ph
  }

  lemma HitInPrefix(tb: map<string, Record>, ids: seq<string>, n: int, i: int, ph: string)
    requires 0 <= i < n <= |ids|
    ensures HitIn(tb, ids[..n], i, ph) == HitIn(tb, ids, i, ph)
  {
    assert ids[..n][i] == ids[i];
  }

  /** The positions of the hits of phase `ph`. */
  ghost function HitPositions(tb: map<string, Record>, ids: seq<string>, ph: string): set<int>
  {
    set i | 0 <= i < |ids| && HitIn(tb, ids, i, ph)
  }

  lemma HitPositionsSnoc(tb: map<string, Record>, ids: seq<string>, ph: string)
    requires ids != []
    ensures HitPositions(tb, ids, ph) ==
            HitPositions(tb, ids[..|ids| - 1], ph) + if HitIn(tb, ids, |ids| - 1, ph) then {|ids| - 1} else {}
  {
    var n := |ids| - 1;
    forall i | 0 <= i < n
      ensures HitIn(tb, ids[..n], i, ph) == HitIn(tb, ids, i, ph)
    {
      HitInPrefix(tb, ids, n, i, ph);
    }
  }

  /** `countsByPhase[ph]` is the number of input ids (with repetitions) that
      name a known tool with a non-empty path in phase `ph`. */
  lemma {:induction false} PhaseCountSpec(tb: map<string, Record>, ids: seq<string>, ph: string)
    ensures PhaseCount(tb, ids, ph) == |HitPositions(tb, ids, ph)|
  {
    if ids != [] {
      var n := |ids| - 1;
      PhaseCountSpec(tb, ids[..n], ph);
      HitPositionsSnoc(tb, ids, ph);
      assert n !in HitPositions(tb, ids[..n], ph);
    }
  }

  /** A phase has been met iff some hit has it. */
  lemma {:induction false} HitPhasesFrom(tb: map<string, Record>, ids: seq<string>, ph: string)
    ensures ph in HitPhases(tb, ids) <==> exists i :: HitIn(tb, ids, i, ph)
  {
    if ids != [] {
      var n := |ids| - 1;
      var init := ids[..n];
      HitPhasesFrom(tb, init, ph);
      if ph in HitPhases(tb, init) {
        var i :| HitIn(tb, init, i, ph);
        HitInPrefix(tb, ids, n, i, ph);
      } else if ph in HitPhases(tb, ids) {
        assert HitIn(tb, ids, n, ph);
      }
      if exists i :: HitIn(tb, ids, i, ph) {
        var i :| HitIn(tb, ids, i, ph);
        if i < n {
          HitInPrefix(tb, ids, n, i, ph);
        }
      }
    }
  }

  /** The phases of a prefix of the ids come first among the phases. */
  lemma {:induction false} HitPhasesPrefix(tb: map<string, Record>, ids: seq<string>, j: int)
    requires 0 <= j <= |ids|
    ensures HitPhases(tb, ids[..j]) <= HitPhases(tb, ids)
    decreases |ids|
  {
    if j < |ids| {
      var n := |ids| - 1;
      assert ids[..n][..j] == ids[..j];
      HitPhasesPrefix(tb, ids[..n], j);
    } else {
      assert ids[..j] == ids;
    }
  }

  /** `Firsts` of a prefix is a prefix of `Firsts`. */
  lemma {:induction false} FirstsPrefix<T>(xs: seq<T>, m: int)
    requires 0 <= m <= |xs|
    ensures Firsts(xs[..m]) <= Firsts(xs)
    decreases |xs|
  {
    if m < |xs| {
      var n := |xs| - 1;
      assert xs[..n][..m] == xs[..m];
      FirstsPrefix(xs[..n], m);
    } else {
      assert xs[..m] == xs;
    }
  }

  /** The phases of the context are distinct and are exactly the phases of
      the hits; and they come in first-seen order: the phases of the hits
      among the first `j` ids are the first entries of the list. */
  lemma PhaseKeysSpec(tb: map<string, Record>, ids: seq<string>)
    ensures var keys := Firsts(HitPhases(tb, ids));
      && Distinct(keys)
      && (forall ph :: ph in keys <==> exists i :: HitIn(tb, ids, i, ph))
      && (forall j :: 0 <= j <= |ids| ==> Firsts(HitPhases(tb, ids[..j])) <= keys)
  {
    var hp := HitPhases(tb, ids);
    FirstsDistinct(hp);
    FirstsMembers(hp);
    forall ph
      ensures ph in hp <==> exists i :: HitIn(tb, ids, i, ph)
    {
      HitPhasesFrom(tb, ids, ph);
    }
    forall j | 0 <= j <= |ids|
      ensures Firsts(HitPhases(tb, ids[..j])) <= Firsts(hp)
    {
      HitPhasesPrefix(tb, ids, j);
      var m := |HitPhases(tb, ids[..j])|;
      assert hp[..m] == HitPhases(tb, ids[..j]);
      FirstsPrefix(hp, m);
    }
  }

  /** No segment of a known tool's path holds '/'. */
  ghost predicate SlashFree(tb: map<string, Record>)
  {
    forall id :: id in tb ==> NoSep(CategoryPathOf(tb[id]), '/')
  }

  /** The `i`th id is a hit of phase `ph` with joined path `s`. */
  ghost predicate HitWithPath(tb: map<string, Record>, ids: seq<string>, i: int, ph: string, s: string)
  {
    HitIn(tb, ids, i, ph) && Join(CategoryPathOf(tb[ids[i]]), '/') == s
  }

  lemma HitPathsLast(tb: map<string, Record>, ids: seq<string>, ph: string)
    requires ids != []
    ensures var n := |ids| - 1;
      HitPaths(tb, ids, ph) ==
      HitPaths(tb, ids[..n], ph) + if HitIn(tb, ids, n, ph) then [Join(CategoryPathOf(tb[ids[n]]), '/')] else []
  {
  }

  /** Each joined path listed for `ph` is that of a hit of phase `ph`. */
  lemma {:induction false} HitPathsSound(tb: map<string, Record>, ids: seq<string>, ph: string, s: string)
    requires s in HitPaths(tb, ids, ph)
    ensures exists i :: HitWithPath(tb, ids, i, ph, s)
  {
    var n := |ids| - 1;
    var init := ids[..n];
    HitPathsLast(tb, ids, ph);
    if s in HitPaths(tb, init, ph) {
      HitPathsSound(tb, init, ph, s);
      var i :| HitWithPath(tb, init, i, ph, s);
      HitInPrefix(tb, ids, n, i, ph);
      assert HitWithPath(tb, ids, i, ph, s);
    } else {
      assert HitWithPath(tb, ids, n, ph, s);
    }
  }

  /** The joined path of every hit of phase `ph` is listed for `ph`. */
  lemma {:induction false} HitPathsComplete(tb: map<string, Record>, ids: seq<string>, ph: string, i: int, s: string)
    requires HitWithPath(tb, ids, i, ph, s)
    ensures s in HitPaths(tb, ids, ph)
  {
    var n := |ids| - 1;
    var init := ids[..n];
    HitPathsLast(tb, ids, ph);
    if i < n {
      HitInPrefix(tb, ids, n, i, ph);
      assert HitWithPath(tb, init, i, ph, s);
      HitPathsComplete(tb, init, ph, i, s);
    }
  }

  /** A joined path of phase `ph` comes from a hit of that phase. */
  lemma {:induction false} HitPathsFrom(tb: map<string, Record>, ids: seq<string>, ph: string, s: string)
    ensures s in HitPaths(tb, ids, ph) <==> exists i :: HitWithPath(tb, ids, i, ph, s)
  {
    if s in HitPaths(tb, ids, ph) {
      HitPathsSound(tb, ids, ph, s);
    }
    if exists i :: HitWithPath(tb, ids, i, ph, s) {
      var i :| HitWithPath(tb, ids, i, ph, s);
      HitPathsComplete(tb, ids, ph, i, s);
    }
  }

  /** Splitting a joined hit path gives the path back. */
  lemma HitRoundTrip(tb: map<string, Record>, id: string)
    requires SlashFree(tb) && IsHit(tb, id)
    ensures Split(Join(CategoryPathOf(tb[id]), '/'), '/') == CategoryPathOf(tb[id])
  {
    SplitJoin(CategoryPathOf(tb[id]), '/');
  }

  /** The paths of one phase group are distinct. */
  lemma GroupDistinct(tb: map<string, Record>, ids: seq<string>, ph: string)
    ensures Distinct(SplitAll(Firsts(HitPaths(tb, ids, ph))))
  {
    var f := Firsts(HitPaths(tb, ids, ph));
    var g := SplitAll(f);
    FirstsDistinct(HitPaths(tb, ids, ph));
    forall a, b | 0 <= a < b < |g|
      ensures g[a] != g[b]
    {
      JoinSplit(f[a], '/');
      JoinSplit(f[b], '/');
    }
  }

  /** One phase group of the context holds the paths of that phase's hits. */
  lemma GroupMember(tb: map<string, Record>, ids: seq<string>, ph: string, p: seq<string>)
    requires SlashFree(tb)
    ensures p in SplitAll(Firsts(HitPaths(tb, ids, ph))) <==>
            exists i :: HitIn(tb, ids, i, ph) && CategoryPathOf(tb[ids[i]]) == p
  {
    var f := Firsts(HitPaths(tb, ids, ph));
    var g := SplitAll(f);
    FirstsMembers(HitPaths(tb, ids, ph));
    if p in g {
      var a :| 0 <= a < |g| && g[a] == p;
      HitPathsFrom(tb, ids, ph, f[a]);
      var i :| HitWithPath(tb, ids, i, ph, f[a]);
      HitRoundTrip(tb, ids[i]);
    }
    if exists i :: HitIn(tb, ids, i, ph) && CategoryPathOf(tb[ids[i]]) == p {
      var i :| HitIn(tb, ids, i, ph) && CategoryPathOf(tb[ids[i]]) == p;
      var s := Join(p, '/');
      assert HitWithPath(tb, ids, i, ph, s);
      HitPathsFrom(tb, ids, ph, s);
      var a :| 0 <= a < |f| && f[a] == s;
      HitRoundTrip(tb, ids[i]);
      assert g[a] == p;
    }
  }

  /** Every path of the context starts with one of the phases it was built
      for. */
  lemma {:induction false} ContextPathsPhase(tb: map<string, Record>, ids: seq<string>, keys: seq<string>, p: seq<string>)
    requires SlashFree(tb) && p in ContextPaths(tb, ids, keys)
    ensures p != [] && p[0] in keys
  {
    var init, ph := keys[..|keys| - 1], keys[|keys| - 1];
    if p in ContextPaths(tb, ids, init) {
      ContextPathsPhase(tb, ids, init, p);
    } else {
      GroupMember(tb, ids, ph, p);
      var i :| HitIn(tb, ids, i, ph) && CategoryPathOf(tb[ids[i]]) == p;
    }
  }

  /** Every path of a phase group starts with that phase. */
  lemma GroupPhase(tb: map<string, Record>, ids: seq<string>, ph: string, p: seq<string>)
    requires SlashFree(tb)
    ensures p in SplitAll(Firsts(HitPaths(tb, ids, ph))) ==> p != [] && p[0] == ph
  {
    GroupMember(tb, ids, ph, p);
  }

  /** Two distinct sequences with no element in common concatenate to a
      distinct one. */
  lemma DistinctAppend<T>(a: seq<T>, b: seq<T>)
    requires Distinct(a) && Distinct(b)
    requires forall x :: x in a ==> x !in b
    ensures Distinct(a + b)
  {
    forall i, j | 0 <= i < j < |a + b|
      ensures (a + b)[i] != (a + b)[j]
    {
      if j < |a| {
        assert (a + b)[i] == a[i] && (a + b)[j] == a[j];
      } else if i < |a| {
        assert (a + b)[i] == a[i] && (a + b)[j] == b[j - |a|];
        assert a[i] in a;
      } else {
        assert (a + b)[i] == b[i - |a|] && (a + b)[j] == b[j - |a|];
      }
    }
  }

  /** No path appears twice in the context when the phases are distinct. */
  lemma {:induction false} ContextPathsDistinct(tb: map<string, Record>, ids: seq<string>, keys: seq<string>)
    requires SlashFree(tb) && Distinct(keys)
    ensures Distinct(ContextPaths(tb, ids, keys))
  {
    if keys != [] {
      var init, ph := keys[..|keys| - 1], keys[|keys| - 1];
      var ps0, g := ContextPaths(tb, ids, init), SplitAll(Firsts(HitPaths(tb, ids, ph)));
      ContextPathsDistinct(tb, ids, init);
      GroupDistinct(tb, ids, ph);
      assert ph !in init;
      forall x | x in ps0
        ensures x !in g
      {
        ContextPathsPhase(tb, ids, init, x);
        GroupPhase(tb, ids, ph, x);
      }
      DistinctAppend(ps0, g);
    }
  }

  /** The `i`th id is a hit whose phase is one of `keys`. */
  ghost predicate HitAmong(tb: map<string, Record>, ids: seq<string>, i: int, keys: seq<string>)
  {
    0 <= i < |ids| && IsHit(tb, ids[i]) && PhaseOfHit(tb, ids[i]) in keys
  }

  /** The context holds exactly the paths of the hits whose phase it was
      built for. */
  lemma {:induction false} ContextPathsMember(tb: map<string, Record>, ids: seq<string>, keys: seq<string>, p: seq<string>)
    requires SlashFree(tb)
    ensures p in ContextPaths(tb, ids, keys) <==> exists i :: HitAmong(tb, ids, i, keys) && CategoryPathOf(tb[ids[i]]) == p
  {
    if keys != [] {
      var init, ph := keys[..|keys| - 1], keys[|keys| - 1];
      ContextPathsMember(tb, ids, init, p);
      GroupMember(tb, ids, ph, p);
      if p in ContextPaths(tb, ids, init) {
        var i :| HitAmong(tb, ids, i, init) && CategoryPathOf(tb[ids[i]]) == p;
        assert HitAmong(tb, ids, i, keys);
      } else if p in ContextPaths(tb, ids, keys) {
        var i :| HitIn(tb, ids, i, ph) && CategoryPathOf(tb[ids[i]]) == p;
        assert HitAmong(tb, ids, i, keys);
      }
      if exists i :: HitAmong(tb, ids, i, keys) && CategoryPathOf(tb[ids[i]]) == p {
        var i :| HitAmong(tb, ids, i, keys) && CategoryPathOf(tb[ids[i]]) == p;
        if PhaseOfHit(tb, ids[i]) == ph {
          assert HitIn(tb, ids, i, ph);
        } else {
          assert HitAmong(tb, ids, i, init);
        }
      }
    }
  }

  /** The paths of the context built from `ids`: every distinct non-empty
      category path of a known tool among the ids, exactly once. */
  lemma SearchPathsSpec(tb: map<string, Record>, ids: seq<string>)
    requires SlashFree(tb)
    ensures var ps := ContextPaths(tb, ids, Firsts(HitPhases(tb, ids)));
      && Distinct(ps)
      && (forall p :: p in ps <==> exists i :: 0 <= i < |ids| && IsHit(tb, ids[i]) && CategoryPathOf(tb[ids[i]]) == p)
  {
    var keys := Firsts(HitPhases(tb, ids));
    PhaseKeysSpec(tb, ids);
    ContextPathsDistinct(tb, ids, keys);
    forall p
      ensures p in ContextPaths(tb, ids, keys) <==>
              exists i :: 0 <= i < |ids| && IsHit(tb, ids[i]) && CategoryPathOf(tb[ids[i]]) == p
    {
      ContextPathsMember(tb, ids, keys, p);
      if exists i :: 0 <= i < |ids| && IsHit(tb, ids[i]) && CategoryPathOf(tb[ids[i]]) == p {
        var i :| 0 <= i < |ids| && IsHit(tb, ids[i]) && CategoryPathOf(tb[ids[i]]) == p;
        assert HitIn(tb, ids, i, PhaseOfHit(tb, ids[i]));
        assert HitAmong(tb, ids, i, keys);
      }
    }
  }

  // ---------------------------------------------------------------------------
  // The fuzzy score
  // ---------------------------------------------------------------------------

  /** `query.toLowerCase().split(/\s+/).filter(Boolean)`. */
  function Terms(query: string): seq<string>
  {
    Words(Lower(query))
  }

  /** `(tool.desc || tool.description || '').toLowerCase()`. */
  function DescOf(t: Record): string
  {
    Lower(StrOrEmpty(Or(Get(t, "desc"), Get(t, "description"))))
  }

  predicate AllIn(terms: seq<string>, s: string)
  {
    forall i :: 0 <= i < |terms| ==> Contains(s, terms[i])
  }

  predicate AllEither(terms: seq<string>, name: string, desc: string)
  {
    forall i :: 0 <= i < |terms| ==> Contains(name, terms[i]) || Contains(desc, terms[i])
  }

  /** The number of terms found in the name. */
  function NameHits(terms: seq<string>, name: string): (k: nat)
    ensures k <= |terms|
  {
    if terms == [] then 0
    else NameHits(terms[..|terms| - 1], name) + if Contains(name, terms[|terms| - 1]) then 1 else 0
  }

  /** `searchTerms[0]`, which `startsWith` reads as "undefined" when there
      are no terms. */
  function FirstTerm(terms: seq<string>): string
  {
    if terms == [] then "undefined" else terms[0]
  }

  /** The score table of `performFuzzySearch`. */
  function FuzzyScore(terms: seq<string>, name: string, desc: string): int
  {
    if AllIn(terms, name) then 20 + (if StartsWith(name, FirstTerm(terms)) then 10 else 0)
    else if AllIn(terms, desc) then 10
    else if AllEither(terms, name, desc) then 5 + 2 * NameHits(terms, name)
    else 0
  }

  /** The scoring of one tool: the three `every` tests, then the `+= 2` per
      term of the name. */
  method ScoreTool(terms: seq<string>, name: string, desc: string) returns (score: int)
    ensures score == FuzzyScore(terms, name, desc)
  {
    var nameMatch := AllIn(terms, name);
    var descMatch := AllIn(terms, desc);
    var combinedMatch := AllEither(terms, name, desc);
    score := 0;
    if nameMatch {
      score := 20;
      if StartsWith(name, FirstTerm(terms)) {
        score := score + 10;
      }
    } else if descMatch {
      score := 10;
    } else if combinedMatch {
      score := 5;
      for i := 0 to |terms|
        invariant score == 5 + 2 * NameHits(terms[..i], name)
      {
        assert terms[..i + 1][..i] == terms[..i];
        if Contains(name, terms[i]) {
          score := score + 2;
        }
      }
      assert terms[..|terms|] == terms;
    }
  }

  /** All terms are in the name iff each of them counts. */
  lemma {:induction false} NameHitsAll(terms: seq<string>, name: string)
    ensures NameHits(terms, name) == |terms| <==> AllIn(terms, name)
    ensures NameHits(terms, name) == 0 <==> forall i :: 0 <= i < |terms| ==> !Contains(name, terms[i])
  {
    if terms != [] {
      var init := terms[..|terms| - 1];
      NameHitsAll(init, name);
      assert forall i :: 0 <= i < |init| ==> init[i] == terms[i];
    }
  }

  /** A tool is a result (score > 0) iff every term is in its name or its
      description; and the tiers: a full name match scores 20 or 30, a full
      description match 10, a mixed match 5 plus 2 for each of the between
      1 and n - 1 terms found in the name. */
  lemma FuzzyScoreSpec(terms: seq<string>, name: string, desc: string)
    ensures FuzzyScore(terms, name, desc) > 0 <==> AllEither(terms, name, desc)
    ensures AllIn(terms, name) ==> FuzzyScore(terms, name, desc) in {20, 30}
    ensures !AllIn(terms, name) && AllIn(terms, desc) ==> FuzzyScore(terms, name, desc) == 10
    ensures !AllIn(terms, name) && !AllIn(terms, desc) && AllEither(terms, name, desc) ==>
              var k := NameHits(terms, name);
              1 <= k < |terms| && FuzzyScore(terms, name, desc) == 5 + 2 * k
  {
    NameHitsAll(terms, name);
    if !AllIn(terms, name) && !AllIn(terms, desc) && AllEither(terms, name, desc) {
      var i :| 0 <= i < |terms| && !Contains(desc, terms[i]);
      assert Contains(name, terms[i]);
    }
  }

  /** A one-character term is in a string iff that character is. */
  lemma {:induction false} ContainsChar(s: string, c: char)
    ensures Contains(s, [c]) <==> c in s
    decreases |s|
  {
    if s != [] {
      ContainsChar(s[1..], c);
      assert s == [s[0]] + s[1..];
    }
  }

  /** The tiers overlap: four terms, three in the name and the last only in
      the description, score 11, above a full description match (10). */
  lemma MixedAboveDescription()
    ensures FuzzyScore(["a", "b", "c", "d"], "abc", "d") == 11
  {
    var terms := ["a", "b", "c", "d"];
    ContainsChar("abc", 'a');
    ContainsChar("abc", 'b');
    ContainsChar("abc", 'c');
    ContainsChar("abc", 'd');
    ContainsChar("d", 'a');
    ContainsChar("d", 'd');
    assert NameHits(["a"], "abc") == 1 by {
      assert ["a"][..0] == [];
    }
    assert NameHits(["a", "b"], "abc") == 2 by {
      assert ["a", "b"][..1] == ["a"];
    }
    assert NameHits(["a", "b", "c"], "abc") == 3 by {
      assert ["a", "b", "c"][..2] == ["a", "b"];
    }
    assert NameHits(terms, "abc") == 3 by {
      assert terms[..3] == ["a", "b", "c"];
    }
    assert !AllIn(terms, "abc") by {
      assert !Contains("abc", terms[3]);
    }
    assert !AllIn(terms, "d") by {
      assert !Contains("d", terms[0]);
    }
  }

  // ---------------------------------------------------------------------------
  // performFuzzySearch
  // ---------------------------------------------------------------------------

  /** `{tool, score}`. */
  datatype Scored = Scored(tool: Record, score: int)

  /** The score of the tool under `key`, its name being the key lower-cased. */
  function ScoreOf(terms: seq<string>, tb: map<string, Record>, key: string): int
    requires key in tb
  {
    FuzzyScore(terms, Lower(key), DescOf(tb[key]))
  }

  /** Every key of the scan is a key of the map. */
  predicate Keys(tb: map<string, Record>, order: seq<string>)
  {
    forall i :: 0 <= i < |order| ==> order[i] in tb
  }

  /** The results before sorting: the scored tools with score > 0, in the
      object's key order. */
  function Candidates(terms: seq<string>, tb: map<string, Record>, order: seq<string>): seq<Scored>
    requires Keys(tb, order)
  {
    if order == [] then []
    else
      var key := order[|order| - 1];
      var score := ScoreOf(terms, tb, key);
      Candidates(terms, tb, order[..|order| - 1]) + if score > 0 then [Scored(tb[key], score)] else []
  }

  /** `(a, b) => b.score - a.score`, as "a goes no later than b". */
  function ScoreOrder(): (Scored, Scored) -> bool
  {
    (a: Scored, b: Scored) => a.score >= b.score
  }

  /** `r.tool.id`, used as a key of `toolsById`. */
  function ResultId(r: Scored): string
  {
    ToStr(Get(r.tool, "id"))
  }

  function ResultIds(rs: seq<Scored>): (ids: seq<string>)
    ensures |ids| == |rs|
    ensures forall i :: 0 <= i < |rs| ==> ids[i] == ResultId(rs[i])
  {
    if rs == [] then [] else ResultIds(rs[..|rs| - 1]) + [ResultId(rs[|rs| - 1])]
  }

  /** The scan over `Object.entries(toolsById)`. */
  method ScoreAll(terms: seq<string>, tb: map<string, Record>, order: seq<string>) returns (results: seq<Scored>)
    requires Keys(tb, order)
    ensures results == Candidates(terms, tb, order)
  {
    results := [];
    for i := 0 to |order|
      invariant results == Candidates(terms, tb, order[..i])
    {
      assert order[..i + 1][..i] == order[..i];
      var toolId := order[i];
      var tool := tb[toolId];
      var score := ScoreTool(terms, Lower(toolId), DescOf(tool));
      if score > 0 {
        results := results + [Scored(tool, score)];
      }
    }
    assert order[..|order|] == order;
  }

  /** The scored tool of the `i`th key. */
  ghost predicate ScoredAt(terms: seq<string>, tb: map<string, Record>, order: seq<string>, i: int, r: Scored)
  {
    0 <= i < |order| && order[i] in tb && r == Scored(tb[order[i]], ScoreOf(terms, tb, order[i]))
  }

  lemma CandidatesSnoc(terms: seq<string>, tb: map<string, Record>, order: seq<string>)
    requires Keys(tb, order) && order != []
    ensures Keys(tb, order[..|order| - 1])
    ensures var n := |order| - 1;
      Candidates(terms, tb, order) ==
      Candidates(terms, tb, order[..n]) +
        if ScoreOf(terms, tb, order[n]) > 0 then [Scored(tb[order[n]], ScoreOf(terms, tb, order[n]))] else []
  {
  }

  lemma ScoredAtPrefix(terms: seq<string>, tb: map<string, Record>, order: seq<string>, n: int, i: int, r: Scored)
    requires 0 <= i < n <= |order|
    ensures ScoredAt(terms, tb, order[..n], i, r) == ScoredAt(terms, tb, order, i, r)
  {
    assert order[..n][i] == order[i];
  }

  /** Every candidate has a positive score and is the scored tool of one of
      the keys. */
  lemma {:induction false} CandidatesSound(terms: seq<string>, tb: map<string, Record>, order: seq<string>)
    requires Keys(tb, order)
    ensures forall r :: r in Candidates(terms, tb, order) ==> r.score > 0 && exists i :: ScoredAt(terms, tb, order, i, r)
  {
    if order != [] {
      var n := |order| - 1;
      var init := order[..n];
      CandidatesSnoc(terms, tb, order);
      CandidatesSound(terms, tb, init);
      forall r | r in Candidates(terms, tb, order)
        ensures r.score > 0 && exists i :: ScoredAt(terms, tb, order, i, r)
      {
        if r in Candidates(terms, tb, init) {
          var i :| ScoredAt(terms, tb, init, i, r);
          ScoredAtPrefix(terms, tb, order, n, i, r);
        } else {
          assert ScoredAt(terms, tb, order, n, r);
        }
      }
    }
  }

  /** When `order` is `Object.keys(toolsById)`: every tool whose terms all
      occur in its name or description is a candidate, and every candidate
      is a tool with a positive score. */
  lemma CandidatesEveryKey(terms: seq<string>, tb: map<string, Record>, order: seq<string>)
    requires ListsKeys(tb, order)
    ensures forall k :: k in tb && AllEither(terms, Lower(k), DescOf(tb[k])) ==>
              Scored(tb[k], ScoreOf(terms, tb, k)) in Candidates(terms, tb, order)
    ensures forall r :: r in Candidates(terms, tb, order) ==>
              r.score > 0 && exists k :: k in tb && r == Scored(tb[k], ScoreOf(terms, tb, k))
  {
    assert Keys(tb, order);
    CandidatesComplete(terms, tb, order);
    CandidatesSound(terms, tb, order);
    forall k | k in tb && AllEither(terms, Lower(k), DescOf(tb[k]))
      ensures Scored(tb[k], ScoreOf(terms, tb, k)) in Candidates(terms, tb, order)
    {
      var i :| 0 <= i < |order| && order[i] == k;
      assert ScoredAt(terms, tb, order, i, Scored(tb[k], ScoreOf(terms, tb, k)));
    }
    forall r | r in Candidates(terms, tb, order)
      ensures exists k :: k in tb && r == Scored(tb[k], ScoreOf(terms, tb, k))
    {
      var i :| ScoredAt(terms, tb, order, i, r);
      assert order[i] in tb;
    }
  }

  /** A key whose terms all occur in its name or description scores. */
  lemma ScoreOfPositive(terms: seq<string>, tb: map<string, Record>, key: string)
    requires key in tb && AllEither(terms, Lower(key), DescOf(tb[key]))
    ensures ScoreOf(terms, tb, key) > 0
  {
    FuzzyScoreSpec(terms, Lower(key), DescOf(tb[key]));
  }

  lemma LastCandidate(terms: seq<string>, tb: map<string, Record>, order: seq<string>, r: Scored)
    requires Keys(tb, order) && order != []
    requires ScoredAt(terms, tb, order, |order| - 1, r) && r.score > 0
    ensures r in Candidates(terms, tb, order)
  {
    CandidatesSnoc(terms, tb, order);
  }

  lemma EarlierCandidate(terms: seq<string>, tb: map<string, Record>, order: seq<string>, r: Scored)
    requires Keys(tb, order) && order != [] && Keys(tb, order[..|order| - 1])
    requires r in Candidates(terms, tb, order[..|order| - 1])
    ensures r in Candidates(terms, tb, order)
  {
    CandidatesSnoc(terms, tb, order);
  }

  /** Every key whose terms all occur in its name or description gives a
      candidate. */
  lemma {:induction false} CandidatesComplete(terms: seq<string>, tb: map<string, Record>, order: seq<string>)
    requires Keys(tb, order)
    ensures forall i, r :: ScoredAt(terms, tb, order, i, r) && AllEither(terms, Lower(order[i]), DescOf(tb[order[i]])) ==>
              r in Candidates(terms, tb, order)
  {
    if order != [] {
      var n := |order| - 1;
      var init := order[..n];
      CandidatesSnoc(terms, tb, order);
      CandidatesComplete(terms, tb, init);
      forall i, r | ScoredAt(terms, tb, order, i, r) && AllEither(terms, Lower(order[i]), DescOf(tb[order[i]]))
        ensures r in Candidates(terms, tb, order)
      {
        if i < n {
          ScoredAtPrefix(terms, tb, order, n, i, r);
          assert init[i] == order[i];
          assert r in Candidates(terms, tb, init);
          EarlierCandidate(terms, tb, order, r);
        } else {
          assert i == n && r.score == ScoreOf(terms, tb, order[n]);
          ScoreOfPositive(terms, tb, order[n]);
          LastCandidate(terms, tb, order, r);
        }
      }
    }
  }

  lemma ScoreOrderTotal()
    ensures TotalPreorder(ScoreOrder())
  {
  }

  /** The sorted results are the candidates in non-increasing score, with
      equal scores in scan order. */
  lemma SortedResultsSpec(rs: seq<Scored>)
    ensures var s := StableSort(rs, ScoreOrder());
            var p := SortIndices(rs, ScoreOrder());
      && multiset(s) == multiset(rs)
      && IsPermutation(p, |rs|)
      && (forall k :: 0 <= k < |s| ==> s[k] == rs[p[k]])
      && (forall x, y :: 0 <= x < y < |s| ==> s[x].score >= s[y].score)
      && (forall x, y :: 0 <= x < y < |s| && s[x].score == s[y].score ==> p[x] < p[y])
  {
    ScoreOrderTotal();
    StableSortCorrect(rs, ScoreOrder());
    var p := SortIndices(rs, ScoreOrder());
    forall x, y | 0 <= x < y < |rs| && rs[p[x]].score == rs[p[y]].score
      ensures p[x] < p[y]
    {
      assert Before(rs, ScoreOrder(), p[x], p[y]);
    }
  }

  // ---------------------------------------------------------------------------
  // The search state
  // ---------------------------------------------------------------------------

  datatype Mode = Fuzzy | Api

  /** The snapshot taken before a search (`preSearchState`). */
  datatype PreSearch = PreSearch(pathKey: Option<string>, pathSlash: Option<string>, openPhases: seq<string>,
                                 sidebarCollapsed: bool)

  /** What `exitSearchMode` did. */
  datatype Exit = NotActive | Skipped | Restored | Dropped

  class SearchState {
    var mode: Mode
    var isActive: bool
    var currentQuery: string
    var preSearchState: Option<PreSearch>
    var isTyping: bool

    constructor ()
      ensures mode == Fuzzy && !isActive && currentQuery == "" && preSearchState.None? && !isTyping
    {
      mode := Fuzzy;
      isActive := false;
      currentQuery := "";
      preSearchState := None;
      isTyping := false;
    }

    /** `exitSearchMode(skipRestore)`: nothing when search is not active;
        otherwise search ends, and the snapshot is dropped when skipping,
        restored (and dropped) when it has a path key, and kept otherwise. */
    method ExitSearchMode(skipRestore: bool) returns (what: Exit)
      modifies this
      ensures mode == old(mode) && isTyping == old(isTyping)
      ensures !old(isActive) ==> what == NotActive && isActive == old(isActive) &&
                                 currentQuery == old(currentQuery) && preSearchState == old(preSearchState)
      ensures old(isActive) ==> !isActive && currentQuery == ""
      ensures old(isActive) && skipRestore ==> what == Skipped && preSearchState.None?
      ensures old(isActive) && !skipRestore ==>
                if old(preSearchState).Some? && Truthy(OptStr(old(preSearchState).value.pathKey))
                then what == Restored && preSearchState.None?
                else what == Dropped && preSearchState == old(preSearchState)
    {
      if !isActive {
        return NotActive;
      }
      isActive := false;
      currentQuery := "";
      if skipRestore {
        preSearchState := None;
        return Skipped;
      }
      if preSearchState.Some? && Truthy(OptStr(preSearchState.value.pathKey)) {
        preSearchState := None;
        what := Restored;
      } else {
        what := Dropped;
      }
    }

    /** `setTypingMode(v)`: with a sidebar, the flag becomes `v`; it changes
        only when it differs. */
    method SetTypingMode(v: bool, hasSidebar: bool)
      modifies this
      ensures isTyping == if hasSidebar then v else old(isTyping)
      ensures mode == old(mode) && isActive == old(isActive) && currentQuery == old(currentQuery) &&
              preSearchState == old(preSearchState)
    {
      if !hasSidebar {
        return;
      }
      if v && !isTyping {
        isTyping := true;
      } else if !v && isTyping {
        isTyping := false;
      }
    }

    /** `performFuzzySearch(query)`: an empty query leaves search mode;
        otherwise the context of the sorted results. */
    method PerformFuzzySearch(query: string, tb: map<string, Record>, order: seq<string>)
      returns (ctx: Option<SearchContext>)
      requires Keys(tb, order)
      modifies this
      ensures query == "" ==> ctx.None? && !isActive
      ensures query != "" ==> isActive == old(isActive) && preSearchState == old(preSearchState)
      ensures query != "" ==>
                var ids := ResultIds(StableSort(Candidates(Terms(query), tb, order), ScoreOrder()));
                ctx.Some? && ctx.value.foundToolIds == ids &&
                ctx.value.phaseKeys == Firsts(HitPhases(tb, ids)) &&
                ctx.value.paths == ContextPaths(tb, ids, ctx.value.phaseKeys) &&
                (forall ph :: ph in ctx.value.countsByPhase <==> ph in ctx.value.phaseKeys) &&
                (forall ph :: ph in ctx.value.countsByPhase ==> ctx.value.countsByPhase[ph] == PhaseCount(tb, ids, ph))
    {
      if query == "" {
        var _ := ExitSearchMode(false);
        return None;
      }
      var results := ScoreAll(Terms(query), tb, order);
      results := StableSort(results, ScoreOrder());
      var foundToolIds := ResultIds(results);
      var c := BuildSearchContext(tb, foundToolIds, query);
      ctx := Some(c);
    }
  }

  /** A stored string or null, as a value. */
  function OptStr(o: Option<string>): JsVal
  {
    if o.Some? then Str(o.value) else Null
  }
}

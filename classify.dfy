/**
 * What the renderer stores and where it files it: the draw entries kept from
 * a vertex-cache map, the bucket rules of the scene, highlight and selection
 * lists, the cache-key table, the effect of applying a key set to the skip
 * counters, and the de-duplication of whole-object selections. These are the
 * specifications the renderer's methods are proved against.
 */
module Classify {
  import opened Wrappers
  import opened CacheKeys
  import opened RenderTypes

  // ---------------------------------------------------------------------
  // Positions satisfying a predicate

  /** The positions of the elements of `s` that satisfy `p`, ascending. */
  function Where<T>(s: seq<T>, p: T -> bool): seq<nat>
  {
    if |s| == 0 then [] else Where(s[..|s| - 1], p) + (if p(s[|s| - 1]) then [|s| - 1] else [])
  }

  lemma {:induction false} WhereSnoc<T>(s: seq<T>, x: T, p: T -> bool)
    ensures Where(s + [x], p) == Where(s, p) + (if p(x) then [|s|] else [])
  {
    assert (s + [x])[..|s|] == s;
  }

  /** `Where` lists exactly the satisfying positions, each once, in increasing order. */
  lemma {:induction false} WhereSpec<T>(s: seq<T>, p: T -> bool)
    ensures forall i :: i in Where(s, p) <==> 0 <= i < |s| && p(s[i])
    ensures forall a, b :: 0 <= a < b < |Where(s, p)| ==> Where(s, p)[a] < Where(s, p)[b]
  {
    if |s| > 0 {
      var init := s[..|s| - 1];
      WhereSpec(init, p);
      assert s == init + [s[|s| - 1]];
      WhereSnoc(init, s[|s| - 1], p);
      forall i | 0 <= i < |init| ensures init[i] == s[i] { }
      var w := Where(init, p);
      forall a | 0 <= a < |w| ensures w[a] < |init| {
        assert w[a] in w;
      }
    }
  }

  // ---------------------------------------------------------------------
  // The draw-entry store

  /** A group the classification loops look at: some caches and not invisible. */
  predicate Drawable(g: CacheGroup)
  {
    |g.ventries| > 0 && g.material.surface.drawstyle != Invisible
  }

  /** The entries `pushDrawEntry` keeps: those whose bounding box is not empty. */
  function KeptEntries(m: Material, vs: seq<VertexCacheEntry>): seq<DrawEntry>
  {
    if |vs| == 0 then []
    else KeptEntries(m, vs[..|vs| - 1])
         + (if IsEmpty(vs[|vs| - 1].bbox) then [] else [DrawEntry(m, vs[|vs| - 1], 0)])
  }

  function GroupEntries(g: CacheGroup): seq<DrawEntry>
  {
    if Drawable(g) then KeptEntries(g.material, g.ventries) else []
  }

  /** The draw entries built from a vertex-cache map, in iteration order. */
  function MapEntries(gs: seq<CacheGroup>): seq<DrawEntry>
  {
    if |gs| == 0 then [] else MapEntries(gs[..|gs| - 1]) + GroupEntries(gs[|gs| - 1])
  }

  lemma {:induction false} KeptEntriesSnoc(m: Material, vs: seq<VertexCacheEntry>, v: VertexCacheEntry)
    ensures KeptEntries(m, vs + [v])
         == KeptEntries(m, vs) + (if IsEmpty(v.bbox) then [] else [DrawEntry(m, v, 0)])
  {
    assert (vs + [v])[..|vs|] == vs;
  }

  lemma {:induction false} MapEntriesSnoc(gs: seq<CacheGroup>, g: CacheGroup)
    ensures MapEntries(gs + [g]) == MapEntries(gs) + GroupEntries(g)
  {
    assert (gs + [g])[..|gs|] == gs;
  }

  lemma {:induction false} KeptEntriesSpec(m: Material, vs: seq<VertexCacheEntry>)
    ensures forall e :: e in KeptEntries(m, vs) <==>
      e.material == m && e.ventry in vs && !IsEmpty(e.ventry.bbox) && e.skip == 0
  {
    if |vs| > 0 {
      var init := vs[..|vs| - 1];
      KeptEntriesSpec(m, init);
      assert vs == init + [vs[|vs| - 1]];
    }
  }

  /**
   * A stored entry comes from a drawable group and has a non-empty box and a
   * zero counter; every non-empty cache of a drawable group is stored.
   */
  lemma {:induction false} MapEntriesSpec(gs: seq<CacheGroup>)
    ensures forall e :: e in MapEntries(gs) <==>
      exists g :: g in gs && Drawable(g) && e.material == g.material && e.ventry in g.ventries
                  && !IsEmpty(e.ventry.bbox) && e.skip == 0
  {
    if |gs| > 0 {
      var init := gs[..|gs| - 1];
      var g := gs[|gs| - 1];
      MapEntriesSpec(init);
      KeptEntriesSpec(g.material, g.ventries);
      assert gs == init + [g];
    }
  }

  // ---------------------------------------------------------------------
  // Bucket rules

  /** `fulltransp`: a transparent texture, or a uniform colour whose alpha byte is not 0xff. */
  predicate FullTransp(m: Material)
  {
    m.transptexture || (!m.pervertexcolor && m.shading.diffuse & 0xff != 0xff)
  }

  /** The opaque rule: the entry has something opaque to draw. */
  predicate IsOpaque(e: DrawEntry)
  {
    !FullTransp(e.material) && (!e.material.pervertexcolor || e.ventry.hasOpaqueParts)
  }

  /** The transparent rule: the entry has something transparent to draw. */
  predicate IsTransparent(e: DrawEntry)
  {
    FullTransp(e.material) || (e.material.pervertexcolor && e.ventry.hasTransparency)
  }

  /** Where `setScene` files each stored entry. */
  predicate InSceneBucket(e: DrawEntry, b: Bucket)
  {
    var top := e.material.onTop;
    var tri := e.material.kind == Triangle;
    match b
    case OpaqueVCache => IsOpaque(e) && !top
    case OpaqueOnTop => IsOpaque(e) && top && tri
    case LinesOnTop => IsOpaque(e) && top && !tri
    case TrianglesOnTop => top && tri
    case TranspVCache => IsTransparent(e) && !top
    case TranspOnTop => IsTransparent(e) && top
    case _ => false
  }

  function SceneBucket(es: seq<DrawEntry>, b: Bucket): seq<nat>
  {
    Where(es, (e: DrawEntry) => InSceneBucket(e, b))
  }

  /** The entries `setHighlight` registers as hiding their original object. */
  predicate IsHighlightKeyEntry(e: DrawEntry)
  {
    e.material.onTop && (e.material.partialhighlight || (e.ventry.partidx < 0 && e.ventry.isWholeCache))
  }

  /** Where `setHighlight` files each stored entry. */
  predicate InHighlightBucket(e: DrawEntry, b: Bucket)
  {
    var tri := e.material.kind == Triangle;
    if FlagTransparency in e.material.shading.overrideflags then
      var opaqueColour := e.material.shading.diffuse & 0xff == 0xff;
      match b
      case TranspHighlight => !opaqueColour
      case OpaqueHighlight => opaqueColour && tri
      case OpaqueLinesHighlight => opaqueColour && !tri
      case _ => false
    else
      match b
      case OpaqueHighlight => IsOpaque(e) && tri
      case OpaqueLinesHighlight => IsOpaque(e) && !tri
      case TranspHighlight => IsTransparent(e)
      case _ => false
  }

  function HighlightBucket(es: seq<DrawEntry>, b: Bucket): seq<nat>
  {
    Where(es, (e: DrawEntry) => InHighlightBucket(e, b))
  }

  /** The keys `setHighlight` collects. */
  function HighlightKeys(es: seq<DrawEntry>): set<CacheKeyPtr>
  {
    if |es| == 0 then {}
    else HighlightKeys(es[..|es| - 1])
         + (if IsHighlightKeyEntry(es[|es| - 1]) then {es[|es| - 1].ventry.key} else {})
  }

  lemma {:induction false} HighlightKeysSnoc(es: seq<DrawEntry>, e: DrawEntry)
    ensures HighlightKeys(es + [e]) == HighlightKeys(es) + (if IsHighlightKeyEntry(e) then {e.ventry.key} else {})
  {
    assert (es + [e])[..|es|] == es;
  }

  lemma {:induction false} HighlightKeysSpec(es: seq<DrawEntry>)
    ensures forall k :: k in HighlightKeys(es) <==>
      exists i :: 0 <= i < |es| && IsHighlightKeyEntry(es[i]) && es[i].ventry.key == k
  {
    if |es| > 0 {
      var init := es[..|es| - 1];
      HighlightKeysSpec(init);
      forall i | 0 <= i < |init| ensures init[i] == es[i] { }
    }
  }

  /** The union of the boxes of the entries selected by `p`. */
  function BoxOf(es: seq<DrawEntry>, p: DrawEntry -> bool): Box
  {
    if |es| == 0 then EmptyBox
    else Extend(BoxOf(es[..|es| - 1], p), if p(es[|es| - 1]) then es[|es| - 1].ventry.bbox else EmptyBox)
  }

  lemma {:induction false} BoxOfSnoc(es: seq<DrawEntry>, e: DrawEntry, p: DrawEntry -> bool)
    ensures BoxOf(es + [e], p) == Extend(BoxOf(es, p), if p(e) then e.ventry.bbox else EmptyBox)
  {
    assert (es + [e])[..|es|] == es;
  }

  /** The union box contains the box of every entry it was built from. */
  lemma {:induction false} BoxOfContains(es: seq<DrawEntry>, p: DrawEntry -> bool, i: nat)
    requires i < |es| && p(es[i])
    ensures Contains(BoxOf(es, p), es[i].ventry.bbox)
  {
    var init := es[..|es| - 1];
    var last := if p(es[|es| - 1]) then es[|es| - 1].ventry.bbox else EmptyBox;
    ExtendIsLeastUpperBound(BoxOf(init, p), last, BoxOf(es, p));
    if i < |es| - 1 {
      assert init[i] == es[i];
      BoxOfContains(init, p, i);
      ContainsTransitive(BoxOf(es, p), BoxOf(init, p), es[i].ventry.bbox);
    }
  }

  lemma {:induction false} ContainsTransitive(a: Box, b: Box, c: Box)
    requires Contains(a, b) && Contains(b, c)
    ensures Contains(a, c)
  {
  }

  predicate Always(e: DrawEntry) { true }

  // ---------------------------------------------------------------------
  // The cache-key table and the skip counters

  /** `cachetable` as `setScene` builds it: each key lists the positions of its entries. */
  function CacheTable(es: seq<DrawEntry>): map<CacheKeyPtr, seq<nat>>
  {
    if |es| == 0 then map[]
    else
      var t := CacheTable(es[..|es| - 1]);
      var k := es[|es| - 1].ventry.key;
      t[k := (if k in t then t[k] else []) + [|es| - 1]]
  }

  /** Every listed position is a position of an entry with that key, listed once. */
  ghost predicate TableConsistent(t: map<CacheKeyPtr, seq<nat>>, es: seq<DrawEntry>)
  {
    forall k :: k in t ==>
      (forall j :: j in t[k] ==> j < |es| && es[j].ventry.key == k) &&
      (forall a, b :: 0 <= a < b < |t[k]| ==> t[k][a] != t[k][b])
  }

  /** Every entry is listed under its own key. */
  ghost predicate TableComplete(t: map<CacheKeyPtr, seq<nat>>, es: seq<DrawEntry>)
  {
    forall i :: 0 <= i < |es| ==> es[i].ventry.key in t && i in t[es[i].ventry.key]
  }

  lemma {:induction false} CacheTableSnoc(es: seq<DrawEntry>, e: DrawEntry)
    ensures CacheTable(es + [e])
         == CacheTable(es)[e.ventry.key := (if e.ventry.key in CacheTable(es) then CacheTable(es)[e.ventry.key] else []) + [|es|]]
  {
    assert (es + [e])[..|es|] == es;
  }

  lemma {:induction false} CacheTableSpec(es: seq<DrawEntry>)
    ensures TableConsistent(CacheTable(es), es)
    ensures TableComplete(CacheTable(es), es)
  {
    if |es| > 0 {
      var init := es[..|es| - 1];
      CacheTableSpec(init);
      var t := CacheTable(init);
      var k := es[|es| - 1].ventry.key;
      forall i | 0 <= i < |init| ensures init[i] == es[i] { }
      var t' := CacheTable(es);
      assert t' == t[k := (if k in t then t[k] else []) + [|es| - 1]];
      forall k2 | k2 in t'
        ensures forall j :: j in t'[k2] ==> j < |es| && es[j].ventry.key == k2
        ensures forall a, b :: 0 <= a < b < |t'[k2]| ==> t'[k2][a] != t'[k2][b]
      {
        if k2 != k {
          assert t'[k2] == t[k2];
        } else if k in t {
          assert t'[k2] == t[k] + [|es| - 1];
          forall a, b | 0 <= a < b < |t'[k2]| ensures t'[k2][a] != t'[k2][b] {
            if b == |t[k]| {
              assert t'[k2][a] == t[k][a] && t[k][a] in t[k];
            }
          }
        }
      }
    }
  }

  /** The table only depends on the keys of the entries, not on their counters. */
  lemma {:induction false} TableConsistentSameKeys(t: map<CacheKeyPtr, seq<nat>>, es: seq<DrawEntry>, es': seq<DrawEntry>)
    requires TableConsistent(t, es)
    requires |es'| == |es| && forall i :: 0 <= i < |es| ==> es'[i].ventry == es[i].ventry
    ensures TableConsistent(t, es')
  {
    forall k | k in t ensures forall j :: j in t[k] ==> j < |es'| && es'[j].ventry.key == k {
      forall j | j in t[k] ensures j < |es'| && es'[j].ventry.key == k {
        assert es'[j].ventry == es[j].ventry;
      }
    }
  }

  /** The entry at `i` is listed under one of `keys`. */
  predicate Suppressed(t: map<CacheKeyPtr, seq<nat>>, keys: set<CacheKeyPtr>, es: seq<DrawEntry>, i: nat)
    requires i < |es|
  {
    var k := es[i].ventry.key;
    k in keys && k in t && i in t[k]
  }

  /** The counters after `applyKeys(keys, d)`: `d` added to every suppressed entry. */
  function Bumped(es: seq<DrawEntry>, t: map<CacheKeyPtr, seq<nat>>, keys: set<CacheKeyPtr>, d: int): seq<DrawEntry>
  {
    seq(|es|, i requires 0 <= i < |es| =>
      if Suppressed(t, keys, es, i) then es[i].(skip := es[i].skip + d) else es[i])
  }

  /** Applying a key set and then its negation restores every counter. */
  lemma {:induction false} BumpedRoundTrip(es: seq<DrawEntry>, t: map<CacheKeyPtr, seq<nat>>, keys: set<CacheKeyPtr>, d: int)
    ensures Bumped(Bumped(es, t, keys, d), t, keys, -d) == es
  {
    var once := Bumped(es, t, keys, d);
    forall i | 0 <= i < |es| ensures Bumped(once, t, keys, -d)[i] == es[i] {
      assert once[i].ventry == es[i].ventry;
    }
  }

  /** Adding one more key to an applied set adds `d` to exactly that key's entries. */
  lemma {:induction false} BumpedAddKey(es: seq<DrawEntry>, t: map<CacheKeyPtr, seq<nat>>, keys: set<CacheKeyPtr>, k: CacheKeyPtr, d: int, i: nat)
    requires TableConsistent(t, es)
    requires k !in keys && i < |es|
    ensures Bumped(es, t, keys + {k}, d)[i].skip
         == Bumped(es, t, keys, d)[i].skip + (if k in t && i in t[k] then d else 0)
  {
  }

  /** Counters that account exactly for a highlight and a selection key set. */
  ghost predicate Accounted(es: seq<DrawEntry>, t: map<CacheKeyPtr, seq<nat>>,
                            hk: set<CacheKeyPtr>, sk: set<CacheKeyPtr>)
  {
    forall i :: 0 <= i < |es| ==>
      es[i].skip == (if Suppressed(t, hk, es, i) then 1 else 0) + (if Suppressed(t, sk, es, i) then 1 else 0)
  }

  // ---------------------------------------------------------------------
  // Selections

  /** A selection candidate: the entry, its selection id and which selection map it came from. */
  datatype SelUnit = SelUnit(selId: int, onTopList: bool, entry: DrawEntry)

  function Tag(id: int, top: bool, es: seq<DrawEntry>): seq<SelUnit>
  {
    seq(|es|, i requires 0 <= i < |es| => SelUnit(id, top, es[i]))
  }

  lemma {:induction false} TagAppend(id: int, top: bool, a: seq<DrawEntry>, b: seq<DrawEntry>)
    ensures Tag(id, top, a + b) == Tag(id, top, a) + Tag(id, top, b)
  {
  }

  /** The candidates of a selection map, in ascending id order. */
  function SelUnits(sels: seq<Selection>, top: bool): seq<SelUnit>
  {
    if |sels| == 0 then []
    else SelUnits(sels[..|sels| - 1], top)
         + Tag(sels[|sels| - 1].id, top, MapEntries(sels[|sels| - 1].caches))
  }

  lemma {:induction false} SelUnitsSnoc(sels: seq<Selection>, s: Selection, top: bool)
    ensures SelUnits(sels + [s], top) == SelUnits(sels, top) + Tag(s.id, top, MapEntries(s.caches))
  {
    assert (sels + [s])[..|sels|] == sels;
  }

  /** A whole-object selection entry, the kind `checkKey` de-duplicates. */
  predicate IsWholeObject(e: DrawEntry)
  {
    e.ventry.key.Some? && e.ventry.partidx < 0 && e.ventry.isWholeCache
  }

  /** The key `checkKey` records for a whole-object entry: its cache key, node id and type. */
  function SelKey(e: DrawEntry): seq<int>
    requires e.ventry.key.Some?
  {
    e.ventry.key.value + [e.ventry.nodeId, PrimCode(e.material.kind)]
  }

  /** `checkKey`'s state: entries kept so far, `selectionkeys` and the local `renderkeys`. */
  datatype SelState = SelState(kept: seq<SelUnit>, keys: set<CacheKeyPtr>, renderkeys: set<seq<int>>)

  /** One `checkKey` decision on a candidate whose box is not empty. */
  function CheckKey(s: SelState, u: SelUnit): SelState
  {
    if !IsWholeObject(u.entry) then s.(kept := s.kept + [u])
    else
      var sk := SelKey(u.entry);
      if u.entry.ventry.key !in s.keys then SelState(s.kept + [u], s.keys + {u.entry.ventry.key}, s.renderkeys + {sk})
      else if sk !in s.renderkeys then SelState(s.kept + [u], s.keys, s.renderkeys + {sk})
      else s
  }

  function CheckKeys(us: seq<SelUnit>): SelState
  {
    if |us| == 0 then SelState([], {}, {}) else CheckKey(CheckKeys(us[..|us| - 1]), us[|us| - 1])
  }

  lemma {:induction false} CheckKeysSnoc(us: seq<SelUnit>, u: SelUnit)
    ensures CheckKeys(us + [u]) == CheckKey(CheckKeys(us), u)
  {
    assert (us + [u])[..|us|] == us;
  }

  /** The selection keys of the whole-object entries of `kept`. */
  ghost predicate KeysOfKept(s: SelState)
  {
    (forall k :: k in s.keys <==> exists i :: 0 <= i < |s.kept| && IsWholeObject(s.kept[i].entry) && s.kept[i].entry.ventry.key == k) &&
    (forall r :: r in s.renderkeys <==> exists i :: 0 <= i < |s.kept| && IsWholeObject(s.kept[i].entry) && SelKey(s.kept[i].entry) == r)
  }

  lemma {:induction false} SelKeyPrefix(a: DrawEntry, b: DrawEntry)
    requires a.ventry.key.Some? && b.ventry.key.Some? && SelKey(a) == SelKey(b)
    ensures a.ventry.key == b.ventry.key
  {
    var ka, kb := a.ventry.key.value, b.ventry.key.value;
    assert |ka| == |kb|;
    assert ka == SelKey(a)[..|ka|] && kb == SelKey(b)[..|kb|];
  }

  /** No two whole-object entries share a key, a node and a type. */
  ghost predicate WholeObjectsDistinct(kept: seq<SelUnit>)
  {
    forall i, j :: 0 <= i < j < |kept| && IsWholeObject(kept[i].entry) && IsWholeObject(kept[j].entry)
      ==> SelKey(kept[i].entry) != SelKey(kept[j].entry)
  }

  /** One decision keeps `selectionkeys` and `renderkeys` equal to the keys of the kept entries. */
  lemma {:induction false} CheckKeyKeys(s: SelState, u: SelUnit)
    requires KeysOfKept(s)
    ensures KeysOfKept(CheckKey(s, u))
  {
    var s' := CheckKey(s, u);
    if s' != s {
      assert s'.kept == s.kept + [u];
      forall k | k in s'.keys
        ensures exists i :: 0 <= i < |s'.kept| && IsWholeObject(s'.kept[i].entry) && s'.kept[i].entry.ventry.key == k
      {
        if k in s.keys {
          var i :| 0 <= i < |s.kept| && IsWholeObject(s.kept[i].entry) && s.kept[i].entry.ventry.key == k;
          assert s'.kept[i] == s.kept[i];
        } else {
          assert s'.kept[|s'.kept| - 1] == u;
        }
      }
      forall r | r in s'.renderkeys
        ensures exists i :: 0 <= i < |s'.kept| && IsWholeObject(s'.kept[i].entry) && SelKey(s'.kept[i].entry) == r
      {
        if r in s.renderkeys {
          var i :| 0 <= i < |s.kept| && IsWholeObject(s.kept[i].entry) && SelKey(s.kept[i].entry) == r;
          assert s'.kept[i] == s.kept[i];
        } else {
          assert s'.kept[|s'.kept| - 1] == u;
        }
      }
    }
  }

  /** One decision keeps the kept whole-object entries pairwise distinct. */
  lemma {:induction false} CheckKeyDistinct(s: SelState, u: SelUnit)
    requires KeysOfKept(s) && WholeObjectsDistinct(s.kept)
    ensures WholeObjectsDistinct(CheckKey(s, u).kept)
  {
    var s' := CheckKey(s, u);
    if IsWholeObject(u.entry) && u.entry.ventry.key !in s.keys {
      forall i | 0 <= i < |s.kept| && IsWholeObject(s.kept[i].entry)
        ensures SelKey(s.kept[i].entry) != SelKey(u.entry)
      {
        if SelKey(s.kept[i].entry) == SelKey(u.entry) {
          SelKeyPrefix(s.kept[i].entry, u.entry);
        }
      }
    }
    var kept' := s'.kept;
    forall i, j | 0 <= i < j < |kept'| && IsWholeObject(kept'[i].entry) && IsWholeObject(kept'[j].entry)
      ensures SelKey(kept'[i].entry) != SelKey(kept'[j].entry)
    {
      if j < |s.kept| {
        assert kept'[i] == s.kept[i] && kept'[j] == s.kept[j];
      } else {
        assert s' != s && kept' == s.kept + [u];
        assert kept'[j] == u && kept'[i] == s.kept[i];
        if u.entry.ventry.key in s.keys {
          assert SelKey(s.kept[i].entry) in s.renderkeys;
        }
      }
    }
  }

  /**
   * `selectionkeys` holds exactly the keys of the kept whole-object entries,
   * and no two kept whole-object entries share a key, a node and a type.
   */
  lemma {:induction false} CheckKeysSpec(us: seq<SelUnit>)
    ensures KeysOfKept(CheckKeys(us))
    ensures WholeObjectsDistinct(CheckKeys(us).kept)
    ensures forall u :: u in CheckKeys(us).kept ==> u in us
  {
    if |us| > 0 {
      var init := us[..|us| - 1];
      var u := us[|us| - 1];
      CheckKeysSpec(init);
      var s := CheckKeys(init);
      assert CheckKeys(us) == CheckKey(s, u);
      CheckKeyKeys(s, u);
      CheckKeyDistinct(s, u);
      assert forall x :: x in init ==> x in us;
    }
  }

  /**
   * A whole-object candidate is dropped exactly when an entry with the same
   * key, node and type was kept before it; every other candidate is kept.
   */
  lemma {:induction false} CheckKeyDrops(s: SelState, u: SelUnit)
    requires KeysOfKept(s)
    ensures CheckKey(s, u) == s <==>
      IsWholeObject(u.entry) &&
      exists i :: 0 <= i < |s.kept| && IsWholeObject(s.kept[i].entry) && SelKey(s.kept[i].entry) == SelKey(u.entry)
    ensures CheckKey(s, u) != s ==> CheckKey(s, u).kept == s.kept + [u]
  {
    if IsWholeObject(u.entry) && u.entry.ventry.key !in s.keys {
      if exists i :: 0 <= i < |s.kept| && IsWholeObject(s.kept[i].entry) && SelKey(s.kept[i].entry) == SelKey(u.entry) {
        var i :| 0 <= i < |s.kept| && IsWholeObject(s.kept[i].entry) && SelKey(s.kept[i].entry) == SelKey(u.entry);
        SelKeyPrefix(s.kept[i].entry, u.entry);
        assert false;
      }
    }
  }

  /** The draw entries of the kept candidates. */
  function EntriesOf(us: seq<SelUnit>): seq<DrawEntry>
  {
    seq(|us|, i requires 0 <= i < |us| => us[i].entry)
  }

  /** Where `updateSelection` files each kept entry. */
  predicate InSelectionBucket(u: SelUnit, b: Bucket, p: ViewParams)
  {
    var e := u.entry;
    var id := u.selId;
    var partial := e.material.partialhighlight;
    if u.onTopList then
      match e.material.kind
      case Triangle =>
        b == TranspSelectionsOnTop ||
        (b == SelsTriangleOnTop && (!HasBit(id, p.selIdSelectedBit) || partial))
      case Line =>
        if HasBit(id, p.selIdPartialBit) then b == SelsLineOnTop
        else if !HasBit(id, p.selIdFullBit) || partial then b == SelsOnTop
        else b == TranspSelectionsOnTop
      case Point =>
        if HasBit(id, p.selIdPartialBit) then b == SelsPointOnTop
        else if !HasBit(id, p.selIdFullBit) || partial then b == SelsOnTop
        else b == TranspSelectionsOnTop
    else
      (b == OpaqueSelections && IsOpaque(e)) || (b == TranspSelections && IsTransparent(e))
  }

  function SelectionBucket(us: seq<SelUnit>, b: Bucket, p: ViewParams): seq<nat>
  {
    Where(us, (u: SelUnit) => InSelectionBucket(u, b, p))
  }

  /** The index records of a transparent bucket as the classification emits them. */
  function IndexRecords(ix: seq<nat>): seq<DrawEntryIndex>
  {
    seq(|ix|, i requires 0 <= i < |ix| => DrawEntryIndex(ix[i], 0.0))
  }

  function IndicesOf(rs: seq<DrawEntryIndex>): seq<nat>
  {
    seq(|rs|, i requires 0 <= i < |rs| => rs[i].idx)
  }
}
